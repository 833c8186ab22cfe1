/** What the two edits of Steam's configuration come to: the one setting, and nothing else. */
module SteamSettings {
  import opened Wrappers
  import opened Vdf
  import opened VdfEdits
  import opened VdfPrint
  import opened SteamPlay
  import opened SteamTrees

  const UNDER_STEAM: seq<string> := [MAPPING, GLOBAL, NAME]
  const COMPAT: seq<string> := STEAM + UNDER_STEAM
  const SCREEN: seq<string> := [STORE, CUSTOMIZATION, SCREENSAVER, WHILE_IN_GAME]

  // ---- The printers print settings

  predicate AllBlank(s: string)
  {
    forall i :: 0 <= i < |s| ==> IsBlank(s[i])
  }

  function LaidBeside(key: string, indent: string): seq<Laid>
  {
    if key == GLOBAL then
      [LaidPair("\n" + indent, "config", "\t\t", ""), LaidPair("\n" + indent, "priority", "\t\t", "75")]
    else []
  }

  /** A setting with the blocks it lives under, a line for each token that has one. */
  function LaidNew(path: seq<string>, indent: string, value: string): Laid
    requires path != []
    decreases |path|
  {
    if |path| == 1 then LaidPair("\n" + indent, path[0], "\t\t", value)
    else LaidBlock("\n" + indent, path[0], "\n" + indent,
                   [LaidNew(path[1..], indent + "\t", value)] + LaidBeside(path[0], indent + "\t"), "\n" + indent)
  }

  predicate PlainKey(s: string)
  {
    s != "" && forall i :: 0 <= i < |s| ==> s[i] != '"' && s[i] != '\\'
  }

  predicate PlainPath(path: seq<string>)
  {
    path != [] && forall i :: 0 <= i < |path| ==> PlainKey(path[i])
  }

  lemma {:induction false} TextJoin(a: string, b: string)
    requires IsText(a) && IsText(b)
    ensures IsText(a + b)
  {
    if a == "" {
      assert a + b == b;
    } else if a[0] == '\\' {
      TextJoin(a[2..], b);
      assert (a + b)[2..] == a[2..] + b;
    } else {
      TextJoin(a[1..], b);
      assert (a + b)[1..] == a[1..] + b;
    }
  }

  lemma PlainText(s: string)
    requires forall i :: 0 <= i < |s| ==> s[i] != '"' && s[i] != '\\'
    ensures IsText(s) && Escape(s) == s
  {
    PlainUpTo(s, |s|);
    assert s[..|s|] == s;
  }

  lemma {:induction false} PlainUpTo(s: string, n: nat)
    requires n <= |s| && forall i :: 0 <= i < |s| ==> s[i] != '"' && s[i] != '\\'
    ensures IsText(s[..n]) && EscapeUpTo(s, n) == s[..n]
  {
    if n > 0 {
      PlainUpTo(s, n - 1);
      assert s[..n] == s[..n - 1] + [s[n - 1]];
      TextJoin(s[..n - 1], [s[n - 1]]);
    }
  }

  /** What Quote puts between quotes ends where they do. */
  lemma EscapeText(s: string)
    ensures IsText(Escape(s))
  {
    EscapedUpTo(s, |s|);
  }

  lemma {:induction false} EscapedUpTo(s: string, n: nat)
    requires n <= |s|
    ensures IsText(EscapeUpTo(s, n))
  {
    if n > 0 {
      EscapedUpTo(s, n - 1);
      TextJoin(EscapeUpTo(s, n - 1), if s[n - 1] == '\\' || s[n - 1] == '"' then ['\\', s[n - 1]] else [s[n - 1]]);
    }
  }

  lemma {:induction false} BlankGap(s: string)
    requires AllBlank(s)
    ensures IsGap(s)
  {
    if s != "" {
      BlankGap(s[1..]);
    }
  }

  lemma AllOne(l: Laid)
    ensures AllWritten([l]) == Written(l) && AllMeant([l]) == [Meant(l)] && (AllWellLaid([l]) <==> WellLaid(l))
    ensures forall p: nat :: AllPlaced([l], p) == [Placed(l, p)]
  {
    assert [l][..0] == [];
    assert "" + Written(l) == Written(l);
  }

  lemma AllTwo(a: seq<Laid>, l: Laid)
    ensures AllWritten(a + [l]) == AllWritten(a) + Written(l)
    ensures AllMeant(a + [l]) == AllMeant(a) + [Meant(l)]
    ensures AllWellLaid(a + [l]) <==> AllWellLaid(a) && WellLaid(l)
  {
    assert (a + [l])[..|a|] == a;
  }

  lemma {:induction false} LaidNewMeans(path: seq<string>, indent: string, value: string)
    requires PlainPath(path) && AllBlank(indent) && IsText(value)
    ensures Meant(LaidNew(path, indent, value)) == New(path, value)
    ensures WellLaid(LaidNew(path, indent, value))
    decreases |path|
  {
    BlankGap("\n" + indent);
    BlankGap("\t\t");
    PlainText(path[0]);
    if |path| > 1 {
      LaidNewMeans(path[1..], indent + "\t", value);
      BesideMeans(LaidNew(path[1..], indent + "\t", value), path[0], indent + "\t");
    }
  }

  lemma PairMeans(indent: string, key: string, value: string)
    requires AllBlank(indent) && PlainKey(key) && (value == "" || PlainKey(value))
    ensures var l := LaidPair("\n" + indent, key, "\t\t", value); WellLaid(l) && Meant(l) == Leaf(key, value)
  {
    BlankGap("\n" + indent);
    BlankGap("\t\t");
    PlainText(key);
    PlainText(value);
  }

  lemma BesideMeans(inner: Laid, key: string, indent: string)
    requires WellLaid(inner) && AllBlank(indent)
    ensures AllMeant([inner] + LaidBeside(key, indent)) == [Meant(inner)] + Beside(key)
    ensures AllWellLaid([inner] + LaidBeside(key, indent))
  {
    var beside := LaidBeside(key, indent);
    if key == GLOBAL {
      PairMeans(indent, "config", "");
      PairMeans(indent, "priority", "75");
      ThreeMean(inner, beside[0], Leaf("config", ""), beside[1], Leaf("priority", "75"));
    } else {
      AllOne(inner);
      assert [inner] + beside == [inner];
    }
  }

  lemma ThreeMean(inner: Laid, a: Laid, x: Tree, b: Laid, y: Tree)
    requires WellLaid(inner) && WellLaid(a) && WellLaid(b) && Meant(a) == x && Meant(b) == y
    ensures AllMeant([inner] + [a, b]) == [Meant(inner)] + [x, y] && AllWellLaid([inner] + [a, b])
  {
    AllThree(inner, a, b);
  }

  lemma AllThree(a: Laid, b: Laid, c: Laid)
    ensures AllWritten([a] + [b, c]) == Written(a) + Written(b) + Written(c)
    ensures AllMeant([a] + [b, c]) == [Meant(a)] + [Meant(b), Meant(c)]
    ensures AllWellLaid([a] + [b, c]) <==> WellLaid(a) && WellLaid(b) && WellLaid(c)
  {
    AllOne(a);
    AllTwo([a], b);
    AllTwo([a] + [b], c);
    assert [a] + [b, c] == [a] + [b] + [c];
    assert [Meant(a)] + [Meant(b), Meant(c)] == [Meant(a)] + [Meant(b)] + [Meant(c)];
  }

  lemma OurKeysPlain()
    ensures PlainPath(COMPAT) && PlainPath(SCREEN) && PlainPath(UNDER_STEAM)
  {
    assert PlainKey(STORE) && PlainKey("Software") && PlainKey("Valve") && PlainKey("Steam");
    assert PlainKey(MAPPING) && PlainKey(GLOBAL) && PlainKey(NAME);
    assert PlainKey(CUSTOMIZATION) && PlainKey(SCREENSAVER) && PlainKey(WHILE_IN_GAME);
    assert COMPAT == [STORE, "Software", "Valve", "Steam", MAPPING, GLOBAL, NAME];
  }

  lemma NameLineIs(indent: string, tool: string)
    ensures Written(LaidNew([NAME], indent, Escape(tool))) == "\n" + indent + Quote(NAME) + "\t\t" + Quote(tool)
  {
    PlainText(NAME);
  }

  /** One line of a block, its two halves given as they are printed. */
  function Line(indent: string, key: string, value: string): string
  {
    "\n" + indent + key + "\t\t" + value
  }

  lemma LineAfter(x: string, indent: string, key: string, value: string)
    ensures x + "\n" + indent + "\t" + key + "\t\t" + value == x + Line(indent + "\t", key, value)
  {
  }

  lemma BlockText(indent: string, key: string, kids: string)
    ensures "\n" + indent + key + ("\n" + indent) + "{" + kids + ("\n" + indent) + "}"
      == "\n" + indent + key + "\n" + indent + "{" + kids + "\n" + indent + "}"
  {
  }

  lemma ThreeLines(head: string, indent: string, n: string, t: string, c: string, e: string, p: string, w: string)
    ensures head + "\n" + indent + "\t" + n + "\t\t" + t
                 + "\n" + indent + "\t" + c + "\t\t" + e
                 + "\n" + indent + "\t" + p + "\t\t" + w
      == head + (Line(indent + "\t", n, t) + Line(indent + "\t", c, e) + Line(indent + "\t", p, w))
  {
    var i, j, k := Line(indent + "\t", n, t), Line(indent + "\t", c, e), Line(indent + "\t", p, w);
    LineAfter(head, indent, n, t);
    LineAfter(head + i, indent, c, e);
    LineAfter(head + i + j, indent, p, w);
    assert head + i + j + k == head + (i + j + k);
  }

  /** A block of three lines, however its keys and values read. */
  lemma ThreeLineBlock(indent: string, g: string, n: string, t: string, c: string, e: string, p: string, w: string)
    ensures var deep := indent + "\t";
      var beside := [LaidPair("\n" + deep, c, "\t\t", e), LaidPair("\n" + deep, p, "\t\t", w)];
      var kids := [LaidPair("\n" + deep, n, "\t\t", t)] + beside;
      Written(LaidBlock("\n" + indent, g, "\n" + indent, kids, "\n" + indent))
        == "\n" + indent + Raw(g) + "\n" + indent + "{"
           + "\n" + indent + "\t" + Raw(n) + "\t\t" + Raw(t)
           + "\n" + indent + "\t" + Raw(c) + "\t\t" + Raw(e)
           + "\n" + indent + "\t" + Raw(p) + "\t\t" + Raw(w)
           + "\n" + indent + "}"
  {
    var deep := indent + "\t";
    var x := LaidPair("\n" + deep, n, "\t\t", t);
    var y, z := LaidPair("\n" + deep, c, "\t\t", e), LaidPair("\n" + deep, p, "\t\t", w);
    AllThree(x, y, z);
    var head := "\n" + indent + Raw(g) + "\n" + indent + "{";
    ThreeLines(head, indent, Raw(n), Raw(t), Raw(c), Raw(e), Raw(p), Raw(w));
    BlockText(indent, Raw(g), AllWritten([x] + [y, z]));
  }

  lemma PlainQuote(key: string)
    requires PlainKey(key)
    ensures Quote(key) == Raw(key)
  {
    PlainText(key);
  }

  lemma GlobalQuotes()
    ensures Quote(GLOBAL) == Raw(GLOBAL) && Quote("75") == Raw("75") && Quote("") == Raw("")
    ensures Quote("config") == Raw("config") && Quote("priority") == Raw("priority")
  {
    PlainQuote(GLOBAL);
    PlainQuote("config");
    PlainQuote("priority");
    PlainQuote("75");
  }

  lemma GlobalBlockIs(indent: string, tool: string)
    ensures Written(LaidNew([GLOBAL, NAME], indent, Escape(tool))) == GlobalBlock(indent, tool)
  {
    GlobalQuotes();
    PlainQuote(NAME);
    assert [GLOBAL, NAME][1..] == [NAME];
    ThreeLineBlock(indent, GLOBAL, NAME, Escape(tool), "config", "", "priority", "75");
  }

  /** A block with nothing in it but the rest of a setting. */
  lemma BlockIs(path: seq<string>, indent: string, value: string)
    requires |path| > 1 && path[0] != GLOBAL && PlainKey(path[0])
    ensures Written(LaidNew(path, indent, value))
      == "\n" + indent + Quote(path[0]) + "\n" + indent + "{"
         + Written(LaidNew(path[1..], indent + "\t", value))
         + "\n" + indent + "}"
  {
    PlainText(path[0]);
    var inner := LaidNew(path[1..], indent + "\t", value);
    AllOne(inner);
    assert [inner] + [] == [inner];
  }

  lemma MappingBlockIs(indent: string, tool: string)
    ensures Written(LaidNew(UNDER_STEAM, indent, Escape(tool))) == MappingBlock(indent, tool)
  {
    assert UNDER_STEAM[1..] == [GLOBAL, NAME];
    BlockIs(UNDER_STEAM, indent, Escape(tool));
    GlobalBlockIs(indent + "\t", tool);
  }

  lemma WhileInGameLineIs(indent: string)
    ensures Written(LaidNew([WHILE_IN_GAME], indent, "0")) == WhileInGameLine(indent)
  {
    PlainQuote("0");
    PlainQuote(WHILE_IN_GAME);
  }

  lemma ScreensaverBlockIs(indent: string)
    ensures Written(LaidNew([SCREENSAVER, WHILE_IN_GAME], indent, "0")) == ScreensaverBlock(indent)
  {
    assert [SCREENSAVER, WHILE_IN_GAME][1..] == [WHILE_IN_GAME];
    BlockIs([SCREENSAVER, WHILE_IN_GAME], indent, "0");
    WhileInGameLineIs(indent + "\t");
  }

  lemma CustomizationBlockIs(indent: string)
    ensures Written(LaidNew([CUSTOMIZATION, SCREENSAVER, WHILE_IN_GAME], indent, "0")) == CustomizationBlock(indent)
  {
    assert [CUSTOMIZATION, SCREENSAVER, WHILE_IN_GAME][1..] == [SCREENSAVER, WHILE_IN_GAME];
    BlockIs([CUSTOMIZATION, SCREENSAVER, WHILE_IN_GAME], indent, "0");
    ScreensaverBlockIs(indent + "\t");
  }

  // ---- One edit of the text, one edit of the tree

  /** The edit where the way along a path ends: the rest of the path in a block, or the
      value written anew. */
  function Change(text: string, n: Node, rest: seq<string>, value: string): string
    requires In(text, n) && (if rest != [] then n.Block? else n.Pair?)
  {
    if rest != [] then
      Insert(text, n.afterBrace, Written(LaidNew(rest, IndentBefore(text, n.at) + "\t", Escape(value))))
    else Replaced(text, n, value)
  }

  function ChangeEdit(text: string, n: Node, rest: seq<string>, value: string): Edit
    requires In(text, n) && (if rest != [] then n.Block? else n.Pair?)
  {
    if rest != [] then
      var l := LaidNew(rest, IndentBefore(text, n.at) + "\t", Escape(value));
      Edit(n.afterBrace, n.afterBrace + |Written(l)|, [Placed(l, n.afterBrace)], "")
    else Edit(n.valueEnd, n.valueStart + |Quote(value)|, [], Escape(value))
  }

  lemma InsertChange(text: string, n: Node, rest: seq<string>, value: string)
    requires Known(text, n) && n.Block? && PlainPath(rest) && AllBlank(IndentBefore(text, n.at))
    ensures In(text, n)
    ensures Run(INIT, Change(text, n, rest, value)) == EditState(Run(INIT, text), ChangeEdit(text, n, rest, value))
  {
    var l := InsertedIs(text, n, rest, value);
    InsertLaid(text, n, l);
  }

  lemma InsertedIs(text: string, n: Node, rest: seq<string>, value: string) returns (l: Laid)
    requires In(text, n) && n.Block? && PlainPath(rest) && AllBlank(IndentBefore(text, n.at))
    ensures WellLaid(l) && Change(text, n, rest, value) == Insert(text, n.afterBrace, Written(l))
    ensures ChangeEdit(text, n, rest, value)
      == Edit(n.afterBrace, n.afterBrace + |Written(l)|, [Placed(l, n.afterBrace)], "")
  {
    var indent := IndentBefore(text, n.at) + "\t";
    EscapeText(value);
    LaidNewMeans(rest, indent, Escape(value));
    l := LaidNew(rest, indent, Escape(value));
  }

  lemma InsertLaid(text: string, n: Node, l: Laid)
    requires Known(text, n) && n.Block? && WellLaid(l)
    ensures Run(INIT, Insert(text, n.afterBrace, Written(l)))
      == EditState(Run(INIT, text), Edit(n.afterBrace, n.afterBrace + |Written(l)|, [Placed(l, n.afterBrace)], ""))
  {
    var s := Read(INIT, text, n.afterBrace);
    RunWritten(s, l);
    assert [] + [Placed(l, s.pos)] == [Placed(l, s.pos)];
    InsertReads(text, n.afterBrace, Written(l), [Placed(l, n.afterBrace)]);
  }

  lemma ReplaceChange(text: string, n: Node, value: string)
    requires Known(text, n) && n.Pair?
    ensures Run(INIT, Change(text, n, [], value)) == EditState(Run(INIT, text), ChangeEdit(text, n, [], value))
  {
    EscapeText(value);
    ReplacedIs(text, n, value);
    ReplaceRaw(text, n, Escape(value), Change(text, n, [], value));
  }

  lemma ReplacedIs(text: string, n: Node, value: string)
    requires In(text, n) && n.Pair?
    ensures Change(text, n, [], value) == text[..n.valueStart] + Raw(Escape(value)) + text[n.valueEnd..]
    ensures ChangeEdit(text, n, [], value) == Edit(n.valueEnd, n.valueStart + |Raw(Escape(value))|, [], Escape(value))
  {
    assert Quote(value) == Raw(Escape(value));
  }

  lemma ReplaceRaw(text: string, n: Node, v: string, w: string)
    requires Known(text, n) && n.Pair? && IsText(v) && w == text[..n.valueStart] + Raw(v) + text[n.valueEnd..]
    ensures Run(INIT, w) == EditState(Run(INIT, text), Edit(n.valueEnd, n.valueStart + |Raw(v)|, [], v))
  {
    RawPairs(text, n, v);
    ReplaceReads(text, n.valueStart, n.valueEnd, Raw(v), v);
  }

  /** The new value read from where the old one starts. */
  lemma RawPairs(text: string, n: Node, v: string)
    requires Known(text, n) && n.Pair? && IsText(v)
    ensures var s := Read(INIT, text, n.valueStart); Run(s, Raw(v)) == Paired(s, n.valueStart + |Raw(v)|, v)
  {
    RawPairsAt(Read(INIT, text, n.valueStart), v);
  }

  lemma RawPairsAt(s: State, v: string)
    requires Named(s, s.pending, s.pendingAt) && IsText(v)
    ensures Run(s, Raw(v)) == Paired(s, s.pos + |Raw(v)|, v)
  {
    RunRaw(s, v);
  }

  /** The edit in a block is first on its line, and of the kind the way needs. */
  predicate Sited(text: string, n: Node, rest: seq<string>)
    requires In(text, n)
  {
    rest != [] ==> AllBlank(IndentBefore(text, n.at))
  }

  lemma {:induction false} StopKnown(text: string, ns: seq<Node>, path: seq<string>)
    requires path != [] && Find(Keys(ns), path[0]) < |ns| && (forall n :: n in ns ==> Known(text, n))
    requires Fits(EraseAll(ns), path)
    ensures var (n, rest) := Stop(ns, path);
      Known(text, n) && (if rest != [] then n.Block? else n.Pair?) && exists k :: 0 < k <= |path| && rest == path[k..]
    decreases |path|
  {
    KeysErase(ns);
    var n := ns[Find(Keys(ns), path[0])];
    assert n in ns;
    if |path| == 1 || Find(Keys(Children(n)), path[1]) == |Children(n)| {
      assert Stop(ns, path).1 == path[1..];
    } else {
      assert n.Block?;
      assert forall k :: k in n.kids ==> Known(text, k);
      StopKnown(text, n.kids, path[1..]);
      var rest := Stop(ns, path).1;
      var k :| 0 < k <= |path[1..]| && rest == path[1..][k..];
      assert rest == path[k + 1..];
    }
  }

  /** The edited text reads as the edited tree: the setting added or replaced, and every
      other key, value and order kept. */
  lemma ChangeMeans(text: string, ns: seq<Node>, path: seq<string>, value: string)
    requires Parse(text) == Some(ns) && PlainPath(path) && Find(Keys(ns), path[0]) < |ns| && Fits(EraseAll(ns), path)
    requires var (n, rest) := Stop(ns, path); In(text, n) && Sited(text, n, rest)
    ensures var (n, rest) := Stop(ns, path);
      && In(text, n) && (if rest != [] then n.Block? else n.Pair?)
      && Parse(Change(text, n, rest, value)) == Some(EditAll(ns, ChangeEdit(text, n, rest, value)))
      && EraseAll(EditAll(ns, ChangeEdit(text, n, rest, value))) == With(EraseAll(ns), path, Escape(value))
  {
    SpansAreExact(text, ns);
    StopKnown(text, ns, path);
    var (n, rest) := Stop(ns, path);
    ChangeReads(text, ns, n, rest, value);
    ChangeAimed(text, n, rest, value);
    AimedMeans(ns, path, ChangeEdit(text, n, rest, value), Escape(value));
  }

  lemma ChangeReads(text: string, ns: seq<Node>, n: Node, rest: seq<string>, value: string)
    requires Parse(text) == Some(ns) && Known(text, n) && In(text, n) && Sited(text, n, rest)
    requires if rest != [] then n.Block? && PlainPath(rest) else n.Pair?
    ensures Parse(Change(text, n, rest, value)) == Some(EditAll(ns, ChangeEdit(text, n, rest, value)))
  {
    if rest != [] {
      InsertChange(text, n, rest, value);
    } else {
      ReplaceChange(text, n, value);
    }
    EditedParse(Run(INIT, text), Run(INIT, Change(text, n, rest, value)), ChangeEdit(text, n, rest, value));
  }

  lemma EditedParse(s: State, r: State, e: Edit)
    requires e.from <= s.pos && r == EditState(s, e)
    ensures r.mode == s.mode && r.stack.Root? == s.stack.Root?
    ensures (s.stack.Root? ==> r.stack.kids == EditAll(s.stack.kids, e))
  {
  }

  lemma ChangeAimed(text: string, n: Node, rest: seq<string>, value: string)
    requires In(text, n) && Sited(text, n, rest) && (rest != [] ==> PlainPath(rest))
    requires (if rest != [] then n.Block? else n.Pair?)
    ensures Aimed(n, rest, ChangeEdit(text, n, rest, value), Escape(value))
  {
    if rest != [] {
      EscapeText(value);
      var l := LaidNew(rest, IndentBefore(text, n.at) + "\t", Escape(value));
      LaidNewMeans(rest, IndentBefore(text, n.at) + "\t", Escape(value));
      PlacedMeans(l, n.afterBrace);
    }
  }
}
