/** What SetCompatTool and SetScreensaverOff write where the block they write into is not
    first on its line: everything before its key is taken for indentation, and stands before
    each line they add. */
module SteamLines {
  import opened Wrappers
  import opened Vdf
  import opened VdfEdits
  import opened VdfPrint
  import opened Text
  import opened SteamPlay
  import opened SteamTrees
  import opened SteamSettings
  import opened SteamProofs
  import opened SteamRuns

  // ---- Whole nodes before the key

  lemma LineReads(s: State, ls: seq<Laid>, last: Laid) returns (ns: seq<Node>)
    requires Ready(s) && AllWellLaid(ls) && WellLaid(last)
    ensures var what := "\n" + (AllWritten(ls) + Written(last));
      Run(s, what) == Grown(s, ns, |what|) && EraseAll(ns) == AllMeant(ls) + [Meant(last)]
  {
    AllTwo(ls, last);
    BlankGap("\n");
    RunGap(s, "\n");
    var u := s.(pos := s.pos + 1);
    RunAllWritten(u, ls + [last]);
    RunJoin(s, "\n", AllWritten(ls + [last]));
    AllPlacedMean(ls + [last], u.pos);
    ns := AllPlaced(ls + [last], u.pos);
  }

  lemma LineGlue(w: string, gap: string, k: string, v: string)
    ensures "\n" + (w + gap + "\t") + k + "\t\t" + v == "\n" + (w + (gap + "\t" + k + "\t\t" + v))
  {
  }

  lemma LastWell(gap: string, key: string, value: string) returns (last: Laid)
    requires AllBlank(gap) && PlainKey(key) && IsText(value)
    ensures WellLaid(last) && last == LaidPair(gap + "\t", key, "\t\t", value)
  {
    last := LaidPair(gap + "\t", key, "\t\t", value);
    BlankGap(gap + "\t");
    BlankGap("\t\t");
    PlainText(key);
  }

  lemma InsertedInto(text: string, ns: seq<Node>, n: Node, what: string, added: seq<Node>) returns (e: Edit)
    requires Parse(text) == Some(ns) && Known(text, n) && n.Block?
    requires var s := Read(INIT, text, n.afterBrace); Run(s, what) == Grown(s, added, |what|)
    ensures e.from == n.afterBrace && e.added == added
    ensures Parse(Insert(text, n.afterBrace, what)) == Some(EditAll(ns, e))
  {
    assert [] + added == added;
    InsertReads(text, n.afterBrace, what, added);
    e := Edit(n.afterBrace, n.afterBrace + |what|, added, "");
    EditedParse(Run(INIT, text), Run(INIT, Insert(text, n.afterBrace, what)), e);
  }

  /** What stands before the key on its line, then the line itself. */
  function Copied(ls: seq<Laid>, gap: string, key: string, value: string): string
  {
    "\n" + (AllWritten(ls) + gap + "\t") + Raw(key) + "\t\t" + Raw(value)
  }

  lemma CopiedInto(text: string, ns: seq<Node>, n: Node, ls: seq<Laid>, gap: string, key: string, value: string)
    returns (e: Edit)
    requires Parse(text) == Some(ns) && Known(text, n) && n.Block?
    requires AllWellLaid(ls) && AllBlank(gap) && PlainKey(key) && IsText(value)
    ensures e.from == n.afterBrace && EraseAll(e.added) == AllMeant(ls) + [Leaf(key, value)]
    ensures Parse(Insert(text, n.afterBrace, Copied(ls, gap, key, value))) == Some(EditAll(ns, e))
  {
    var last := LastWell(gap, key, value);
    LineGlue(AllWritten(ls), gap, Raw(key), Raw(value));
    var added := LineReads(Read(INIT, text, n.afterBrace), ls, last);
    e := InsertedInto(text, ns, n, Copied(ls, gap, key, value), added);
  }

  /** What SetScreensaverOff writes when only the last line is missing. */
  lemma LineIs(text: string, ns: seq<Node>, n: Node)
    requires !IsEmpty(text) && Parse(text) == Some(ns) && Has(EraseAll(ns), [STORE]) && Fits(EraseAll(ns), SCREEN)
    requires Find(Keys(ns), SCREEN[0]) < |ns| && Stop(ns, SCREEN) == (n, [WHILE_IN_GAME])
    ensures Known(text, n) && n.Block?
    ensures SetScreensaverOff(text).data
      == Insert(text, n.afterBrace, "\n" + (IndentBefore(text, n.at) + "\t") + Raw(WHILE_IN_GAME) + "\t\t" + Raw("0"))
  {
    ScreenIs(text, ns);
    SpansAreExact(text, ns);
    StopKnown(text, ns, SCREEN);
    ZeroIsPlain();
  }

  /** Everything before a block's key on its line counts as its indentation: what can be
      read of it is written again, inside the block, before the new line. */
  lemma LineCopied(text: string, ns: seq<Node>, n: Node, ls: seq<Laid>, gap: string) returns (e: Edit)
    requires !IsEmpty(text) && Parse(text) == Some(ns) && Has(EraseAll(ns), [STORE]) && Fits(EraseAll(ns), SCREEN)
    requires Find(Keys(ns), SCREEN[0]) < |ns| && Stop(ns, SCREEN) == (n, [WHILE_IN_GAME]) && n.at <= |text|
    requires IndentBefore(text, n.at) == AllWritten(ls) + gap && AllWellLaid(ls) && AllBlank(gap)
    ensures n.Block? && e.from == n.afterBrace && EraseAll(e.added) == AllMeant(ls) + [Leaf(WHILE_IN_GAME, "0")]
    ensures Parse(SetScreensaverOff(text).data) == Some(EditAll(ns, e))
  {
    LineIs(text, ns, n);
    OurKeysPlain();
    assert PlainKey(SCREEN[3]);
    PlainText("0");
    e := CopiedInto(text, ns, n, ls, gap, WHILE_IN_GAME, "0");
  }

  // ---- Braces before the key

  function NextMode(m: Mode, c: char): Mode
  {
    match m
    case Plain => if c == '/' then Slash else if c == '"' then Quoted else Plain
    case Slash => Comment
    case Comment => if c == '\n' then Plain else Comment
    case Quoted => if c == '"' then Plain else if c == '\\' then Escaped else Quoted
    case Escaped => Quoted
    case Failed => Failed
  }

  /** Whether a text that begins in one mode of the reader ends in another, and by how many
      blocks deeper, if it can be read at all. */
  function ModeAfter(m: Mode, t: string): Mode
  {
    if t == "" then m else NextMode(ModeAfter(m, t[..|t| - 1]), t[|t| - 1])
  }

  function RiseBy(m: Mode, c: char): int
  {
    if m != Plain then 0 else if c == '{' then 1 else if c == '}' then -1 else 0
  }

  function Rise(m: Mode, t: string): int
  {
    if t == "" then 0 else Rise(m, t[..|t| - 1]) + RiseBy(ModeAfter(m, t[..|t| - 1]), t[|t| - 1])
  }

  function Depth(st: Stack): nat
  {
    if st.Root? then 0 else 1 + Depth(st.under)
  }

  lemma StepRise(s: State, c: char)
    ensures var r := Step(s, c);
      r.mode != Failed ==>
        s.mode != Failed && r.mode == NextMode(s.mode, c) && Depth(r.stack) == Depth(s.stack) + RiseBy(s.mode, c)
  {
  }

  lemma {:induction false} RunRise(s: State, t: string)
    requires Run(s, t).mode != Failed
    ensures Run(s, t).mode == ModeAfter(s.mode, t) && Depth(Run(s, t).stack) == Depth(s.stack) + Rise(s.mode, t)
    decreases |t|
  {
    if t != "" {
      var n := |t| - 1;
      assert t == t[..n] + [t[n]];
      RunLast(s, t[..n], t[n]);
      StepRise(Run(s, t[..n]), t[n]);
      RunRise(s, t[..n]);
    }
  }

  lemma {:induction false} RiseJoin(m: Mode, a: string, b: string)
    ensures ModeAfter(m, a + b) == ModeAfter(ModeAfter(m, a), b)
    ensures Rise(m, a + b) == Rise(m, a) + Rise(ModeAfter(m, a), b)
    decreases |b|
  {
    if b == "" {
      assert a + b == a;
    } else {
      var n := |b| - 1;
      assert (a + b)[..|a + b| - 1] == a + b[..n];
      RiseJoin(m, a, b[..n]);
    }
  }

  /** Read from between two tokens the text ends between two tokens, so many blocks deeper. */
  predicate Level(t: string, rise: int)
  {
    ModeAfter(Plain, t) == Plain && Rise(Plain, t) == rise
  }

  lemma LevelJoin(a: string, x: int, b: string, y: int)
    requires Level(a, x) && Level(b, y)
    ensures Level(a + b, x + y)
  {
    RiseJoin(Plain, a, b);
  }

  lemma LevelOne(c: char)
    requires c != '/' && c != '"'
    ensures Level([c], RiseBy(Plain, c))
  {
    assert [c][..0] == "";
    assert ModeAfter(Plain, "") == Plain && Rise(Plain, "") == 0;
  }

  lemma LevelRaw(v: string)
    requires IsText(v)
    ensures Level(Raw(v), 0)
  {
    RunRaw(INIT, v);
    RunRise(INIT, Raw(v));
  }

  lemma LevelTabs()
    ensures Level("\t\t", 0)
  {
    LevelOne('\t');
    LevelJoin("\t", 0, "\t", 0);
    assert "\t" + "\t" == "\t\t";
  }

  /** A line's indentation. */
  lemma LevelLine(indent: string, k: int)
    requires Level(indent, k)
    ensures Level("\n" + indent, k) && Level(indent + "\t", k)
  {
    LevelOne('\n');
    LevelOne('\t');
    LevelJoin("\n", 0, indent, k);
    LevelJoin(indent, k, "\t", 0);
  }

  lemma LevelPair(before: string, k: int, key: string, value: string)
    requires Level(before, k) && IsText(key) && IsText(value)
    ensures Level(Written(LaidPair(before, key, "\t\t", value)), k)
  {
    LevelRaw(key);
    LevelRaw(value);
    LevelTabs();
    LevelJoin(before, k, Raw(key), 0);
    LevelJoin(before + Raw(key), k, "\t\t", 0);
    LevelJoin(before + Raw(key) + "\t\t", k, Raw(value), 0);
  }

  lemma LevelBlock(before: string, k: int, key: string, kids: seq<Laid>, r: int)
    requires Level(before, k) && IsText(key) && Level(AllWritten(kids), r)
    ensures Level(Written(LaidBlock(before, key, before, kids, before)), 3 * k + r)
  {
    LevelRaw(key);
    LevelOne('{');
    LevelOne('}');
    LevelJoin(before, k, Raw(key), 0);
    LevelJoin(before + Raw(key), k, before, k);
    var head := before + Raw(key) + before;
    LevelJoin(head, 2 * k, "{", 1);
    LevelJoin(head + "{", 2 * k + 1, AllWritten(kids), r);
    LevelJoin(head + "{" + AllWritten(kids), 2 * k + 1 + r, before, k);
    LevelJoin(head + "{" + AllWritten(kids) + before, 3 * k + 1 + r, "}", -1);
  }

  lemma LastWritten(ls: seq<Laid>, l: Laid)
    ensures AllWritten(ls + [l]) == AllWritten(ls) + Written(l)
  {
    assert (ls + [l])[..|ls|] == ls;
  }

  lemma {:induction false} AllWrittenJoin(a: seq<Laid>, b: seq<Laid>)
    ensures AllWritten(a + b) == AllWritten(a) + AllWritten(b)
    decreases |b|
  {
    if b == [] {
      assert a + b == a;
    } else {
      var front, l := b[..|b| - 1], b[|b| - 1];
      assert b == front + [l] && a + b == (a + front) + [l];
      AllWrittenJoin(a, front);
      LastWritten(front, l);
      LastWritten(a + front, l);
    }
  }

  lemma LevelPlain(before: string, k: int, key: string, value: string)
    requires Level(before, k) && PlainKey(key) && (value == "" || PlainKey(value))
    ensures Level(Written(LaidPair(before, key, "\t\t", value)), k)
  {
    PlainText(key);
    PlainText(value);
    LevelPair(before, k, key, value);
  }

  lemma OneWritten(l: Laid)
    ensures AllWritten([l]) == Written(l)
  {
    assert [l][..0] == [];
    assert "" + Written(l) == Written(l);
  }

  lemma LevelTwo(a: Laid, x: int, b: Laid, y: int)
    requires Level(Written(a), x) && Level(Written(b), y)
    ensures Level(AllWritten([a, b]), x + y)
  {
    AllWrittenJoin([a], [b]);
    OneWritten(a);
    OneWritten(b);
    assert [a] + [b] == [a, b];
    LevelJoin(Written(a), x, Written(b), y);
  }

  lemma LevelBeside(key: string, indent: string, k: int) returns (r: int)
    requires Level(indent, k)
    ensures Level(AllWritten(LaidBeside(key, indent)), r) && (r == 0 || r == 2 * k)
  {
    if key == GLOBAL {
      LevelLine(indent, k);
      LevelPlain("\n" + indent, k, "config", "");
      LevelPlain("\n" + indent, k, "priority", "75");
      var ls := LaidBeside(key, indent);
      LevelTwo(ls[0], k, ls[1], k);
      assert ls == [ls[0], ls[1]];
      r := 2 * k;
    } else {
      r := 0;
    }
  }

  lemma LevelKids(inner: Laid, x: int, beside: seq<Laid>, y: int)
    requires Level(Written(inner), x) && Level(AllWritten(beside), y)
    ensures Level(AllWritten([inner] + beside), x + y)
  {
    AllWrittenJoin([inner], beside);
    OneWritten(inner);
    LevelJoin(Written(inner), x, AllWritten(beside), y);
  }

  /** What is written goes the way of its indentation, as often as it has lines. */
  lemma {:induction false} LevelNew(path: seq<string>, indent: string, k: int, value: string) returns (r: int)
    requires PlainPath(path) && IsText(value) && Level(indent, k)
    ensures Level(Written(LaidNew(path, indent, value)), r)
    ensures (k > 0 ==> r > 0) && (k < 0 ==> r < 0)
    decreases |path|
  {
    LevelLine(indent, k);
    PlainText(path[0]);
    if |path| == 1 {
      LevelPair("\n" + indent, k, path[0], value);
      r := k;
    } else {
      var x := LevelNew(path[1..], indent + "\t", k, value);
      var y := LevelBeside(path[0], indent + "\t", k);
      LevelKids(LaidNew(path[1..], indent + "\t", value), x, LaidBeside(path[0], indent + "\t"), y);
      LevelBlock("\n" + indent, k, path[0],
                 [LaidNew(path[1..], indent + "\t", value)] + LaidBeside(path[0], indent + "\t"), x + y);
      r := 3 * k + (x + y);
    }
  }

  /** Whatever is put into a text that reads, wherever a token may stand: it reads no longer
      if the braces of what is put in do not balance. */
  lemma UnbalancedIsLost(text: string, at: nat, what: string, r: int)
    requires Parse(text).Some? && at <= |text| && Read(INIT, text, at).mode == Plain && Level(what, r) && r != 0
    ensures Parse(Insert(text, at, what)) == None
  {
    var a, b := text[..at], text[at..];
    assert a + b == text && Insert(text, at, what) == (a + what) + b;
    if Parse(Insert(text, at, what)).Some? {
      ReadPrefix(INIT, a, b, at);
      RunRise(INIT, a + b);
      RunRise(INIT, (a + what) + b);
      RunRise(INIT, a) by {
        RunJoin(INIT, a, b);
      }
      RiseJoin(Plain, a, b);
      RiseJoin(Plain, a + what, b);
      RiseJoin(Plain, a, what);
    }
  }

  lemma ChangeIsLost(text: string, n: Node, rest: seq<string>, value: string, k: int)
    requires Parse(text).Some? && Known(text, n) && n.Block? && PlainPath(rest) && In(text, n)
    requires Level(IndentBefore(text, n.at), k) && k != 0
    ensures Parse(Change(text, n, rest, value)) == None
  {
    var indent := IndentBefore(text, n.at);
    LevelLine(indent, k);
    EscapeText(value);
    var r := LevelNew(rest, indent + "\t", k, Escape(value));
    UnbalancedIsLost(text, n.afterBrace, Written(LaidNew(rest, indent + "\t", Escape(value))), r);
  }

  /** The setting is missing, and on the line of the block it goes into more blocks are
      opened than closed before that block's key, or fewer. */
  predicate BracesBefore(text: string, ns: seq<Node>, path: seq<string>, k: int)
    requires path != [] && Find(Keys(ns), path[0]) < |ns|
  {
    var (n, rest) := Stop(ns, path);
    rest != [] && n.at <= |text| && Level(IndentBefore(text, n.at), k) && k != 0
  }

  lemma ExpectedIsLost(text: string, ns: seq<Node>, path: seq<string>, value: string, theirs: bool, r: Outcome, k: int)
    requires Parse(text) == Some(ns) && PlainPath(path) && Find(Keys(ns), path[0]) < |ns| && Fits(EraseAll(ns), path)
    requires BracesBefore(text, ns, path, k) && AsExpected(text, Stop(ns, path), value, theirs, r)
    ensures r.changed && !r.failed && Parse(r.data) == None
  {
    SpansAreExact(text, ns);
    StopKnown(text, ns, path);
    var (n, rest) := Stop(ns, path);
    ChangeIsLost(text, n, rest, value, k);
  }

  /** Then what SetCompatTool writes cannot be read, and it says that it is done. */
  lemma CompatIsLost(text: string, ns: seq<Node>, tool: string, k: int)
    requires !IsEmpty(text) && Parse(text) == Some(ns) && Has(EraseAll(ns), STEAM) && Fits(EraseAll(ns), COMPAT)
    requires Find(Keys(ns), COMPAT[0]) < |ns| ==> BracesBefore(text, ns, COMPAT, k)
    ensures var r := SetCompatTool(text, tool); r.changed && !r.failed && Parse(r.data) == None
  {
    CompatIs(text, ns, tool);
    OurKeysPlain();
    ExpectedIsLost(text, ns, COMPAT, tool, true, SetCompatTool(text, tool), k);
  }

  /** And what SetScreensaverOff writes likewise. */
  lemma ScreenIsLost(text: string, ns: seq<Node>, k: int)
    requires !IsEmpty(text) && Parse(text) == Some(ns) && Has(EraseAll(ns), [STORE]) && Fits(EraseAll(ns), SCREEN)
    requires Find(Keys(ns), SCREEN[0]) < |ns| ==> BracesBefore(text, ns, SCREEN, k)
    ensures var r := SetScreensaverOff(text); r.changed && !r.failed && Parse(r.data) == None
  {
    ScreenIs(text, ns);
    OurKeysPlain();
    ExpectedIsLost(text, ns, SCREEN, "0", false, SetScreensaverOff(text), k);
  }

  // ---- A file on one line

  lemma {:induction false} OneLineStart(text: string, offset: nat)
    requires offset <= |text| && forall i :: 0 <= i < offset ==> text[i] != '\n'
    ensures LineStart(text, offset) == 0
  {
    if offset > 0 {
      OneLineStart(text, offset - 1);
    }
  }

  function Bare(key: string, inside: string): string
  {
    Raw(key) + "{" + inside + "}"
  }

  /** A block with an empty one in it, on one line. */
  function OneLine(a: string, b: string): string
  {
    Bare(a, Bare(b, ""))
  }

  lemma BareWritten(key: string, kids: seq<Laid>)
    ensures Written(LaidBlock("", key, "", kids, "")) == Bare(key, AllWritten(kids))
  {
    assert "" + Raw(key) + "" == Raw(key);
    assert Raw(key) + "{" + AllWritten(kids) + "" == Raw(key) + "{" + AllWritten(kids);
  }

  lemma OneLineReads(a: string, b: string) returns (ns: seq<Node>)
    requires PlainKey(a) && PlainKey(b)
    ensures Parse(OneLine(a, b)) == Some(ns) && |ns| == 1 && ns[0].Block? && ns[0].key == a
    ensures |ns[0].kids| == 1 && ns[0].kids[0].Block? && ns[0].kids[0].key == b && ns[0].kids[0].kids == []
    ensures ns[0].kids[0].at == |Raw(a) + "{"|
  {
    var inner := LaidBlock("", b, "", [], "");
    var l := LaidBlock("", a, "", [inner], "");
    BareWritten(b, []);
    BareWritten(a, [inner]);
    PlainText(a);
    PlainText(b);
    OneWritten(inner);
    OneWritten(l);
    OnePlaced(inner, |Raw(a) + "{"|);
    OnePlaced(l, 0);
    assert AllWritten([l]) + "" == AllWritten([l]);
    ParseWritten([l], "");
    ns := AllPlaced([l], 0);
  }

  lemma OnePlaced(l: Laid, p: nat)
    ensures AllPlaced([l], p) == [Placed(l, p)]
    ensures AllWellLaid([l]) <==> WellLaid(l)
  {
    assert [l][..0] == [];
    assert AllWritten([l][..0]) == "" && AllPlaced([l][..0], p) == [] && AllWellLaid([l][..0]);
  }

  lemma BareIndent(key: string, inside: string)
    requires PlainKey(key) && forall i :: 0 <= i < |key| ==> key[i] != '\n'
    ensures var head := Raw(key) + "{";
      |head| <= |Bare(key, inside)| && IndentBefore(Bare(key, inside), |head|) == head && Level(head, 1)
  {
    var head, text := Raw(key) + "{", Bare(key, inside);
    assert text[..|head|] == head;
    assert forall i :: 0 <= i < |head| ==> text[i] == head[i] != '\n';
    OneLineStart(text, |head|);
    PlainText(key);
    LevelRaw(key);
    LevelOne('{');
    LevelJoin(Raw(key), 0, "{", 1);
  }

  /** A file that reads, into which SetScreensaverOff writes what nothing can read: a store
      with an empty customization, on one line. */
  lemma OneLineIsLost() returns (text: string)
    ensures text == OneLine(STORE, CUSTOMIZATION)
    ensures var r := SetScreensaverOff(text); Parse(text).Some? && r.changed && !r.failed && Parse(r.data) == None
  {
    OurKeysPlain();
    assert PlainKey(SCREEN[0]) && PlainKey(SCREEN[1]);
    text := OneLine(STORE, CUSTOMIZATION);
    var ns := OneLineReads(STORE, CUSTOMIZATION);
    BareIndent(STORE, Bare(CUSTOMIZATION, ""));
    OneBlockIsLost(text, ns, Raw(STORE) + "{");
  }

  lemma OneBlockIsLost(text: string, ns: seq<Node>, head: string)
    requires Parse(text) == Some(ns) && |ns| == 1 && ns[0].Block? && ns[0].key == STORE
    requires |ns[0].kids| == 1 && ns[0].kids[0].Block? && ns[0].kids[0].key == CUSTOMIZATION && ns[0].kids[0].kids == []
    requires ns[0].kids[0].at == |head| <= |text| && IndentBefore(text, |head|) == head && Level(head, 1)
    ensures var r := SetScreensaverOff(text); r.changed && !r.failed && Parse(r.data) == None
  {
    OneBlockStops(ns);
    NotEmpty(text, ns);
    ScreenIsLost(text, ns, 1);
  }

  lemma OneBlockStops(ns: seq<Node>)
    requires |ns| == 1 && ns[0].Block? && |ns[0].kids| == 1 && ns[0].kids[0].Block? && ns[0].kids[0].kids == []
    requires ns[0].key == STORE && ns[0].kids[0].key == CUSTOMIZATION
    ensures Find(Keys(ns), SCREEN[0]) < |ns| && Stop(ns, SCREEN) == (ns[0].kids[0], [SCREENSAVER, WHILE_IN_GAME])
    ensures Has(EraseAll(ns), [STORE]) && Fits(EraseAll(ns), SCREEN)
  {
    KeysErase(ns);
    KeysErase(ns[0].kids);
    assert EqualFold(STORE, STORE) && EqualFold(CUSTOMIZATION, CUSTOMIZATION);
    assert SCREEN[1..] == [CUSTOMIZATION, SCREENSAVER, WHILE_IN_GAME];
    assert SCREEN[1..][1..] == [SCREENSAVER, WHILE_IN_GAME];
  }
}
