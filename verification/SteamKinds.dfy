/** What SetCompatTool does where a block is in its way that is none, or a value that is a
    block: it looks at no kind, and its text goes in at the top of the file. */
module SteamKinds {
  import opened Wrappers
  import opened Vdf
  import opened VdfPrint
  import opened Text
  import opened SteamPlay
  import opened SteamTrees
  import opened SteamSettings
  import opened SteamProofs
  import opened SteamRuns

  // ---- Two readings that differ at the top of the file only

  /** The same blocks are open and hold the same, but that at the top the one has `a` first
      and the other `b`. */
  ghost predicate Alike(x: Stack, y: Stack, a: seq<Node>, b: seq<Node>)
  {
    if x.Root? then
      && y.Root? && a <= x.kids && b <= y.kids && EraseAll(x.kids[|a|..]) == EraseAll(y.kids[|b|..])
    else
      && y.Open? && x.key == y.key && EraseAll(x.kids) == EraseAll(y.kids) && Alike(x.under, y.under, a, b)
  }

  ghost predicate AlikeState(s: State, r: State, a: seq<Node>, b: seq<Node>)
  {
    s.mode == r.mode && s.pending == r.pending && s.text == r.text && Alike(s.stack, r.stack, a, b)
  }

  lemma AlikeAppend(x: Stack, y: Stack, a: seq<Node>, b: seq<Node>, m: Node, n: Node)
    requires Alike(x, y, a, b) && Erase(m) == Erase(n)
    ensures Alike(x.Append(m), y.Append(n), a, b)
  {
    if x.Root? {
      assert (x.kids + [m])[|a|..] == x.kids[|a|..] + [m];
      assert (y.kids + [n])[|b|..] == y.kids[|b|..] + [n];
      EraseJoin(x.kids[|a|..], [m]);
      EraseJoin(y.kids[|b|..], [n]);
    } else {
      EraseJoin(x.kids, [m]);
      EraseJoin(y.kids, [n]);
    }
    assert EraseAll([m]) == [Erase(m)] == EraseAll([n]);
  }

  lemma AlikeEnd(s: State, r: State, a: seq<Node>, b: seq<Node>)
    requires AlikeState(s, r, a, b)
    ensures AlikeState(EndString(s), EndString(r), a, b)
  {
    if s.pending != "" {
      AlikeAppend(s.stack, r.stack, a, b, Pair(s.pending, s.pendingAt, s.start, s.pos + 1, s.text),
                  Pair(r.pending, r.pendingAt, r.start, r.pos + 1, r.text));
    }
  }

  lemma AlikeClose(x: Stack, y: Stack, a: seq<Node>, b: seq<Node>)
    requires Alike(x, y, a, b) && x.Open?
    ensures Alike(x.Close(), y.Close(), a, b)
  {
    AlikeAppend(x.under, y.under, a, b, Block(x.key, x.at, x.afterBrace, x.kids),
                Block(y.key, y.at, y.afterBrace, y.kids));
  }

  lemma AlikePlain(s: State, r: State, a: seq<Node>, b: seq<Node>, c: char)
    requires AlikeState(s, r, a, b)
    ensures AlikeState(StepPlain(s, c), StepPlain(r, c), a, b)
  {
    if c == '}' && s.stack.Open? {
      AlikeClose(s.stack, r.stack, a, b);
    }
  }

  lemma AlikeStep(s: State, r: State, a: seq<Node>, b: seq<Node>, c: char)
    requires AlikeState(s, r, a, b)
    ensures AlikeState(Step(s, c), Step(r, c), a, b)
  {
    match s.mode
    case Plain => AlikePlain(s, r, a, b, c);
    case Quoted =>
      if c == '"' {
        AlikeEnd(s, r, a, b);
      }
    case _ =>
  }

  lemma {:induction false} AlikeRead(s: State, r: State, a: seq<Node>, b: seq<Node>, t: string, i: nat)
    requires AlikeState(s, r, a, b) && i <= |t|
    ensures AlikeState(Read(s, t, i), Read(r, t, i), a, b)
  {
    if i > 0 {
      AlikeRead(s, r, a, b, t, i - 1);
      AlikeStep(Read(s, t, i - 1), Read(r, t, i - 1), a, b, t[i - 1]);
    }
  }

  /** A setting written at the top of the file stands first at the top of the tree. */
  lemma AtTheTop(text: string, ns: seq<Node>, l: Laid)
    requires Parse(text) == Some(ns) && WellLaid(l)
    ensures TreeOf(Written(l) + text) == Some([Meant(l)] + EraseAll(ns))
  {
    PlacedMeans(l, 0);
    var n := Placed(l, 0);
    TopReads(text, l);
    TopErases(Run(INIT, text), Run(INIT, Written(l) + text), n);
  }

  lemma TopReads(text: string, l: Laid)
    requires WellLaid(l)
    ensures AlikeState(Run(INIT, text), Run(INIT, Written(l) + text), [], [Placed(l, 0)])
  {
    var n := Placed(l, 0);
    RunWritten(INIT, l);
    var s := Run(INIT, Written(l));
    assert [] + [n] == [n];
    assert s.stack.kids == [n] && s.stack.kids[1..] == [];
    AlikeRead(INIT, s, [], [n], text, |text|);
    RunJoin(INIT, Written(l), text);
  }

  lemma TopErases(x: State, r: State, n: Node)
    requires AlikeState(x, r, [], [n]) && x.stack.Root?
    ensures r.stack.Root? && r.mode == x.mode && EraseAll(r.stack.kids) == [Erase(n)] + EraseAll(x.stack.kids)
  {
    var kids := r.stack.kids;
    assert kids == [n] + kids[1..] && x.stack.kids[0..] == x.stack.kids;
    EraseJoin([n], kids[1..]);
    assert EraseAll([n]) == [Erase(n)];
  }

  // ---- A file with one string too many at its top

  predicate AllPairs(ns: seq<Node>)
  {
    forall i :: 0 <= i < |ns| ==> ns[i].Pair?
  }

  /** Between the two readings every string that is a key for the one is a value for the
      other, as long as no block has begun. */
  ghost predicate Off(s: State, r: State)
  {
    && s.mode == r.mode && s.mode != Failed && s.text == r.text && (s.pending == "" <==> r.pending != "")
    && s.stack.Root? && r.stack.Root? && AllPairs(s.stack.kids) && AllPairs(r.stack.kids)
  }

  /** After an empty string they may agree again, on all but the pairs before it. */
  ghost predicate Back(s: State, r: State)
  {
    exists a: seq<Node>, b: seq<Node> :: AllPairs(a) && AllPairs(b) && AlikeState(s, r, a, b)
  }

  ghost predicate Shifted(s: State, r: State)
  {
    r.mode == Failed || s.mode == Failed || Off(s, r) || Back(s, r)
  }

  lemma OffEnd(s: State, r: State)
    requires Off(s, r)
    ensures Off(EndString(s), EndString(r)) || Back(EndString(s), EndString(r))
  {
    var x, y := EndString(s), EndString(r);
    assert AllPairs(x.stack.kids) && AllPairs(y.stack.kids);
    if s.text == "" {
      assert x.stack.kids[|x.stack.kids|..] == [] == y.stack.kids[|y.stack.kids|..];
      assert AlikeState(x, y, x.stack.kids, y.stack.kids);
    }
  }

  lemma ShiftedStep(s: State, r: State, c: char)
    requires Shifted(s, r)
    ensures Shifted(Step(s, c), Step(r, c))
  {
    if r.mode != Failed && s.mode != Failed {
      if Off(s, r) {
        if s.mode == Quoted && c == '"' {
          OffEnd(s, r);
        }
      } else {
        var a, b :| AllPairs(a) && AllPairs(b) && AlikeState(s, r, a, b);
        AlikeStep(s, r, a, b, c);
      }
    }
  }

  lemma {:induction false} ShiftedRead(s: State, r: State, t: string, i: nat)
    requires Shifted(s, r) && i <= |t|
    ensures Shifted(Read(s, t, i), Read(r, t, i))
  {
    if i > 0 {
      ShiftedRead(s, r, t, i - 1);
      ShiftedStep(Read(s, t, i - 1), Read(r, t, i - 1), t[i - 1]);
    }
  }

  /** What stands at the top of a tree beside values only is found, or not at all. */
  lemma {:induction false} BehindPairs(a: seq<Tree>, b: seq<Tree>, c: seq<Tree>, path: seq<string>)
    requires |path| > 1 && (forall i :: 0 <= i < |a| ==> a[i].Leaf?) && (forall i :: 0 <= i < |b| ==> b[i].Leaf?)
    requires Find(TreeKeys(a + c), path[0]) < |a + c| && (a + c)[Find(TreeKeys(a + c), path[0])].Branch?
    requires Lookup(a + c, path) == None
    ensures Lookup(b + c, path) == None
  {
    var i := Find(TreeKeys(a + c), path[0]);
    var j := Find(TreeKeys(b + c), path[0]);
    if j < |b + c| && j >= |b| {
      var k := i - |a|;
      assert TreeKeys(b + c)[|b| + k] == TreeKeys(a + c)[i];
      forall m | 0 <= m < |b| + k ensures !EqualFold(TreeKeys(b + c)[m], path[0]) {
        if m >= |b| {
          assert TreeKeys(b + c)[m] == TreeKeys(a + c)[m - |b| + |a|];
        }
      }
      FindAt(TreeKeys(b + c), path[0], |b| + k);
    }
  }

  lemma OneStringMore(text: string, ns: seq<Node>, value: string)
    requires Parse(text) == Some(ns) && value != "" && Has(EraseAll(ns), STEAM) && Lookup(EraseAll(ns), COMPAT) == None
    ensures var ts := TreeOf(Quote(value) + text); ts == None || Lookup(ts.value, COMPAT) == None
  {
    EscapeText(value);
    RunRaw(INIT, Escape(value));
    EscapeNotEmpty(value);
    var s := Run(INIT, Quote(value));
    assert Off(INIT, s);
    ShiftedRead(INIT, s, text, |text|);
    RunJoin(INIT, Quote(value), text);
    StoreIsBranch(EraseAll(ns));
    var r := Run(INIT, Quote(value) + text);
    if r.mode != Failed && r.stack.Root? {
      ShiftedFinds(Run(INIT, text), r, COMPAT);
    }
  }

  lemma EscapeNotEmpty(value: string)
    requires value != ""
    ensures Escape(value) != ""
  {
  }

  predicate LeadsOn(ts: seq<Tree>, path: seq<string>)
  {
    |path| > 1 && Find(TreeKeys(ts), path[0]) < |ts| && ts[Find(TreeKeys(ts), path[0])].Branch?
      && Lookup(ts, path) == None
  }

  lemma ShiftedFinds(x: State, r: State, path: seq<string>)
    requires Shifted(x, r) && x.mode != Failed && r.mode != Failed && x.stack.Root? && r.stack.Root?
    requires LeadsOn(EraseAll(x.stack.kids), path)
    ensures Lookup(EraseAll(r.stack.kids), path) == None
  {
    var ns, m := x.stack.kids, r.stack.kids;
    if Off(x, r) {
      AllLeaves(m, path);
    } else {
      var a, b :| AllPairs(a) && AllPairs(b) && AlikeState(x, r, a, b);
      EraseSplit(ns, a);
      EraseSplit(m, b);
      PairsAreLeaves(a);
      PairsAreLeaves(b);
      BehindPairs(EraseAll(a), EraseAll(b), EraseAll(ns[|a|..]), path);
    }
  }

  lemma PairsAreLeaves(a: seq<Node>)
    requires AllPairs(a)
    ensures forall i :: 0 <= i < |a| ==> EraseAll(a)[i].Leaf?
  {
    forall i | 0 <= i < |a| ensures EraseAll(a)[i].Leaf? {
      assert EraseAll(a)[i] == Erase(a[i]);
    }
  }

  lemma AllLeaves(a: seq<Node>, path: seq<string>)
    requires AllPairs(a) && |path| > 1
    ensures Lookup(EraseAll(a), path) == None
  {
    PairsAreLeaves(a);
  }

  lemma EraseSplit(ns: seq<Node>, a: seq<Node>)
    requires a <= ns
    ensures EraseAll(ns) == EraseAll(a) + EraseAll(ns[|a|..])
  {
    assert a + ns[|a|..] == ns;
    EraseJoin(a, ns[|a|..]);
  }

  lemma StoreIsBranch(ts: seq<Tree>)
    requires Has(ts, STEAM)
    requires Lookup(ts, COMPAT) == None
    ensures LeadsOn(ts, COMPAT)
  {
    assert COMPAT[0] == STORE == STEAM[0];
  }

  // ---- The call on such files

  /** Where the way ends there is a value with more of the path to go, or a block where the
      value should be. */
  predicate WrongKind(at: (Node, seq<string>))
  {
    if at.1 != [] then at.0.Pair? else at.0.Block?
  }

  lemma {:induction false} StopWrong(ns: seq<Node>, path: seq<string>)
    requires path != [] && Find(Keys(ns), path[0]) < |ns| && !Fits(EraseAll(ns), path)
    ensures WrongKind(Stop(ns, path))
    decreases |path|
  {
    KeysErase(ns);
    var n := ns[Find(Keys(ns), path[0])];
    if |path| > 1 && n.Block? {
      KeysErase(n.kids);
      StopWrong(n.kids, path[1..]);
    }
  }

  lemma {:induction false} WalkStopFrom(ns: seq<Node>, keys: seq<string>, rest: seq<string>)
    requires keys != [] && rest != [] && Walk(ns, keys).Some?
    ensures Find(Keys(ns), (keys + rest)[0]) < |ns|
    ensures Stop(ns, keys + rest) == StopFrom(Walk(ns, keys).value, rest)
    decreases |keys|
  {
    var n := ns[Find(Keys(ns), keys[0])];
    assert (keys + rest)[1..] == keys[1..] + rest;
    if |keys| > 1 {
      WalkStopFrom(Children(n), keys[1..], rest);
    }
  }

  /** The file with something put at its top, or the file as it was. */
  ghost predicate AtTop(text: string, tool: string, data: string)
  {
    || data == text
    || (tool != "" && data == Quote(tool) + text)
    || exists l: Laid :: WellLaid(l) && l.key in UNDER_STEAM && data == Written(l) + text
  }

  lemma InsertAtTop(text: string, tool: string, rest: seq<string>, indent: string, what: string)
    requires PlainPath(rest) && rest[0] in UNDER_STEAM && AllBlank(indent)
    requires what == Written(LaidNew(rest, indent + "\t", Escape(tool)))
    ensures AtTop(text, tool, Insert(text, 0, what))
  {
    EscapeText(tool);
    LaidNewMeans(rest, indent + "\t", Escape(tool));
    assert text[..0] + what + text[0..] == what + text;
    assert LaidNew(rest, indent + "\t", Escape(tool)).key == rest[0];
  }

  lemma RestsPlain()
    ensures PlainPath(UNDER_STEAM) && PlainPath(UNDER_MAPPING) && PlainPath([NAME])
  {
    OurKeysPlain();
    assert UNDER_STEAM[1..] == UNDER_MAPPING && UNDER_STEAM[2..] == [NAME];
  }

  lemma UnderGlobalAtTop(text: string, n: Node, tool: string)
    requires InAll(text, n)
    requires var (m, rest) := StopFrom(n, [NAME]);
      WrongKind((m, rest)) && (rest != [] ==> m.at <= |text| && AllBlank(IndentBefore(text, m.at)))
    ensures AtTop(text, tool, SetUnderGlobal(text, n, tool).data) && !SetUnderGlobal(text, n, tool).failed
  {
    RestsPlain();
    ChildIn(text, n, NAME);
    if Child(Children(n), NAME).None? {
      var indent := IndentBefore(text, n.at);
      NameLineIs(indent + "\t", tool);
      assert "\n" + indent + "\t" == "\n" + (indent + "\t");
      InsertAtTop(text, tool, [NAME], indent, Written(LaidNew([NAME], indent + "\t", Escape(tool))));
    }
  }

  lemma UnderMappingAtTop(text: string, n: Node, tool: string)
    requires InAll(text, n)
    requires var (m, rest) := StopFrom(n, UNDER_MAPPING);
      WrongKind((m, rest)) && (rest != [] ==> m.at <= |text| && AllBlank(IndentBefore(text, m.at)))
    ensures AtTop(text, tool, SetUnderMapping(text, n, tool).data) && !SetUnderMapping(text, n, tool).failed
  {
    RestsPlain();
    ChildIn(text, n, GLOBAL);
    var c := Child(Children(n), GLOBAL);
    if c.None? {
      var indent := IndentBefore(text, n.at);
      GlobalBlockIs(indent + "\t", tool);
      InsertAtTop(text, tool, UNDER_MAPPING, indent, GlobalBlock(indent + "\t", tool));
    } else {
      assert UNDER_MAPPING[1..] == [NAME];
      UnderGlobalAtTop(text, c.value, tool);
    }
  }

  lemma UnderSteamAtTop(text: string, n: Node, tool: string)
    requires InAll(text, n)
    requires var (m, rest) := StopFrom(n, UNDER_STEAM);
      WrongKind((m, rest)) && (rest != [] ==> m.at <= |text| && AllBlank(IndentBefore(text, m.at)))
    ensures AtTop(text, tool, SetUnderSteam(text, n, tool).data) && !SetUnderSteam(text, n, tool).failed
  {
    RestsPlain();
    ChildIn(text, n, MAPPING);
    var c := Child(Children(n), MAPPING);
    if c.None? {
      var indent := IndentBefore(text, n.at);
      MappingBlockIs(indent + "\t", tool);
      InsertAtTop(text, tool, UNDER_STEAM, indent, MappingBlock(indent + "\t", tool));
    } else {
      assert UNDER_STEAM[1..] == UNDER_MAPPING;
      UnderMappingAtTop(text, c.value, tool);
    }
  }

  lemma KeysApart(key: string)
    requires key in UNDER_STEAM
    ensures !EqualFold(key, STORE)
  {
    assert |STORE| == 18 && |MAPPING| == 17 && |GLOBAL| == 1 && |NAME| == 4;
  }

  /** Text at the top of the file does not put the setting in place. */
  lemma AtTopSetsNothing(text: string, ns: seq<Node>, tool: string, data: string)
    requires Parse(text) == Some(ns) && Has(EraseAll(ns), STEAM) && Lookup(EraseAll(ns), COMPAT) == None
    requires AtTop(text, tool, data)
    ensures !Holds(data, COMPAT, tool, true)
  {
    if data != text {
      if tool != "" && data == Quote(tool) + text {
        OneStringMore(text, ns, tool);
      } else {
        var l :| WellLaid(l) && l.key in UNDER_STEAM && data == Written(l) + text;
        AtTheTop(text, ns, l);
        KeysApart(l.key);
        assert COMPAT[0] == STORE;
        NotFirst(Meant(l), EraseAll(ns), COMPAT);
      }
    }
  }

  lemma {:induction false} WrongIsNothing(ts: seq<Tree>, path: seq<string>)
    requires path != [] && !Fits(ts, path)
    ensures Lookup(ts, path) == None
    decreases |path|
  {
    var i := Find(TreeKeys(ts), path[0]);
    if |path| > 1 && ts[i].Branch? {
      WrongIsNothing(ts[i].kids, path[1..]);
    }
  }

  /** Where something is of the wrong kind the setting is not in place afterwards. */
  lemma WrongKindSetsNothing(text: string, ns: seq<Node>, tool: string)
    requires !IsEmpty(text) && Parse(text) == Some(ns) && Has(EraseAll(ns), STEAM) && !Fits(EraseAll(ns), COMPAT)
    requires Find(Keys(ns), COMPAT[0]) < |ns| ==> SitedAt(text, ns, COMPAT)
    ensures var r := SetCompatTool(text, tool); !r.failed && !Holds(r.data, COMPAT, tool, true)
  {
    WalkHas(ns, STEAM);
    WalkStopFrom(ns, STEAM, UNDER_STEAM);
    StopWrong(ns, COMPAT);
    WalkIn(text, ns, STEAM);
    UnderSteamAtTop(text, Walk(ns, STEAM).value, tool);
    WrongIsNothing(EraseAll(ns), COMPAT);
    AtTopSetsNothing(text, ns, tool, SetCompatTool(text, tool).data);
  }

  /** SetCompatTool puts the setting in place exactly when what there is of its way is of
      the right kind: blocks, and a value at its end.  It never says that it is not. */
  lemma CompatHoldsIff(text: string, ns: seq<Node>, tool: string)
    requires !IsEmpty(text) && Parse(text) == Some(ns) && Has(EraseAll(ns), STEAM)
    requires Find(Keys(ns), COMPAT[0]) < |ns| ==> SitedAt(text, ns, COMPAT)
    ensures var r := SetCompatTool(text, tool);
      !r.failed && (Holds(r.data, COMPAT, tool, true) <==> Fits(EraseAll(ns), COMPAT))
  {
    if Fits(EraseAll(ns), COMPAT) {
      RightKindSets(text, ns, tool);
    } else {
      WrongKindSetsNothing(text, ns, tool);
    }
  }

  lemma RightKindSets(text: string, ns: seq<Node>, tool: string)
    requires !IsEmpty(text) && Parse(text) == Some(ns) && Has(EraseAll(ns), STEAM) && Fits(EraseAll(ns), COMPAT)
    requires Find(Keys(ns), COMPAT[0]) < |ns| ==> SitedAt(text, ns, COMPAT)
    ensures var r := SetCompatTool(text, tool); !r.failed && Holds(r.data, COMPAT, tool, true)
  {
    CompatSetsOne(text, ns, tool);
    WithHas(EraseAll(ns), COMPAT, Escape(tool));
  }
}
