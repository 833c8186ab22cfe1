/** What the reader's offsets are worth: where a block was opened and where a value was
    read, and what the rest of the file then says when text is put there. */
module VdfEdits {
  import opened Wrappers
  import opened Vdf

  // ---- Where everything sits

  /** The offsets of a node in the order they were met: just past the key's first quote,
      just past the brace, just past the value's first quote, just past the value. */
  function Places(n: Node): seq<nat>
  {
    match n
    case Block(_, at, afterBrace, kids) => [at + 1, afterBrace] + PlacesAll(kids)
    case Pair(_, at, valueStart, valueEnd, _) => [at + 1, valueStart + 1, valueEnd]
  }

  function PlacesAll(ns: seq<Node>): seq<nat>
  {
    if ns == [] then [] else PlacesAll(ns[..|ns| - 1]) + Places(ns[|ns| - 1])
  }

  function StackPlaces(st: Stack): seq<nat>
  {
    match st
    case Root(kids) => PlacesAll(kids)
    case Open(_, at, afterBrace, kids, under) => StackPlaces(under) + ([at + 1, afterBrace] + PlacesAll(kids))
  }

  function StatePlaces(s: State): seq<nat>
  {
    StackPlaces(s.stack)
    + (if s.pending != "" then [s.pendingAt + 1] else [])
    + (if s.InString() then [s.start + 1] else [])
  }

  predicate Rising(p: seq<nat>)
  {
    forall i, j :: 0 <= i < j < |p| ==> p[i] < p[j]
  }

  predicate Below(p: seq<nat>, top: nat)
  {
    forall i :: 0 <= i < |p| ==> p[i] < top
  }

  /** No two things were ever met at one offset, and none ahead of the reader. */
  ghost predicate InOrder(s: State)
  {
    Rising(StatePlaces(s)) && Below(StatePlaces(s), s.pos + 1)
  }

  lemma PlacesOneMore(ns: seq<Node>, n: Node)
    ensures PlacesAll(ns + [n]) == PlacesAll(ns) + Places(n)
  {
    assert (ns + [n])[..|ns|] == ns;
  }

  lemma Regroup(a: seq<nat>, b: seq<nat>, c: seq<nat>, d: seq<nat>)
    ensures a + (b + (c + d)) == a + (b + c) + d
  {
  }

  lemma PlacesAppend(st: Stack, n: Node)
    ensures StackPlaces(st.Append(n)) == StackPlaces(st) + Places(n)
  {
    PlacesOneMore(st.kids, n);
    if st.Open? {
      Regroup(StackPlaces(st.under), [st.at + 1, st.afterBrace], PlacesAll(st.kids), Places(n));
    }
  }

  /** Closing a block moves nothing. */
  lemma PlacesClose(st: Stack)
    requires st.Open?
    ensures StackPlaces(st.Close()) == StackPlaces(st)
  {
    PlacesAppend(st.under, Block(st.key, st.at, st.afterBrace, st.kids));
  }

  /** The reader only ever meets something at the offset it has just come to. */
  lemma StepPlaces(s: State, c: char)
    ensures StatePlaces(Step(s, c)) == StatePlaces(s)
      || StatePlaces(Step(s, c)) == StatePlaces(s) + [s.pos + 1]
      || StatePlaces(s) == StatePlaces(Step(s, c)) + [s.start + 1]
      || (s.pending != "" && s.mode != Quoted && s.mode != Escaped
          && StatePlaces(s) == StatePlaces(Step(s, c)) + [s.pendingAt + 1])
  {
    if s.mode == Quoted {
      if c == '"' {
        EndPlaces(s);
      }
    } else if s.mode == Plain {
      PlainPlaces(s, c);
    }
  }

  lemma EndPlaces(s: State)
    requires s.mode == Quoted
    ensures var r := EndString(s);
      || StatePlaces(r) == StatePlaces(s) + [s.pos + 1]
      || StatePlaces(r) == StatePlaces(s)
      || StatePlaces(s) == StatePlaces(r) + [s.start + 1]
  {
    if s.pending != "" {
      PairPlaces(s);
    }
  }

  lemma PairPlaces(s: State)
    requires s.mode == Quoted && s.pending != ""
    ensures StatePlaces(EndString(s)) == StatePlaces(s) + [s.pos + 1]
  {
    var n := Pair(s.pending, s.pendingAt, s.start, s.pos + 1, s.text);
    PlacesAppend(s.stack, n);
    ThreePlaces(StackPlaces(s.stack), Places(n), s.pendingAt + 1, s.start + 1, s.pos + 1);
  }

  lemma ThreePlaces(st: seq<nat>, p: seq<nat>, a: nat, b: nat, c: nat)
    requires p == [a, b, c]
    ensures st + p == st + [a] + [b] + [c]
  {
  }

  lemma PlainPlaces(s: State, c: char)
    requires s.mode == Plain
    ensures var r := StepPlain(s, c);
      || StatePlaces(r) == StatePlaces(s)
      || StatePlaces(r) == StatePlaces(s) + [s.pos + 1]
      || (s.pending != "" && StatePlaces(s) == StatePlaces(r) + [s.pendingAt + 1])
  {
    if c == '}' && s.stack.Open? {
      PlacesClose(s.stack);
    }
  }

  lemma StepInOrder(s: State, c: char)
    requires InOrder(s)
    ensures InOrder(Step(s, c))
  {
    StepPlaces(s, c);
    var was, now := StatePlaces(s), StatePlaces(Step(s, c));
    assert forall i :: 0 <= i < |was| && i < |now| ==> now[i] == was[i];
  }

  lemma {:induction false} ReadInOrder(t: string, i: nat)
    requires i <= |t|
    ensures InOrder(Read(INIT, t, i))
  {
    if i > 0 {
      ReadInOrder(t, i - 1);
      StepInOrder(Read(INIT, t, i - 1), t[i - 1]);
    }
  }

  // ---- What the text says at those offsets

  /** The key's quote is where it should be; just past the brace the block was open and
      empty; the value's span cuts out the value and its quotes, and reading it from where
      it starts adds this pair and nothing else. */
  ghost predicate Known(t: string, n: Node)
  {
    n.at < |t| && t[n.at] == '"' && n.key != "" &&
    match n
    case Block(key, at, afterBrace, kids) =>
      && at < afterBrace <= |t| && t[afterBrace - 1] == '{'
      && Fresh(Read(INIT, t, afterBrace), key, at, afterBrace)
      && forall k :: k in kids ==> Known(t, k)
    case Pair(key, at, valueStart, valueEnd, value) =>
      && at < valueStart < valueEnd <= |t| && valueStart + 1 < valueEnd
      && t[valueStart..valueEnd] == "\"" + value + "\""
      && Named(Read(INIT, t, valueStart), key, at)
      && Read(INIT, t, valueEnd) == Paired(Read(INIT, t, valueStart), valueEnd, value)
  }

  predicate Fresh(s: State, key: string, at: nat, afterBrace: nat)
  {
    s.stack.Open? && s == State(Plain, Open(key, at, afterBrace, [], s.stack.under), "", 0, 0, "", afterBrace)
  }

  predicate Named(s: State, key: string, at: nat)
  {
    key != "" && s == State(Plain, s.stack, key, at, 0, "", s.pos)
  }

  /** The state after the key in hand has got the value that ends at `end`. */
  function Paired(s: State, end: nat, value: string): State
  {
    s.(stack := s.stack.Append(Pair(s.pending, s.pendingAt, s.pos, end, value)), pending := "", pendingAt := 0,
       pos := end)
  }

  ghost predicate KnownStack(t: string, st: Stack)
  {
    && (forall k :: k in st.kids ==> Known(t, k))
    && (st.Open? ==>
          && st.at < st.afterBrace <= |t| && st.key != "" && t[st.at] == '"' && t[st.afterBrace - 1] == '{'
          && Read(INIT, t, st.afterBrace)
            == State(Plain, Open(st.key, st.at, st.afterBrace, [], st.under), "", 0, 0, "", st.afterBrace)
          && KnownStack(t, st.under))
  }

  ghost predicate KnownState(t: string, s: State)
    requires s.pos <= |t|
  {
    && KnownStack(t, s.stack)
    && (if s.pending == "" then s.pendingAt == 0 else s.pendingAt < s.pos && t[s.pendingAt] == '"')
    && (if s.InString() then
          && s.start < s.pos && t[s.start] == '"' && s.text == t[s.start + 1..s.pos]
          && Read(INIT, t, s.start) == s.(mode := Plain, start := 0, text := "", pos := s.start)
        else s.start == 0 && s.text == "")
  }

  lemma KeyFirst(s: State)
    requires InOrder(s) && s.InString() && s.pending != ""
    ensures s.pendingAt < s.start
  {
    var p := StatePlaces(s);
    assert p[|p| - 2] == s.pendingAt + 1 && p[|p| - 1] == s.start + 1;
  }

  lemma Cut(t: string, from: nat, i: nat)
    requires from < i < |t| && t[from] == '"' && t[i] == '"'
    ensures t[from..i + 1] == "\"" + t[from + 1..i] + "\""
  {
    assert t[from..i + 1] == [t[from]] + t[from + 1..i] + [t[i]];
  }

  /** The end of a string is where a pair becomes known. */
  lemma PairKnown(t: string, key: string, at: nat, start: nat, i: nat, text: string, u: State)
    requires key != "" && at < start < i < |t| && t[at] == '"' && t[start] == '"' && t[i] == '"'
    requires text == t[start + 1..i]
    requires u == Read(INIT, t, start) && Named(u, key, at) && u.pos == start
    requires Read(INIT, t, i) == u.(mode := Quoted, start := start, text := text, pos := i)
    ensures Known(t, Pair(key, at, start, i + 1, text))
  {
    Cut(t, start, i);
    var v := PairRead(t, key, at, start, i, text, u);
    PairIsKnown(t, key, at, start, i + 1, text, u, v);
  }

  lemma KeyBefore(t: string, i: nat)
    requires i <= |t| && Read(INIT, t, i).InString() && Read(INIT, t, i).pending != ""
    ensures Read(INIT, t, i).pendingAt < Read(INIT, t, i).start
  {
    ReadInOrder(t, i);
    KeyFirst(Read(INIT, t, i));
  }

  lemma PairIsKnown(t: string, key: string, at: nat, start: nat, end: nat, value: string, u: State, v: State)
    requires key != "" && at < start && start + 1 < end <= |t| && t[at] == '"'
    requires t[start..end] == "\"" + value + "\""
    requires u == Read(INIT, t, start) && v == Read(INIT, t, end)
    requires Named(u, key, at) && v == Paired(u, end, value)
    ensures Known(t, Pair(key, at, start, end, value))
  {
  }

  /** The state where the value has ended. */
  lemma PairRead(t: string, key: string, at: nat, start: nat, i: nat, text: string, u: State) returns (v: State)
    requires start < i < |t| && t[i] == '"' && Named(u, key, at) && u.pos == start
    requires Read(INIT, t, i) == u.(mode := Quoted, start := start, text := text, pos := i)
    ensures v == Read(INIT, t, i + 1) && v == Paired(u, i + 1, text)
  {
    v := EndString(u.(mode := Quoted, start := start, text := text, pos := i));
    assert Read(INIT, t, i + 1) == v;
    assert v == Paired(u, i + 1, text);
  }

  /** A closing brace is where a block does. */
  lemma BlockKnown(t: string, i: nat)
    requires i < |t| && KnownState(t, Read(INIT, t, i))
    requires Read(INIT, t, i).mode == Plain && t[i] == '}' && Read(INIT, t, i).stack.Open?
    ensures KnownState(t, Read(INIT, t, i + 1))
  {
    var st := Read(INIT, t, i).stack;
    var n := Block(st.key, st.at, st.afterBrace, st.kids);
    assert Known(t, n);
    KnownAppend(t, st.under, n);
  }

  lemma KnownAppend(t: string, st: Stack, n: Node)
    requires KnownStack(t, st) && Known(t, n)
    ensures KnownStack(t, st.Append(n))
  {
    assert st.Append(n).kids == st.kids + [n];
  }

  /** Inside a string everything the string was read from stays in hand. */
  lemma StringKnown(t: string, i: nat)
    requires i < |t| && KnownState(t, Read(INIT, t, i))
    requires Read(INIT, t, i).InString()
    requires Read(INIT, t, i).mode == Quoted ==> t[i] != '"'
    ensures KnownState(t, Read(INIT, t, i + 1))
  {
    var s := Read(INIT, t, i);
    SliceMore(t, s.start + 1, i);
  }

  lemma SliceMore(t: string, from: nat, i: nat)
    requires from <= i < |t|
    ensures t[from..i] + [t[i]] == t[from..i + 1]
  {
  }

  lemma StepKnown(t: string, i: nat)
    requires i < |t| && KnownState(t, Read(INIT, t, i))
    ensures KnownState(t, Read(INIT, t, i + 1))
  {
    var s := Read(INIT, t, i);
    if s.mode == Quoted && t[i] == '"' {
      QuoteKnown(t, i);
    } else if s.InString() {
      StringKnown(t, i);
    } else if s.mode == Plain && t[i] == '}' && s.stack.Open? {
      BlockKnown(t, i);
    } else {
      PlainKnown(t, i);
    }
  }

  lemma QuoteKnown(t: string, i: nat)
    requires i < |t| && KnownState(t, Read(INIT, t, i))
    requires Read(INIT, t, i).mode == Quoted && t[i] == '"'
    ensures KnownState(t, Read(INIT, t, i + 1))
  {
    var s := Read(INIT, t, i);
    if s.pending != "" {
      KeyBefore(t, i);
      PairKnown(t, s.pending, s.pendingAt, s.start, i, s.text, Read(INIT, t, s.start));
      KnownAppend(t, s.stack, Pair(s.pending, s.pendingAt, s.start, i + 1, s.text));
    }
  }

  lemma PlainKnown(t: string, i: nat)
    requires i < |t| && KnownState(t, Read(INIT, t, i))
    requires var s := Read(INIT, t, i); !s.InString() && !(s.mode == Plain && t[i] == '}' && s.stack.Open?)
    ensures KnownState(t, Read(INIT, t, i + 1))
  {
  }

  lemma {:induction false} ReadKnown(t: string, i: nat)
    requires i <= |t|
    ensures KnownState(t, Read(INIT, t, i))
  {
    if i > 0 {
      ReadKnown(t, i - 1);
      StepKnown(t, i - 1);
    }
  }

  /** Of every text that reads, whatever its layout: each value's span cuts out exactly its
      quoted text, each block's place is just past its own brace, and no two are the same. */
  lemma SpansAreExact(t: string, ns: seq<Node>)
    requires Parse(t) == Some(ns)
    ensures forall n :: n in ns ==> Known(t, n)
    ensures Rising(PlacesAll(ns))
  {
    ReadKnown(t, |t|);
    ReadInOrder(t, |t|);
    var p := StatePlaces(Run(INIT, t));
    assert forall i :: 0 <= i < |PlacesAll(ns)| ==> PlacesAll(ns)[i] == p[i];
  }

  // ---- Putting text there

  /** One edit: what was at `from` and after it is now at `to` and after it; the block that
      opened at `from` has `added` before its own, or the value that ended there is `value`. */
  datatype Edit = Edit(from: nat, to: nat, added: seq<Node>, value: string)
  {
    function Start(p: nat): nat
    {
      if p >= from then p - from + to else p
    }

    function Brace(p: nat): nat
    {
      if p > from then p - from + to else p
    }
  }

  function EditNode(n: Node, e: Edit): Node
  {
    match n
    case Block(key, at, afterBrace, kids) =>
      Block(key, e.Start(at), e.Brace(afterBrace), (if afterBrace == e.from then e.added else []) + EditAll(kids, e))
    case Pair(key, at, valueStart, valueEnd, value) =>
      Pair(key, e.Start(at), e.Start(valueStart), e.Start(valueEnd), if valueEnd == e.from then e.value else value)
  }

  function EditAll(ns: seq<Node>, e: Edit): (r: seq<Node>)
    ensures |r| == |ns|
    ensures forall i :: 0 <= i < |ns| ==> r[i] == EditNode(ns[i], e)
  {
    if ns == [] then [] else EditAll(ns[..|ns| - 1], e) + [EditNode(ns[|ns| - 1], e)]
  }

  function EditStack(st: Stack, e: Edit): Stack
  {
    match st
    case Root(kids) => Root(EditAll(kids, e))
    case Open(key, at, afterBrace, kids, under) =>
      Open(key, e.Start(at), e.Brace(afterBrace), (if afterBrace == e.from then e.added else []) + EditAll(kids, e),
           EditStack(under, e))
  }

  function EditState(s: State, e: Edit): State
    requires e.from <= s.pos
  {
    s.(stack := EditStack(s.stack, e), pendingAt := e.Start(s.pendingAt), start := e.Start(s.start),
       pos := e.Start(s.pos))
  }

  lemma EditAppend(st: Stack, n: Node, e: Edit)
    ensures EditStack(st.Append(n), e) == EditStack(st, e).Append(EditNode(n, e))
  {
    assert EditAll(st.kids + [n], e) == EditAll(st.kids, e) + [EditNode(n, e)];
    match st
    case Root(kids) =>
    case Open(_, _, afterBrace, kids, under) =>
      var added := if afterBrace == e.from then e.added else [];
      assert added + (EditAll(kids, e) + [EditNode(n, e)]) == (added + EditAll(kids, e)) + [EditNode(n, e)];
  }

  /** Past the edit, reading on from the edited state is editing what would be read. */
  lemma EditStep(s: State, e: Edit, c: char)
    requires 0 < e.from <= s.pos
    ensures Step(EditState(s, e), c) == EditState(Step(s, c), e)
  {
    if s.mode == Quoted {
      if c == '"' {
        EditEnd(s, e);
      }
    } else if s.mode == Plain {
      EditPlain(s, e, c);
    }
  }

  lemma EditEnd(s: State, e: Edit)
    requires 0 < e.from <= s.pos
    ensures EndString(EditState(s, e)) == EditState(EndString(s), e)
  {
    if s.pending != "" {
      EditAppend(s.stack, Pair(s.pending, s.pendingAt, s.start, s.pos + 1, s.text), e);
    }
  }

  lemma EditPlain(s: State, e: Edit, c: char)
    requires 0 < e.from <= s.pos
    ensures StepPlain(EditState(s, e), c) == EditState(StepPlain(s, c), e)
  {
    if c == '}' && s.stack.Open? {
      EditClose(s.stack, e);
    } else if c == '{' && s.pending != "" {
      assert [] + EditAll([], e) == [];
    }
  }

  lemma EditClose(st: Stack, e: Edit)
    requires st.Open?
    ensures EditStack(st, e).Close() == EditStack(st.Close(), e)
  {
    EditAppend(st.under, Block(st.key, st.at, st.afterBrace, st.kids), e);
  }

  lemma {:induction false} EditRead(s: State, e: Edit, t: string, i: nat)
    requires 0 < e.from <= s.pos && i <= |t|
    ensures Read(EditState(s, e), t, i) == EditState(Read(s, t, i), e)
  {
    if i > 0 {
      EditRead(s, e, t, i - 1);
      EditStep(Read(s, t, i - 1), e, t[i - 1]);
    }
  }

  /** An edit does not touch what came before it. */
  lemma EditNothing(n: Node, e: Edit)
    requires Below(Places(n), e.from)
    ensures EditNode(n, e) == n
    decreases n, 1
  {
    assert Places(n)[0] < e.from && Places(n)[1] < e.from;
    if n.Pair? {
      assert Places(n)[2] < e.from;
    } else {
      assert forall i :: 0 <= i < |PlacesAll(n.kids)| ==> PlacesAll(n.kids)[i] == Places(n)[i + 2];
      EditNothingAll(n.kids, e);
    }
  }

  lemma EditNothingAll(ns: seq<Node>, e: Edit)
    requires Below(PlacesAll(ns), e.from)
    ensures EditAll(ns, e) == ns
    decreases ns, 0
  {
    if ns != [] {
      var init, last := ns[..|ns| - 1], ns[|ns| - 1];
      var p := PlacesAll(ns);
      assert forall i :: 0 <= i < |PlacesAll(init)| ==> PlacesAll(init)[i] == p[i];
      assert forall i :: 0 <= i < |Places(last)| ==> Places(last)[i] == p[|PlacesAll(init)| + i];
      EditNothingAll(init, e);
      EditNothing(last, e);
    }
  }

  lemma EditNothingStack(st: Stack, e: Edit)
    requires Below(StackPlaces(st), e.from)
    ensures EditStack(st, e) == st
  {
    var p := StackPlaces(st);
    if st.Root? {
      EditNothingAll(st.kids, e);
    } else {
      var u := |StackPlaces(st.under)|;
      assert forall i :: 0 <= i < u ==> StackPlaces(st.under)[i] == p[i];
      assert p[u] == st.at + 1 && p[u + 1] == st.afterBrace;
      assert forall i :: 0 <= i < |PlacesAll(st.kids)| ==> PlacesAll(st.kids)[i] == p[u + 2 + i];
      EditNothingStack(st.under, e);
      EditNothingAll(st.kids, e);
    }
  }

  /** Text put just past a block's brace, that reads there as the nodes `added` and no more:
      the file reads as before, with `added` first in that block and the rest moved along. */
  lemma InsertReads(t: string, at: nat, what: string, added: seq<Node>)
    requires 0 < at <= |t|
    requires var s := Read(INIT, t, at); s.stack.Open? && Fresh(s, s.stack.key, s.stack.at, at)
    requires var s := Read(INIT, t, at); Run(s, what) == s.(stack := s.stack.(kids := added), pos := at + |what|)
    ensures Run(INIT, t[..at] + what + t[at..]) == EditState(Run(INIT, t), Edit(at, at + |what|, added, ""))
  {
    var e := Edit(at, at + |what|, added, "");
    var s := Read(INIT, t, at);
    ReadInOrder(t, at);
    EditFresh(s, e);
    RunAfter(t, at, what);
    Resume(t, at, t[..at] + what, e);
  }

  lemma EditFresh(s: State, e: Edit)
    requires InOrder(s) && s.stack.Open? && Fresh(s, s.stack.key, s.stack.at, e.from) && e.from > 0
    ensures EditState(s, e) == s.(stack := s.stack.(kids := e.added), pos := e.to)
  {
    var p := StatePlaces(s);
    var u := |StackPlaces(s.stack.under)|;
    assert p[u + 1] == e.from && p[u] == s.stack.at + 1;
    assert forall i :: 0 <= i < u ==> StackPlaces(s.stack.under)[i] == p[i];
    EditNothingStack(s.stack.under, e);
    assert e.added + EditAll([], e) == e.added;
  }

  /** A value written anew: the file reads as before, with that one value changed. */
  lemma ReplaceReads(t: string, from: nat, end: nat, what: string, value: string)
    requires 0 < from < end <= |t|
    requires var s := Read(INIT, t, from); s.pending != "" && Named(s, s.pending, s.pendingAt)
    requires t[from..end] != "" && exists v :: Read(INIT, t, end) == Paired(Read(INIT, t, from), end, v)
    requires Run(Read(INIT, t, from), what) == Paired(Read(INIT, t, from), from + |what|, value)
    ensures Run(INIT, t[..from] + what + t[end..]) == EditState(Run(INIT, t), Edit(end, from + |what|, [], value))
  {
    var e := Edit(end, from + |what|, [], value);
    var s := Read(INIT, t, from);
    var v :| Read(INIT, t, end) == Paired(s, end, v);
    ReadInOrder(t, from);
    EditPaired(s, end, v, e);
    RunAfter(t, from, what);
    Resume(t, end, t[..from] + what, e);
  }

  lemma BeforeKey(s: State)
    requires InOrder(s) && s.pending != ""
    ensures s.pendingAt < s.pos && Below(StackPlaces(s.stack), s.pos)
  {
    var p := StatePlaces(s);
    assert p[|StackPlaces(s.stack)|] == s.pendingAt + 1;
    assert forall i :: 0 <= i < |StackPlaces(s.stack)| ==> StackPlaces(s.stack)[i] == p[i];
  }

  lemma EditPaired(s: State, end: nat, v: string, e: Edit)
    requires InOrder(s) && s.pending != "" && Named(s, s.pending, s.pendingAt)
    requires s.pos < end == e.from && e.to >= s.pos
    ensures EditState(Paired(s, end, v), e) == Paired(s, e.to, e.value)
  {
    BeforeKey(s);
    EditNothingStack(s.stack, e);
    EditAppend(s.stack, Pair(s.pending, s.pendingAt, s.pos, end, v), e);
  }

  lemma RunAfter(t: string, at: nat, what: string)
    requires at <= |t|
    ensures Run(INIT, t[..at] + what) == Run(Read(INIT, t, at), what)
  {
    RunJoin(INIT, t[..at], what);
    ReadPrefix(INIT, t[..at], t[at..], at);
    assert t[..at] + t[at..] == t;
  }

  /** The rest of the file, read on from the other side of the edit. */
  lemma Resume(t: string, at: nat, front: string, e: Edit)
    requires 0 < e.from == at <= |t|
    requires Run(INIT, front) == EditState(Read(INIT, t, at), e)
    ensures Run(INIT, front + t[at..]) == EditState(Run(INIT, t), e)
  {
    RunJoin(INIT, front, t[at..]);
    EditRead(Read(INIT, t, at), e, t[at..], |t| - at);
    assert t == t[..at] + t[at..];
    RunAfter(t, at, t[at..]);
  }
}
