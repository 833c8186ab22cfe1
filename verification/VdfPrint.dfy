/** Configuration files as they are written: any tree, laid out in any way, reads back as
    itself. */
module VdfPrint {
  import opened Wrappers
  import opened Vdf

  /** What a file says, whatever it looks like. */
  datatype Tree =
    | Branch(key: string, kids: seq<Tree>)
    | Leaf(key: string, value: string)

  function Erase(n: Node): Tree
  {
    match n
    case Block(key, _, _, kids) => Branch(key, EraseAll(kids))
    case Pair(key, _, _, _, value) => Leaf(key, value)
  }

  function EraseAll(ns: seq<Node>): (r: seq<Tree>)
    ensures |r| == |ns|
    ensures forall i :: 0 <= i < |ns| ==> r[i] == Erase(ns[i])
  {
    if ns == [] then [] else EraseAll(ns[..|ns| - 1]) + [Erase(ns[|ns| - 1])]
  }

  /** A tree with everything between its tokens: before a key, before a brace or a value,
      and before the closing brace. */
  datatype Laid =
    | LaidBlock(before: string, key: string, between: string, kids: seq<Laid>, last: string)
    | LaidPair(before: string, key: string, between: string, value: string)

  /** Blanks, newlines and whole comments. */
  predicate IsGap(g: string)
  {
    g == "" || (IsBlank(g[0]) && IsGap(g[1..])) || (|g| >= 2 && g[0] == '/' && g[1] == '/' && IsComment(g[2..]))
  }

  predicate IsComment(g: string)
  {
    g != "" && if g[0] == '\n' then IsGap(g[1..]) else IsComment(g[1..])
  }

  /** What may stand between the quotes: no quote that nothing escapes, and no escape that
      escapes nothing. */
  predicate IsText(v: string)
  {
    v == "" || (if v[0] == '\\' then |v| >= 2 && IsText(v[2..]) else v[0] != '"' && IsText(v[1..]))
  }

  predicate WellLaid(l: Laid)
  {
    && IsGap(l.before) && l.key != "" && IsText(l.key) && IsGap(l.between)
    && (if l.LaidBlock? then IsGap(l.last) && AllWellLaid(l.kids) else IsText(l.value))
  }

  predicate AllWellLaid(ls: seq<Laid>)
  {
    ls == [] || (AllWellLaid(ls[..|ls| - 1]) && WellLaid(ls[|ls| - 1]))
  }

  function Raw(text: string): string
  {
    "\"" + text + "\""
  }

  function Written(l: Laid): string
  {
    match l
    case LaidBlock(before, key, between, kids, last) =>
      before + Raw(key) + between + "{" + AllWritten(kids) + last + "}"
    case LaidPair(before, key, between, value) => before + Raw(key) + between + Raw(value)
  }

  function AllWritten(ls: seq<Laid>): string
  {
    if ls == [] then "" else AllWritten(ls[..|ls| - 1]) + Written(ls[|ls| - 1])
  }

  function Meant(l: Laid): Tree
  {
    match l
    case LaidBlock(_, key, _, kids, _) => Branch(key, AllMeant(kids))
    case LaidPair(_, key, _, value) => Leaf(key, value)
  }

  function AllMeant(ls: seq<Laid>): seq<Tree>
  {
    if ls == [] then [] else AllMeant(ls[..|ls| - 1]) + [Meant(ls[|ls| - 1])]
  }

  /** The node that reading a layout at offset `p` gives. */
  function Placed(l: Laid, p: nat): Node
  {
    var at := p + |l.before|;
    var open := at + |l.key| + 2 + |l.between|;
    match l
    case LaidBlock(_, key, _, kids, _) => Block(key, at, open + 1, AllPlaced(kids, open + 1))
    case LaidPair(_, key, _, value) => Pair(key, at, open, open + |value| + 2, value)
  }

  function AllPlaced(ls: seq<Laid>, p: nat): seq<Node>
  {
    if ls == [] then []
    else AllPlaced(ls[..|ls| - 1], p) + [Placed(ls[|ls| - 1], p + |AllWritten(ls[..|ls| - 1])|)]
  }

  lemma RunFrom(s: State, t: string)
    requires t != ""
    ensures Run(s, t) == Run(Step(s, t[0]), t[1..])
  {
    assert t == [t[0]] + t[1..];
    RunOne(s, t[0]);
    RunJoin(s, [t[0]], t[1..]);
  }

  lemma {:induction false} RunGap(s: State, g: string)
    requires s.mode == Plain && IsGap(g)
    ensures Run(s, g) == s.(pos := s.pos + |g|)
    decreases |g|
  {
    if g != "" {
      RunFrom(s, g);
      if IsBlank(g[0]) {
        RunGap(s.(pos := s.pos + 1), g[1..]);
      } else {
        RunFrom(s.(mode := Slash, pos := s.pos + 1), g[1..]);
        assert g[1..][1..] == g[2..];
        RunComment(s.(pos := s.pos + 2), g[2..]);
      }
    }
  }

  lemma {:induction false} RunComment(s: State, g: string)
    requires s.mode == Plain && IsComment(g)
    ensures Run(s.(mode := Comment), g) == s.(pos := s.pos + |g|)
    decreases |g|
  {
    RunFrom(s.(mode := Comment), g);
    if g[0] == '\n' {
      RunGap(s.(pos := s.pos + 1), g[1..]);
    } else {
      RunComment(s.(pos := s.pos + 1), g[1..]);
    }
  }

  lemma {:induction false} RunText(s: State, v: string)
    requires s.mode == Quoted && IsText(v)
    ensures Run(s, v) == s.(text := s.text + v, pos := s.pos + |v|)
    decreases |v|
  {
    if v == "" {
      assert s.text + v == s.text;
    } else if v[0] == '\\' {
      RunFrom(s, v);
      var u := s.(mode := Escaped, text := s.text + [v[0]], pos := s.pos + 1);
      RunFrom(u, v[1..]);
      var w := s.(text := s.text + [v[0]] + [v[1]], pos := s.pos + 2);
      assert v[1..][1..] == v[2..];
      RunText(w, v[2..]);
      assert s.text + [v[0]] + [v[1]] + v[2..] == s.text + v;
    } else {
      RunFrom(s, v);
      var w := s.(text := s.text + [v[0]], pos := s.pos + 1);
      RunText(w, v[1..]);
      assert s.text + [v[0]] + v[1..] == s.text + v;
    }
  }

  lemma RunLast(s: State, t: string, c: char)
    ensures Run(s, t + [c]) == Step(Run(s, t), c)
  {
    ReadPrefix(s, t, [c], |t|);
  }

  lemma RunOpening(s: State, v: string)
    requires s.mode == Plain && IsText(v)
    ensures Run(s, "\"" + v) == s.(mode := Quoted, start := s.pos, text := v, pos := s.pos + 1 + |v|)
  {
    var u := Quoting(s);
    RunText(u, v);
    AfterQuote(s, u, v);
  }

  /** Just past the quote that begins a string. */
  function Quoting(s: State): (u: State)
    requires s.mode == Plain
    ensures Run(s, ['"']) == u && u.mode == Quoted && u.text == ""
  {
    RunOne(s, '"');
    s.(mode := Quoted, start := s.pos, text := "", pos := s.pos + 1)
  }

  lemma AfterQuote(s: State, u: State, v: string)
    requires Run(s, ['"']) == u && u.text == "" && Run(u, v) == u.(text := u.text + v, pos := u.pos + |v|)
    ensures Run(s, "\"" + v) == u.(text := v, pos := u.pos + |v|)
  {
    assert u.text + v == v;
    RunJoin(s, ['"'], v);
  }

  lemma RunOne(s: State, c: char)
    ensures Run(s, [c]) == Step(s, c)
  {
    assert Read(s, [c], 0) == s;
  }

  /** A whole string: a key to be, or the value of the key in hand. */
  lemma RunRaw(s: State, v: string)
    requires s.mode == Plain && s.start == 0 && s.text == "" && IsText(v)
    ensures Run(s, Raw(v)) == EndString(s.(mode := Quoted, start := s.pos, text := v, pos := s.pos + 1 + |v|))
  {
    RunOpening(s, v);
    RunLast(s, "\"" + v, '"');
  }

  /** A state between nodes. */
  predicate Ready(s: State)
  {
    s == State(Plain, s.stack, "", 0, 0, "", s.pos)
  }

  /** Reading a layout adds exactly its node. */
  lemma {:induction false} RunWritten(s: State, l: Laid)
    requires Ready(s) && WellLaid(l)
    ensures Run(s, Written(l)) == Grown(s, [Placed(l, s.pos)], |Written(l)|)
    decreases l, 1
  {
    var head := l.before + Raw(l.key) + l.between;
    var u := RunHead(s, l);
    if l.LaidPair? {
      RunPairEnd(s, l, u);
    } else {
      var v := RunBrace(u, head, s);
      RunAllWritten(v, l.kids);
      RunJoin(s, head + "{", AllWritten(l.kids));
      RunBlockEnd(s, l, head + "{" + AllWritten(l.kids));
    }
  }

  lemma RunPairEnd(s: State, l: Laid, u: State)
    requires Ready(s) && WellLaid(l) && l.LaidPair?
    requires var head := l.before + Raw(l.key) + l.between;
      u == Run(s, head) == s.(pending := l.key, pendingAt := s.pos + |l.before|, pos := s.pos + |head|)
    ensures Run(s, Written(l)) == Grown(s, [Placed(l, s.pos)], |Written(l)|)
  {
    RunJoin(s, l.before + Raw(l.key) + l.between, Raw(l.value));
    RunRaw(u, l.value);
  }

  lemma RunBrace(u: State, head: string, s: State) returns (v: State)
    requires u == Run(s, head) && u.mode == Plain && u.pending != ""
    ensures v == Run(s, head + "{")
    ensures v == u.(stack := Open(u.pending, u.pendingAt, u.pos + 1, [], u.stack), pending := "", pendingAt := 0,
                    pos := u.pos + 1)
  {
    RunLast(s, head, '{');
    v := Run(s, head + "{");
  }

  lemma RunBlockEnd(s: State, l: Laid, front: string)
    requires Ready(s) && WellLaid(l) && l.LaidBlock?
    requires var n := Placed(l, s.pos);
      Run(s, front) == s.(stack := Open(n.key, n.at, n.afterBrace, [] + n.kids, s.stack), pos := s.pos + |front|)
    ensures Run(s, front + l.last + "}")
      == s.(stack := s.stack.Append(Placed(l, s.pos)), pos := s.pos + |front + l.last + "}"|)
  {
    var n := Placed(l, s.pos);
    assert [] + n.kids == n.kids;
    RunJoin(s, front, l.last);
    RunGap(Run(s, front), l.last);
    RunLast(s, front + l.last, '}');
  }

  lemma RunHead(s: State, l: Laid) returns (u: State)
    requires Ready(s) && WellLaid(l)
    ensures var head := l.before + Raw(l.key) + l.between;
      u == Run(s, head) == s.(pending := l.key, pendingAt := s.pos + |l.before|, pos := s.pos + |head|)
  {
    RunGap(s, l.before);
    u := s.(pos := s.pos + |l.before|);
    RunRaw(u, l.key);
    RunJoin(s, l.before, Raw(l.key));
    u := Run(s, l.before + Raw(l.key));
    RunGap(u, l.between);
    RunJoin(s, l.before + Raw(l.key), l.between);
    u := Run(u, l.between);
  }

  /** The state after more nodes of the block in hand. */
  function Grown(s: State, ns: seq<Node>, length: nat): State
  {
    s.(stack := s.stack.(kids := s.stack.kids + ns), pos := s.pos + length)
  }

  lemma GrownOnce(s: State, ns: seq<Node>, length: nat, n: Node, more: nat)
    ensures Grown(Grown(s, ns, length), [n], more) == Grown(s, ns + [n], length + more)
  {
    assert s.stack.kids + ns + [n] == s.stack.kids + (ns + [n]);
  }

  lemma {:induction false} RunAllWritten(s: State, ls: seq<Laid>)
    requires Ready(s) && AllWellLaid(ls)
    ensures Run(s, AllWritten(ls)) == Grown(s, AllPlaced(ls, s.pos), |AllWritten(ls)|)
    decreases ls, 0
  {
    if ls == [] {
      assert s.stack.kids + [] == s.stack.kids;
    } else {
      var init, last := ls[..|ls| - 1], ls[|ls| - 1];
      RunAllWritten(s, init);
      var u := Grown(s, AllPlaced(init, s.pos), |AllWritten(init)|);
      RunWritten(u, last);
      RunJoin(s, AllWritten(init), Written(last));
      GrownOnce(s, AllPlaced(init, s.pos), |AllWritten(init)|, Placed(last, u.pos), |Written(last)|);
    }
  }

  lemma {:induction false} PlacedMeans(l: Laid, p: nat)
    ensures Erase(Placed(l, p)) == Meant(l)
    decreases l, 1
  {
    if l.LaidBlock? {
      AllPlacedMean(l.kids, p + |l.before| + |l.key| + 2 + |l.between| + 1);
    }
  }

  lemma {:induction false} AllPlacedMean(ls: seq<Laid>, p: nat)
    ensures EraseAll(AllPlaced(ls, p)) == AllMeant(ls)
    decreases ls, 0
  {
    if ls != [] {
      var init, last := ls[..|ls| - 1], ls[|ls| - 1];
      AllPlacedMean(init, p);
      PlacedMeans(last, p + |AllWritten(init)|);
      var ns := AllPlaced(ls, p);
      assert ns[..|ns| - 1] == AllPlaced(init, p);
    }
  }

  /** What may end a file: a gap, or one whose last comment the end of the file ends. */
  predicate IsEnd(g: string)
  {
    IsGap(g) || IsGap(g + "\n")
  }

  lemma RunEnd(s: State, g: string)
    requires s.mode == Plain && IsEnd(g)
    ensures Run(s, g).Between() && Run(s, g).stack == s.stack
  {
    if IsGap(g) {
      RunGap(s, g);
    } else {
      RunGap(s, g + "\n");
      RunLast(s, g, '\n');
    }
  }

  /** Any tree, whatever blanks, newlines and comments lie between its tokens and after the
      last of them, reads back as itself, with everything where it was put. */
  lemma ParseWritten(ls: seq<Laid>, last: string)
    requires AllWellLaid(ls) && IsEnd(last)
    ensures Parse(AllWritten(ls) + last) == Some(AllPlaced(ls, 0))
    ensures EraseAll(AllPlaced(ls, 0)) == AllMeant(ls)
  {
    RunAllWritten(INIT, ls);
    RunJoin(INIT, AllWritten(ls), last);
    RunEnd(Run(INIT, AllWritten(ls)), last);
    assert [] + AllPlaced(ls, 0) == AllPlaced(ls, 0);
    AllPlacedMean(ls, 0);
  }
}
