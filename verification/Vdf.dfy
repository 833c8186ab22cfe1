/** The reader of Steam's configuration files that remembers where everything sits
    (internal/seat/steamplay.go, parseVDF).

    The reader is a machine over single characters, so what it does on one text after
    another is what it does on the two together.  Positions are counted in characters. */
module Vdf {
  import opened Wrappers

  /** A block or a pair: where its key's quote is, where a child would be inserted, where
      its value's quotes are, and what they hold. */
  datatype Node =
    | Block(key: string, at: nat, afterBrace: nat, kids: seq<Node>)
    | Pair(key: string, at: nat, valueStart: nat, valueEnd: nat, value: string)

  /** The blocks that are still open, the innermost on top. */
  datatype Stack =
    | Root(kids: seq<Node>)
    | Open(key: string, at: nat, afterBrace: nat, kids: seq<Node>, under: Stack)
  {
    function Append(n: Node): Stack
    {
      this.(kids := kids + [n])
    }

    /** The innermost block is done: it goes to the end of the one it is in. */
    function Close(): Stack
      requires Open?
    {
      under.Append(Block(key, at, afterBrace, kids))
    }
  }

  datatype Mode = Plain | Slash | Comment | Quoted | Escaped | Failed

  /** `pending` is a key waiting to find out whether it is a block or half a pair; `start`
      and `text` are the string being read. */
  datatype State = State(mode: Mode, stack: Stack, pending: string, pendingAt: nat, start: nat, text: string, pos: nat)
  {
    predicate InString()
    {
      mode == Quoted || mode == Escaped
    }

    predicate Between()
    {
      mode == Plain || mode == Comment
    }
  }

  const INIT := State(Plain, Root([]), "", 0, 0, "", 0)

  predicate IsBlank(c: char)
  {
    c == '\n' || c == ' ' || c == '\t' || c == '\r'
  }

  function Fail(s: State): State
  {
    State(Failed, s.stack, "", 0, 0, "", s.pos + 1)
  }

  function StepPlain(s: State, c: char): State
  {
    var t := s.(pos := s.pos + 1);
    if IsBlank(c) then t
    else if c == '/' then t.(mode := Slash)
    else if c == '{' then
      if s.pending == "" then Fail(s)
      else t.(stack := Open(s.pending, s.pendingAt, s.pos + 1, [], s.stack), pending := "", pendingAt := 0)
    else if c == '}' then
      if s.stack.Root? then Fail(s)
      else t.(stack := s.stack.Close())
    else if c == '"' then t.(mode := Quoted, start := s.pos, text := "")
    else Fail(s)
  }

  /** The closing quote: the string was a key, or the value of the key before it. */
  function EndString(s: State): State
  {
    var t := s.(mode := Plain, start := 0, text := "", pos := s.pos + 1);
    if s.pending == "" then t.(pending := s.text, pendingAt := if s.text == "" then 0 else s.start)
    else t.(stack := s.stack.Append(Pair(s.pending, s.pendingAt, s.start, s.pos + 1, s.text)), pending := "",
            pendingAt := 0)
  }

  function Step(s: State, c: char): (r: State)
    ensures r.pos == s.pos + 1
  {
    match s.mode
    case Plain => StepPlain(s, c)
    case Slash => if c == '/' then s.(mode := Comment, pos := s.pos + 1) else Fail(s)
    case Comment => s.(mode := if c == '\n' then Plain else Comment, pos := s.pos + 1)
    case Quoted =>
      if c == '"' then EndString(s)
      else s.(mode := if c == '\\' then Escaped else Quoted, text := s.text + [c], pos := s.pos + 1)
    case Escaped => s.(mode := Quoted, text := s.text + [c], pos := s.pos + 1)
    case Failed => s.(pos := s.pos + 1)
  }

  /** The machine after the first `i` characters of `t`. */
  function Read(s: State, t: string, i: nat): (r: State)
    requires i <= |t|
    ensures r.pos == s.pos + i
  {
    if i == 0 then s else Step(Read(s, t, i - 1), t[i - 1])
  }

  function Run(s: State, t: string): (r: State)
    ensures r.pos == s.pos + |t|
  {
    Read(s, t, |t|)
  }

  /** Reading one text and then another is reading the two as one. */
  lemma {:induction false} ReadJoin(s: State, a: string, b: string, i: nat)
    requires i <= |b|
    ensures Read(s, a + b, |a| + i) == Read(Run(s, a), b, i)
  {
    if i == 0 {
      ReadPrefix(s, a, b, |a|);
    } else {
      ReadJoin(s, a, b, i - 1);
    }
  }

  lemma {:induction false} ReadPrefix(s: State, a: string, b: string, i: nat)
    requires i <= |a|
    ensures Read(s, a + b, i) == Read(s, a, i)
  {
    if i > 0 {
      ReadPrefix(s, a, b, i - 1);
    }
  }

  lemma RunJoin(s: State, a: string, b: string)
    ensures Run(s, a + b) == Run(Run(s, a), b)
  {
    ReadJoin(s, a, b, |b|);
  }

  /** What the whole text says, if it is one at all: the blocks and pairs at the top. */
  function Parse(data: string): Option<seq<Node>>
  {
    var s := Run(INIT, data);
    if s.Between() && s.stack.Root? then Some(s.stack.kids) else None
  }

  lemma {:induction false} FailedStays(data: string, i: nat, j: nat)
    requires i <= j <= |data| && Read(INIT, data, i).mode == Failed
    ensures Read(INIT, data, j).mode == Failed
  {
    if i < j {
      FailedStays(data, i, j - 1);
    }
  }

  /** Where the reader gives up there is nothing to be read: at a character it does not
      know, or at a slash that no other follows. */
  lemma GivesUp(data: string, i: nat)
    requires i < |data|
    requires Read(INIT, data, i + 1).mode == Failed
      || (Read(INIT, data, i + 1).mode == Slash && (i + 1 == |data| || data[i + 1] != '/'))
    ensures Parse(data) == None
  {
    if Read(INIT, data, i + 1).mode == Failed {
      FailedStays(data, i + 1, |data|);
    } else if i + 1 < |data| {
      FailedStays(data, i + 2, |data|);
    }
  }

  /** The rest of a comment, up to and not over the newline. */
  method SkipComment(data: string, from: nat, ghost s: State) returns (i: nat)
    requires from <= |data| && s.mode == Comment && s.pos == from
    requires Read(INIT, data, from) == s
    ensures from <= i <= |data| && (i < |data| ==> data[i] == '\n')
    ensures Read(INIT, data, i) == s.(pos := i)
  {
    i := from;
    while i < |data| && data[i] != '\n'
      invariant from <= i <= |data|
      invariant Read(INIT, data, i) == s.(pos := i)
    {
      i := i + 1;
    }
  }

  /** Inside a string, one character that does not end it. */
  lemma InString(data: string, from: nat, i: nat, s: State)
    requires from <= i < |data|
    requires (s.mode == Quoted && data[i] != '"') || s.mode == Escaped
    requires Read(INIT, data, i) == s.(pos := i, text := data[from..i])
    ensures Read(INIT, data, i + 1)
      == s.(mode := if s.mode == Quoted && data[i] == '\\' then Escaped else Quoted, pos := i + 1,
            text := data[from..i + 1])
  {
    assert data[from..i] + [data[i]] == data[from..i + 1];
  }

  /** The reader has come to `i` inside the string that starts at `from`. */
  ghost predicate InsideAt(data: string, from: nat, i: nat, s: State)
  {
    && from <= i <= |data| && s.mode == Quoted && Read(INIT, data, i).InString()
    && (i < |data| ==> Read(INIT, data, i) == s.(pos := i, text := data[from..i]))
  }

  /** Inside a string, one character and what it escapes. */
  lemma OneQuoted(data: string, from: nat, i: nat, s: State)
    requires InsideAt(data, from, i, s) && i < |data| && data[i] != '"'
    ensures InsideAt(data, from, if data[i] == '\\' && i + 1 < |data| then i + 2 else i + 1, s)
  {
    InString(data, from, i, s);
    if data[i] == '\\' && i + 1 < |data| {
      InString(data, from, i + 1, s.(mode := Escaped));
    }
  }

  /** The rest of a string, up to and not over its closing quote. */
  method SkipString(data: string, from: nat, ghost s: State) returns (i: nat)
    requires from <= |data| && s.mode == Quoted && s.pos == from && s.text == ""
    requires Read(INIT, data, from) == s
    ensures from <= i <= |data|
    ensures i < |data| ==> data[i] == '"' && Read(INIT, data, i) == s.(pos := i, text := data[from..i])
    ensures i == |data| ==> Run(INIT, data).InString()
  {
    i := from;
    while i < |data| && data[i] != '"'
      invariant InsideAt(data, from, i, s)
    {
      OneQuoted(data, from, i, s);
      if data[i] == '\\' && i + 1 < |data| {
        i := i + 1;
      }
      i := i + 1;
    }
  }

  /** Between tokens, one character that starts neither a comment nor a string. */
  lemma OneMark(data: string, i: nat, s: State)
    requires i < |data| && s.Between() && (s.mode == Comment ==> data[i] == '\n')
    requires Read(INIT, data, i) == s && data[i] != '/' && data[i] != '"'
    ensures Read(INIT, data, i + 1)
      == if data[i] == '{' && s.pending != "" then
           s.(stack := Open(s.pending, s.pendingAt, i + 1, [], s.stack), pending := "", pendingAt := 0, pos := i + 1)
         else if data[i] == '}' && s.stack.Open? then
           s.(stack := s.stack.Close(), pos := i + 1)
         else if IsBlank(data[i]) then s.(mode := Plain, pos := i + 1)
         else Fail(s)
  {
  }

  lemma Started(data: string, i: nat, s: State) returns (r: State)
    requires i + 1 < |data| && data[i] == '/' && data[i + 1] == '/' && s == Read(INIT, data, i) && s.mode == Plain
    ensures r == Read(INIT, data, i + 2) && r == s.(mode := Comment, pos := i + 2)
  {
    assert Read(INIT, data, i + 1) == s.(mode := Slash, pos := i + 1);
    r := s.(mode := Comment, pos := i + 2);
  }

  lemma Ended(data: string, i: nat, s: State) returns (r: State)
    requires i < |data| && data[i] == '"' && s == Read(INIT, data, i) && s.mode == Quoted
    ensures r == Read(INIT, data, i + 1) && r == EndString(s)
  {
    r := EndString(s);
  }

  /** parseVDF: the reader as a loop over offsets. */
  method ParseVdf(data: string) returns (root: Option<seq<Node>>)
    ensures root == Parse(data)
  {
    var stack := Root([]);
    var pending, pendingAt := "", 0;
    var i := 0;
    ghost var s := INIT;
    while i < |data|
      invariant i <= |data|
      invariant s == Read(INIT, data, i) && s.Between()
      invariant s == State(s.mode, stack, pending, pendingAt, 0, "", i)
      invariant s.mode == Comment ==> i < |data| ==> data[i] == '\n'
    {
      var c := data[i];
      if c == '/' {
        if i + 1 >= |data| || data[i + 1] != '/' {
          GivesUp(data, i);
          return None;
        }
        s := Started(data, i, s);
        i := SkipComment(data, i + 2, s);
        s := s.(pos := i);
      } else if c == '"' {
        var start := i;
        s := s.(mode := Quoted, start := i, pos := i + 1);
        i := SkipString(data, i + 1, s);
        if i >= |data| {
          return None;
        }
        var text := data[start + 1..i];
        ghost var r := Ended(data, i, s.(pos := i, text := text));
        i := i + 1;
        if pending == "" {
          pending, pendingAt := text, if text == "" then 0 else start;
        } else {
          stack := stack.Append(Pair(pending, pendingAt, start, i, text));
          pending, pendingAt := "", 0;
        }
        s := State(Plain, stack, pending, pendingAt, 0, "", i);
        assert s == r;
      } else {
        OneMark(data, i, s);
        if c == '{' && pending != "" {
          stack := Open(pending, pendingAt, i + 1, [], stack);
          pending, pendingAt := "", 0;
        } else if c == '}' && stack.Open? {
          stack := stack.Close();
        } else if !IsBlank(c) {
          GivesUp(data, i);
          return None;
        }
        i := i + 1;
        s := State(Plain, stack, pending, pendingAt, 0, "", i);
      }
    }
    root := if stack.Root? then Some(stack.kids) else None;
  }
}
