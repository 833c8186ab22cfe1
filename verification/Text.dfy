/** White space and lines, as Go's strings and bufio packages have them. */
module Text {
  predicate IsSpace(c: char)
  {
    || '\t' <= c <= '\r' || c == ' ' || c == '\U{0085}' || c == '\U{00A0}' || c == '\U{1680}'
      || '\U{2000}' <= c <= '\U{200A}'
    || c == '\U{2028}' || c == '\U{2029}' || c == '\U{202F}' || c == '\U{205F}' || c == '\U{3000}'
  }

  function TrimLeft(s: string): string
  {
    if s != "" && IsSpace(s[0]) then TrimLeft(s[1..]) else s
  }

  function TrimRight(s: string): string
  {
    if s != "" && IsSpace(s[|s| - 1]) then TrimRight(s[..|s| - 1]) else s
  }

  function TrimSpace(s: string): string
  {
    TrimRight(TrimLeft(s))
  }

  /** The first of a character, or the length. */
  function Index(s: string, c: char): (i: nat)
    ensures i <= |s| && (i < |s| ==> s[i] == c)
    ensures forall j :: 0 <= j < i ==> s[j] != c
  {
    if s == "" || s[0] == c then 0 else 1 + Index(s[1..], c)
  }

  lemma IndexAt(a: string, c: char, b: string)
    requires forall i :: 0 <= i < |a| ==> a[i] != c
    ensures Index(a + [c] + b, c) == |a|
  {
    var s := a + [c] + b;
    assert forall i :: 0 <= i < |a| ==> s[i] == a[i];
    assert s[|a|] == c;
  }

  lemma {:induction false} TrimLeftSpaces(a: string, s: string)
    requires forall i :: 0 <= i < |a| ==> IsSpace(a[i])
    ensures TrimLeft(a + s) == TrimLeft(s)
  {
    if a == "" {
      assert a + s == s;
    } else {
      assert (a + s)[1..] == a[1..] + s;
      TrimLeftSpaces(a[1..], s);
    }
  }

  /** Only what is between the spaces counts. */
  lemma TrimCore(a: string, core: string)
    requires (forall i :: 0 <= i < |a| ==> IsSpace(a[i])) && core != "" && !IsSpace(core[0])
    requires !IsSpace(core[|core| - 1])
    ensures TrimSpace(a + core) == core
  {
    TrimLeftSpaces(a, core);
  }

  predicate AllSpaces(s: string)
  {
    forall i :: 0 <= i < |s| ==> IsSpace(s[i])
  }

  /** Spaces, then the core, which neither begins nor ends with one, then spaces. */
  lemma {:induction false} TrimSpaceIs(s: string) returns (a: string, b: string)
    ensures s == a + TrimSpace(s) + b && AllSpaces(a) && AllSpaces(b)
    ensures var core := TrimSpace(s); core != "" ==> !IsSpace(core[0]) && !IsSpace(core[|core| - 1])
  {
    a := TrimLeftIs(s);
    b := TrimRightIs(TrimLeft(s));
  }

  lemma {:induction false} TrimLeftIs(s: string) returns (a: string)
    ensures s == a + TrimLeft(s) && AllSpaces(a)
    ensures TrimLeft(s) != "" ==> !IsSpace(TrimLeft(s)[0])
  {
    a := "";
    if s != "" && IsSpace(s[0]) {
      a := TrimLeftIs(s[1..]);
      a := [s[0]] + a;
    }
  }

  lemma {:induction false} TrimRightIs(s: string) returns (b: string)
    ensures s == TrimRight(s) + b && AllSpaces(b) && TrimRight(s) <= s
    ensures TrimRight(s) != "" ==> !IsSpace(TrimRight(s)[|TrimRight(s)| - 1])
  {
    b := "";
    if s != "" && IsSpace(s[|s| - 1]) {
      b := TrimRightIs(s[..|s| - 1]);
      b := b + [s[|s| - 1]];
    }
  }

  /** A space more at the end changes nothing. */
  lemma {:induction false} TrimEnd(s: string, c: char)
    requires IsSpace(c)
    ensures TrimSpace(s + [c]) == TrimSpace(s)
  {
    if s == "" {
      assert "" + [c] == [c] && [c][1..] == "";
    } else if IsSpace(s[0]) {
      assert (s + [c])[1..] == s[1..] + [c];
      TrimEnd(s[1..], c);
    } else {
      assert (s + [c])[..|s|] == s;
    }
  }

  /** Without the quotes at either end, however many. */
  function TrimQuotes(s: string): string
  {
    if s != "" && s[0] == '"' then TrimQuotes(s[1..])
    else if s != "" && s[|s| - 1] == '"' then TrimQuotes(s[..|s| - 1])
    else s
  }

  lemma QuotesOff(s: string)
    requires s != "" && s[0] != '"' && s[|s| - 1] != '"'
    ensures TrimQuotes("\"" + s + "\"") == s
  {
    var q, r := "\"" + s + "\"", s + "\"";
    assert q[1..] == r && r[..|r| - 1] == s;
    assert TrimQuotes(q) == TrimQuotes(r);
    assert TrimQuotes(r) == TrimQuotes(s);
  }

  /** The spaces and tabs a line begins with. */
  function Indent(line: string): string
  {
    if line != "" && (line[0] == ' ' || line[0] == '\t') then [line[0]] + Indent(line[1..]) else ""
  }

  lemma {:induction false} IndentIsSpace(line: string)
    ensures forall i :: 0 <= i < |Indent(line)| ==> IsSpace(Indent(line)[i]) && Indent(line)[i] != '\n'
    ensures Indent(line) <= line
  {
    if line != "" && (line[0] == ' ' || line[0] == '\t') {
      IndentIsSpace(line[1..]);
    }
  }

  lemma {:induction false} IndentOf(indent: string, rest: string)
    requires (forall i :: 0 <= i < |indent| ==> indent[i] == ' ' || indent[i] == '\t')
    requires rest == "" || (rest[0] != ' ' && rest[0] != '\t')
    ensures Indent(indent + rest) == indent
  {
    if indent == "" {
      assert indent + rest == rest;
    } else {
      assert (indent + rest)[1..] == indent[1..] + rest;
      IndentOf(indent[1..], rest);
    }
  }

  lemma {:induction false} IndentIsBlank(line: string)
    ensures forall i :: 0 <= i < |Indent(line)| ==> Indent(line)[i] == ' ' || Indent(line)[i] == '\t'
  {
    if line != "" && (line[0] == ' ' || line[0] == '\t') {
      IndentIsBlank(line[1..]);
    }
  }

  /** Case folding as far as it can tell a string from one that is plain ASCII. */
  function Fold(c: char): char
  {
    if 'A' <= c <= 'Z' then c - 'A' + 'a'
    else if c == '\U{017F}' then 's' else if c == '\U{212A}' then 'k' else c
  }

  predicate EqualFold(a: string, b: string)
  {
    |a| == |b| && forall i :: 0 <= i < |a| ==> Fold(a[i]) == Fold(b[i])
  }

  /** The same letter in either case, or one of the two others that fold to one. */
  predicate IsLetter(c: char, small: char)
  {
    c == small || c as int + 32 == small as int || (c == '\U{017F}' && small == 's')
      || (c == '\U{212A}' && small == 'k')
  }

  /** Against a name of ASCII characters: letter by letter in either case, and the other
      characters as they are. */
  lemma EqualFoldIff(key: string, name: string)
    requires forall i :: 0 <= i < |name| ==> name[i] < '\U{0080}'
    ensures EqualFold(key, name) <==>
      && |key| == |name|
      && forall i :: 0 <= i < |key| ==>
           || key[i] == name[i]
           || ('a' <= name[i] <= 'z' && IsLetter(key[i], name[i]))
           || ('A' <= name[i] <= 'Z' && IsLetter(key[i], (name[i] as int + 32) as char))
  {
  }
}
