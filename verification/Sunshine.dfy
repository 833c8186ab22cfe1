/** The line a desktop game is started with, and what Sunshine makes of it
    (internal/seat/desktopgames.go, sunshineCommand). */
module Sunshine {

  // ---- Printing

  predicate Holds(word: string, c: char)
  {
    exists i :: 0 <= i < |word| && word[i] == c
  }

  /** Every `$` twice. */
  function Doubled(word: string): string
  {
    if word == "" then "" else (if word[0] == '$' then "$$" else [word[0]]) + Doubled(word[1..])
  }

  function Printed(word: string): string
  {
    var w := Doubled(word);
    if w == "" || Holds(w, ' ') then "\"" + w + "\"" else w
  }

  function Joined(words: seq<string>): string
  {
    if words == [] then ""
    else if |words| == 1 then words[0]
    else Joined(words[..|words| - 1]) + " " + words[|words| - 1]
  }

  function AllPrinted(argv: seq<string>): (r: seq<string>)
    ensures |r| == |argv|
  {
    seq(|argv|, i requires 0 <= i < |argv| => Printed(argv[i]))
  }

  predicate Writable(argv: seq<string>)
  {
    argv != [] && forall i :: 0 <= i < |argv| ==> !Holds(argv[i], '"')
  }

  /** sunshineCommand: false for a command with a quote in a word, and for none at all. */
  method SunshineCommand(argv: seq<string>) returns (line: string, ok: bool)
    ensures ok <==> Writable(argv)
    ensures ok <==> argv != [] && forall i :: 0 <= i < |argv| ==> '"' !in argv[i]
    ensures ok ==> line == Joined(AllPrinted(argv))
    ensures !ok ==> line == ""
  {
    var words: seq<string> := [];
    var i := 0;
    while i < |argv|
      invariant i <= |argv|
      invariant words == AllPrinted(argv[..i])
      invariant forall j :: 0 <= j < i ==> !Holds(argv[j], '"')
    {
      var word := argv[i];
      if Holds(word, '"') {
        return "", false;
      }
      word := Doubled(word);
      if word == "" || Holds(word, ' ') {
        word := "\"" + word + "\"";
      }
      words := words + [word];
      assert argv[..i + 1] == argv[..i] + [argv[i]];
      i := i + 1;
    }
    assert argv[..i] == argv;
    return Joined(words), |words| > 0;
  }

  // ---- Reading

  /** Sunshine's own expansion: `$$` is a dollar, `$(NAME)` what the name stands for. */
  function Expand(line: string, env: string -> string): string
    decreases |line|
  {
    if line == "" then ""
    else if line[0] == '$' && |line| > 1 && line[1] == '$' then "$" + Expand(line[2..], env)
    else if line[0] == '$' && |line| > 1 && line[1] == '(' && Close(line) < |line| then
      env(line[2..Close(line)]) + Expand(line[Close(line) + 1..], env)
    else [line[0]] + Expand(line[1..], env)
  }

  /** The first closing parenthesis from the third character on. */
  function Close(line: string): (i: nat)
    requires |line| >= 2
    ensures 2 <= i
  {
    CloseFrom(line, 2)
  }

  function CloseFrom(line: string, i: nat): (r: nat)
    ensures i <= r
    decreases |line| - i
  {
    if i >= |line| || line[i] == ')' then i else CloseFrom(line, i + 1)
  }

  /** Boost.Process: the pieces between the spaces that are outside quotes, where every
      quote counts. */
  function Pieces(line: string, quoted: bool, piece: string): seq<string>
    decreases |line|
  {
    if line == "" then (if piece == "" then [] else [piece])
    else if line[0] == ' ' && !quoted then
      (if piece == "" then [] else [piece]) + Pieces(line[1..], false, "")
    else Pieces(line[1..], if line[0] == '"' then !quoted else quoted, piece + [line[0]])
  }

  /** Quotes that surround a whole word are not part of it. */
  function Stripped(word: string): string
  {
    if |word| >= 2 && word[0] == '"' && word[|word| - 1] == '"' then word[1..|word| - 1] else word
  }

  function AllStripped(words: seq<string>): (r: seq<string>)
    ensures |r| == |words|
  {
    seq(|words|, i requires 0 <= i < |words| => Stripped(words[i]))
  }

  /** The command Sunshine starts. */
  function Started(line: string, env: string -> string): seq<string>
  {
    AllStripped(Pieces(Expand(line, env), false, ""))
  }

  // ---- What is printed is what is started

  lemma {:induction false} ExpandDoubled(word: string, rest: string, env: string -> string)
    ensures Expand(Doubled(word) + rest, env) == word + Expand(rest, env)
  {
    if word == "" {
      assert Doubled(word) + rest == rest;
    } else {
      var tail := Doubled(word[1..]) + rest;
      ExpandDoubled(word[1..], rest, env);
      assert word == [word[0]] + word[1..];
      if word[0] == '$' {
        assert Doubled(word) + rest == "$$" + tail;
        ExpandDollar(tail, env);
      } else {
        assert Doubled(word) + rest == [word[0]] + tail;
        ExpandOne(word[0], tail, env);
      }
    }
  }

  lemma ExpandDollar(rest: string, env: string -> string)
    ensures Expand("$$" + rest, env) == "$" + Expand(rest, env)
  {
    assert ("$$" + rest)[2..] == rest;
  }

  lemma ExpandOne(c: char, rest: string, env: string -> string)
    requires c != '$'
    ensures Expand([c] + rest, env) == [c] + Expand(rest, env)
  {
    assert ([c] + rest)[1..] == rest;
  }

  /** Doubling adds no space and no quote, and takes none away. */
  lemma {:induction false} DoubledHolds(word: string, c: char)
    requires c != '$'
    ensures Holds(Doubled(word), c) <==> Holds(word, c)
    ensures Doubled(word) == "" <==> word == ""
  {
    if word != "" {
      var head, tail := if word[0] == '$' then "$$" else [word[0]], Doubled(word[1..]);
      DoubledHolds(word[1..], c);
      assert forall i :: 0 <= i < |head| ==> head[i] == word[0];
      HoldsJoin(head, tail, c);
      HoldsJoin([word[0]], word[1..], c);
      assert word == [word[0]] + word[1..];
      assert head[0] == word[0] && [word[0]][0] == word[0];
      assert Holds(head, c) <==> word[0] == c;
      assert Holds([word[0]], c) <==> word[0] == c;
    }
  }

  lemma HoldsJoin(a: string, b: string, c: char)
    ensures Holds(a + b, c) <==> Holds(a, c) || Holds(b, c)
  {
    if Holds(a, c) {
      var i :| 0 <= i < |a| && a[i] == c;
      assert (a + b)[i] == c;
    }
    if Holds(b, c) {
      var i :| 0 <= i < |b| && b[i] == c;
      assert (a + b)[|a| + i] == c;
    }
  }

  /** What is to come out of the pieces: the word itself, or the word in quotes. */
  function Shown(word: string): string
  {
    if word == "" || Holds(word, ' ') then "\"" + word + "\"" else word
  }

  lemma QuoteGlue(w: string, rest: string)
    ensures ("\"" + w + "\"") + rest == ['"'] + (w + (['"'] + rest))
  {
  }

  lemma ExpandQuoted(word: string, rest: string, env: string -> string)
    ensures Expand(("\"" + Doubled(word) + "\"") + rest, env) == ("\"" + word + "\"") + Expand(rest, env)
  {
    var end := ['"'] + rest;
    QuoteGlue(Doubled(word), rest);
    ExpandOne('"', Doubled(word) + end, env);
    ExpandDoubled(word, end, env);
    ExpandOne('"', rest, env);
    QuoteGlue(word, Expand(rest, env));
  }

  lemma ExpandPrinted(word: string, rest: string, env: string -> string)
    ensures Expand(Printed(word) + rest, env) == Shown(word) + Expand(rest, env)
  {
    DoubledHolds(word, ' ');
    if word == "" || Holds(word, ' ') {
      ExpandQuoted(word, rest, env);
    } else {
      ExpandDoubled(word, rest, env);
    }
  }

  /** Characters that are no quote, and no space where spaces split, all join the piece. */
  lemma {:induction false} PiecesThrough(s: string, rest: string, quoted: bool, piece: string)
    requires !Holds(s, '"') && (quoted || !Holds(s, ' '))
    ensures Pieces(s + rest, quoted, piece) == Pieces(rest, quoted, piece + s)
    decreases |s|
  {
    if s == "" {
      assert s + rest == rest && piece + s == piece;
    } else {
      assert s[0] != '"' && (quoted || s[0] != ' ');
      assert (s + rest)[1..] == s[1..] + rest;
      assert piece + [s[0]] + s[1..] == piece + s;
      forall c | Holds(s[1..], c) ensures Holds(s, c) {
        var i :| 0 <= i < |s[1..]| && s[1..][i] == c;
        assert s[i + 1] == c;
      }
      PiecesThrough(s[1..], rest, quoted, piece + [s[0]]);
    }
  }

  /** A printed word is one piece, up to the end of the line or the space after it. */
  lemma PieceIs(word: string, rest: string)
    requires !Holds(word, '"') && (rest == "" || rest[0] == ' ')
    ensures Pieces(Shown(word) + rest, false, "")
      == [Shown(word)] + Pieces(if rest == "" then "" else rest[1..], false, "")
  {
    if word == "" || Holds(word, ' ') {
      var tail := word + ("\"" + rest);
      assert Shown(word) + rest == ['"'] + tail;
      assert (['"'] + tail)[1..] == tail;
      assert "" + ['"'] == "\"";
      assert Pieces(['"'] + tail, false, "") == Pieces(tail, true, "" + ['"']);
      PiecesThrough(word, "\"" + rest, true, "\"");
      assert ("\"" + rest)[1..] == rest;
      assert "\"" + word + ['"'] == Shown(word);
    } else {
      PiecesThrough(word, rest, false, "");
      assert "" + word == word;
    }
  }

  lemma {:induction false} JoinedFirst(words: seq<string>)
    requires |words| > 1
    ensures Joined(words) == words[0] + (" " + Joined(words[1..]))
    decreases |words|
  {
    var n := |words| - 1;
    if n > 1 {
      JoinedFirst(words[..n]);
      assert words[..n][1..] == words[1..][..n - 1];
    } else {
      assert words[..1][0] == words[0] && words[1..][0] == words[1];
    }
  }

  lemma StrippedShown(word: string)
    requires !Holds(word, '"')
    ensures Stripped(Shown(word)) == word
  {
    if !(word == "" || Holds(word, ' ')) {
      assert word[0] != '"';
    }
  }

  lemma StartsOne(word: string, env: string -> string)
    requires !Holds(word, '"')
    ensures Started(Printed(word), env) == [word]
  {
    assert Printed(word) + "" == Printed(word);
    ExpandPrinted(word, "", env);
    assert Shown(word) + "" == Shown(word);
    PieceIs(word, "");
    StrippedShown(word);
  }

  lemma StartsMore(word: string, rest: string, env: string -> string)
    requires !Holds(word, '"')
    ensures Started(Printed(word) + (" " + rest), env) == [word] + Started(rest, env)
  {
    ExpandPrinted(word, " " + rest, env);
    ExpandOne(' ', rest, env);
    var e := Expand(rest, env);
    PieceIs(word, " " + e);
    assert (" " + e)[1..] == e;
    StrippedShown(word);
    var p := Pieces(e, false, "");
    assert AllStripped([Shown(word)] + p) == [Stripped(Shown(word))] + AllStripped(p);
  }

  /** For every command that can be written, Sunshine starts that command, whatever its
      environment says. */
  lemma {:induction false} StartsWhatWasMeant(argv: seq<string>, env: string -> string)
    requires Writable(argv)
    ensures Started(Joined(AllPrinted(argv)), env) == argv
    decreases |argv|
  {
    var words := AllPrinted(argv);
    if |argv| == 1 {
      StartsOne(argv[0], env);
    } else {
      JoinedFirst(words);
      assert AllPrinted(argv[1..]) == words[1..];
      StartsWhatWasMeant(argv[1..], env);
      StartsMore(argv[0], Joined(words[1..]), env);
      assert argv == [argv[0]] + argv[1..];
    }
  }

  /** So distinct commands are written as distinct lines. */
  lemma LinesAreDistinct(argv: seq<string>, other: seq<string>)
    requires Writable(argv) && Writable(other) && Joined(AllPrinted(argv)) == Joined(AllPrinted(other))
    ensures argv == other
  {
    StartsWhatWasMeant(argv, name => "");
    StartsWhatWasMeant(other, name => "");
  }
}
