/** Taking a folder out of Steam's list of library folders (internal/library/steam.go,
    DropLibraryFolder). */
module LibraryFolders {
  import opened Text
  import Titles

  // ---- Text

  function Join(lines: seq<string>): string
  {
    if lines == [] then "" else if |lines| == 1 then lines[0] else lines[0] + ("\n" + Join(lines[1..]))
  }

  function Split(data: string): (r: seq<string>)
    ensures r != []
    decreases |data|
  {
    var i := Index(data, '\n');
    if i == |data| then [data] else [data[..i]] + Split(data[i + 1..])
  }

  predicate At(s: string, t: string, i: nat)
  {
    i + |t| <= |s| && s[i..i + |t|] == t
  }

  ghost predicate Contains(s: string, t: string)
  {
    exists i: nat :: At(s, t, i)
  }

  function Count(s: string, c: char): nat
  {
    if s == "" then 0 else Count(s[..|s| - 1], c) + if s[|s| - 1] == c then 1 else 0
  }

  // ---- The list

  /** A line that is kept as it is, or a numbered entry with its block. */
  datatype Part = Plain(line: string) | Entry(line: string, body: seq<string>)

  /** A quoted number, alone on its line. */
  predicate Numbered(line: string)
  {
    var t := TrimSpace(line);
    t != "" && t[0] == '"' && Titles.ParseInt64(TrimQuotes(t)).Some?
  }

  predicate IsHeader(lines: seq<string>)
  {
    |lines| > 1 && Numbered(lines[0]) && TrimSpace(lines[1]) == "{"
  }

  function Braces(line: string): int
  {
    Count(line, '{') - Count(line, '}')
  }

  /** How many lines it takes until every brace is closed again. */
  function BlockLength(lines: seq<string>, depth: int): (n: nat)
    ensures n <= |lines| && (lines != [] ==> n > 0)
  {
    if lines == [] then 0
    else if depth + Braces(lines[0]) == 0 then 1
    else 1 + BlockLength(lines[1..], depth + Braces(lines[0]))
  }

  function Parts(lines: seq<string>): seq<Part>
    decreases |lines|
  {
    if lines == [] then []
    else if IsHeader(lines) then
      var n := BlockLength(lines[1..], 0);
      [Entry(lines[0], lines[1..][..n])] + Parts(lines[1..][n..])
    else [Plain(lines[0])] + Parts(lines[1..])
  }

  function LinesOf(p: Part): seq<string>
  {
    if p.Plain? then [p.line] else [p.line] + p.body
  }

  function AllLines(ps: seq<Part>): seq<string>
  {
    if ps == [] then [] else LinesOf(ps[0]) + AllLines(ps[1..])
  }

  function Quoted(path: string): string
  {
    "\"" + path + "\""
  }

  ghost predicate Names(p: Part, path: string)
  {
    p.Entry? && Contains(Join(LinesOf(p)), Quoted(path))
  }

  function Renumbered(line: string, n: nat): string
  {
    Indent(line) + "\"" + Titles.Itoa(n) + "\""
  }

  /** The list without the entries that name the path, the others numbered from `n` on. */
  ghost function Kept(ps: seq<Part>, path: string, n: nat): seq<Part>
  {
    if ps == [] then []
    else if ps[0].Plain? then [ps[0]] + Kept(ps[1..], path, n)
    else if Names(ps[0], path) then Kept(ps[1..], path, n)
    else [Entry(Renumbered(ps[0].line, n), ps[0].body)] + Kept(ps[1..], path, n + 1)
  }

  ghost predicate AnyNames(ps: seq<Part>, path: string)
  {
    exists i :: 0 <= i < |ps| && Names(ps[i], path)
  }

  ghost function Dropped(data: string, path: string): (string, bool)
  {
    if AnyNames(Parts(Split(data)), path) then (Join(AllLines(Kept(Parts(Split(data)), path, 0))), true)
    else (data, false)
  }

  // ---- The loop

  method CountBlock(lines: seq<string>, from: nat) returns (j: nat)
    requires from <= |lines|
    ensures j == from + BlockLength(lines[from..], 0) <= |lines|
  {
    var depth := 0;
    j := from;
    while j < |lines|
      invariant from <= j <= |lines|
      invariant from + BlockLength(lines[from..], 0) == j + BlockLength(lines[j..], depth)
    {
      assert lines[j..][1..] == lines[j + 1..];
      depth := depth + Braces(lines[j]);
      j := j + 1;
      if depth == 0 {
        return;
      }
    }
  }

  lemma FirstNames(p: Part, ps: seq<Part>, path: string)
    ensures AnyNames([p] + ps, path) <==> Names(p, path) || AnyNames(ps, path)
  {
    var all := [p] + ps;
    if Names(p, path) {
      assert Names(all[0], path);
    }
    if AnyNames(ps, path) {
      var i :| 0 <= i < |ps| && Names(ps[i], path);
      assert Names(all[i + 1], path);
    }
  }

  /** bytes.Contains and strings.Contains. */
  method Find(s: string, t: string) returns (found: bool)
    ensures found <==> Contains(s, t)
  {
    var i := 0;
    while i + |t| <= |s|
      invariant forall j: nat :: j < i ==> !At(s, t, j)
    {
      if s[i..i + |t|] == t {
        assert At(s, t, i);
        return true;
      }
      i := i + 1;
    }
    return false;
  }

  method DropLibraryFolder(existing: string, path: string) returns (text: string, dropped: bool)
    ensures (text, dropped) == Dropped(existing, path)
  {
    var there := Find(existing, Quoted(path));
    var lines := Split(existing);
    if !there {
      NowhereNamed(existing, path);
      return existing, false;
    }
    var out: seq<string>, blocks, i := [], 0, 0;
    dropped := false;
    GoesStart(lines, path);
    while i < |lines|
      invariant i <= |lines| && Goes(lines, path, i, out, blocks, dropped)
    {
      HeaderAt(lines, i);
      if i + 1 >= |lines| || !Numbered(lines[i]) || TrimSpace(lines[i + 1]) != "{" {
        PlainGoes(lines, path, i, out, blocks, dropped);
        out := out + [lines[i]];
        i := i + 1;
      } else {
        var j := CountBlock(lines, i + 1);
        var named := Find(Join(lines[i..j]), Quoted(path));
        EntryGoes(lines, path, i, j, out, blocks, dropped, named);
        if named {
          dropped := true;
        } else {
          out := out + ([Renumbered(lines[i], blocks)] + lines[i + 1..j]);
          blocks := blocks + 1;
        }
        i := j;
      }
    }
    GoesEnd(lines, path, out, blocks, dropped);
    text := if dropped then Join(out) else existing;
  }

  /** What is written so far and what the rest will come to make up the whole result. */
  ghost predicate Goes(lines: seq<string>, path: string, i: nat, out: seq<string>, n: nat, dropped: bool)
    requires i <= |lines|
  {
    var left := Parts(lines[i..]);
    && AllLines(Kept(Parts(lines), path, 0)) == out + AllLines(Kept(left, path, n))
    && (AnyNames(Parts(lines), path) <==> dropped || AnyNames(left, path))
  }

  lemma GoesStart(lines: seq<string>, path: string)
    ensures Goes(lines, path, 0, [], 0, false)
  {
    assert lines[0..] == lines;
  }

  lemma GoesEnd(lines: seq<string>, path: string, out: seq<string>, n: nat, dropped: bool)
    requires Goes(lines, path, |lines|, out, n, dropped)
    ensures out == AllLines(Kept(Parts(lines), path, 0)) && (dropped <==> AnyNames(Parts(lines), path))
  {
    assert lines[|lines|..] == [];
    assert out + [] == out;
  }

  lemma HeaderAt(lines: seq<string>, i: nat)
    requires i < |lines|
    ensures IsHeader(lines[i..]) <==> i + 1 < |lines| && Numbered(lines[i]) && TrimSpace(lines[i + 1]) == "{"
  {
  }

  lemma PlainGoes(lines: seq<string>, path: string, i: nat, out: seq<string>, n: nat, dropped: bool)
    requires i < |lines| && !IsHeader(lines[i..]) && Goes(lines, path, i, out, n, dropped)
    ensures Goes(lines, path, i + 1, out + [lines[i]], n, dropped)
  {
    var next := PlainNext(lines, i, Parts(lines[i..]));
    KeptPlain(lines[i], next, path, n, out);
  }

  lemma EntryGoes(lines: seq<string>, path: string, i: nat, j: nat, out: seq<string>, n: nat, dropped: bool,
                  named: bool)
    requires i < |lines| && IsHeader(lines[i..]) && Goes(lines, path, i, out, n, dropped)
    requires j == i + 1 + BlockLength(lines[i + 1..], 0) <= |lines|
    requires named <==> Contains(Join(lines[i..j]), Quoted(path))
    ensures if named then Goes(lines, path, j, out, n, true)
            else Goes(lines, path, j, out + ([Renumbered(lines[i], n)] + lines[i + 1..j]), n + 1, dropped)
  {
    var next := EntryKept(lines, i, j, Parts(lines[i..]), path, n, out, named);
  }

  /** The parts of what follows a line that is kept. */
  lemma PlainNext(lines: seq<string>, i: nat, left: seq<Part>) returns (next: seq<Part>)
    requires i < |lines| && !IsHeader(lines[i..]) && left == Parts(lines[i..])
    ensures left == [Plain(lines[i])] + next && next == Parts(lines[i + 1..])
  {
    assert lines[i..][1..] == lines[i + 1..];
    next := Parts(lines[i + 1..]);
  }

  /** The parts of what follows an entry. */
  lemma EntryNext(lines: seq<string>, i: nat, j: nat, left: seq<Part>) returns (next: seq<Part>)
    requires i < |lines| && IsHeader(lines[i..]) && left == Parts(lines[i..])
    requires j == i + 1 + BlockLength(lines[i + 1..], 0) <= |lines|
    ensures left == [Entry(lines[i], lines[i + 1..j])] + next && next == Parts(lines[j..])
    ensures LinesOf(Entry(lines[i], lines[i + 1..j])) == lines[i..j]
  {
    var all, rest := lines[i..], lines[i + 1..];
    assert all[1..] == rest && all[0] == lines[i];
    next := EntryPart(all, rest, j - i - 1);
    Slices(lines, i, j);
  }

  lemma Slices(lines: seq<string>, i: nat, j: nat)
    requires i < j <= |lines|
    ensures lines[i + 1..][..j - i - 1] == lines[i + 1..j] && lines[i + 1..][j - i - 1..] == lines[j..]
    ensures [lines[i]] + lines[i + 1..j] == lines[i..j]
  {
  }

  /** What an entry comes to, by whether it names the path. */
  lemma EntryKept(lines: seq<string>, i: nat, j: nat, left: seq<Part>, path: string, n: nat, out: seq<string>,
                  named: bool) returns (next: seq<Part>)
    requires i < |lines| && IsHeader(lines[i..]) && left == Parts(lines[i..])
    requires j == i + 1 + BlockLength(lines[i + 1..], 0) <= |lines|
    requires named <==> Contains(Join(lines[i..j]), Quoted(path))
    ensures next == Parts(lines[j..])
    ensures AnyNames(left, path) <==> named || AnyNames(next, path)
    ensures if named then Kept(left, path, n) == Kept(next, path, n)
            else out + AllLines(Kept(left, path, n))
                 == (out + ([Renumbered(lines[i], n)] + lines[i + 1..j])) + AllLines(Kept(next, path, n + 1))
  {
    next := EntryNext(lines, i, j, left);
    KeptEntry(Entry(lines[i], lines[i + 1..j]), next, path, n, out);
  }

  lemma EntryPart(all: seq<string>, rest: seq<string>, n: nat) returns (next: seq<Part>)
    requires IsHeader(all) && rest == all[1..] && n == BlockLength(rest, 0)
    ensures Parts(all) == [Entry(all[0], rest[..n])] + next && next == Parts(rest[n..])
  {
    next := Parts(rest[n..]);
  }

  lemma KeptPlain(line: string, rest: seq<Part>, path: string, n: nat, out: seq<string>)
    ensures out + AllLines(Kept([Plain(line)] + rest, path, n)) == (out + [line]) + AllLines(Kept(rest, path, n))
    ensures AnyNames([Plain(line)] + rest, path) <==> AnyNames(rest, path)
  {
    FirstNames(Plain(line), rest, path);
    assert ([Plain(line)] + rest)[1..] == rest;
    assert ([Plain(line)] + Kept(rest, path, n))[1..] == Kept(rest, path, n);
  }

  lemma KeptEntry(p: Part, rest: seq<Part>, path: string, n: nat, out: seq<string>)
    requires p.Entry?
    ensures AnyNames([p] + rest, path) <==> Names(p, path) || AnyNames(rest, path)
    ensures if Names(p, path) then Kept([p] + rest, path, n) == Kept(rest, path, n)
            else out + AllLines(Kept([p] + rest, path, n))
                 == (out + ([Renumbered(p.line, n)] + p.body)) + AllLines(Kept(rest, path, n + 1))
  {
    FirstNames(p, rest, path);
    assert ([p] + rest)[1..] == rest;
    if !Names(p, path) {
      var q, k := Entry(Renumbered(p.line, n), p.body), Kept(rest, path, n + 1);
      assert ([q] + k)[1..] == k;
      assert out + (LinesOf(q) + AllLines(k)) == (out + LinesOf(q)) + AllLines(k);
    }
  }

  // ---- A path named nowhere in the text is named by no entry

  lemma JoinFirst(line: string, lines: seq<string>)
    requires lines != []
    ensures Join([line] + lines) == line + ("\n" + Join(lines))
  {
    assert ([line] + lines)[1..] == lines;
  }

  lemma AtBreak(data: string, i: nat)
    requires i < |data| && data[i] == '\n'
    ensures data == data[..i] + ("\n" + data[i + 1..])
  {
  }

  lemma {:induction false} SplitJoin(data: string)
    ensures Join(Split(data)) == data
    decreases |data|
  {
    var i := Index(data, '\n');
    if i < |data| {
      var rest := data[i + 1..];
      SplitJoin(rest);
      JoinFirst(data[..i], Split(rest));
      AtBreak(data, i);
    }
  }

  lemma ContainsEnd(a: string, s: string, t: string)
    requires Contains(s, t)
    ensures Contains(a + s, t)
  {
    var i: nat :| At(s, t, i);
    assert (a + s)[|a| + i..|a| + i + |t|] == s[i..i + |t|];
    assert At(a + s, t, |a| + i);
  }

  lemma ContainsAfter(x: string, y: string, t: string)
    requires Contains(y, t)
    ensures Contains(x + ("\n" + y), t)
  {
    ContainsEnd("\n", y, t);
    ContainsEnd(x, "\n" + y, t);
  }

  lemma ContainsStart(s: string, b: string, t: string)
    requires Contains(s, t)
    ensures Contains(s + b, t)
  {
    var i: nat :| At(s, t, i);
    assert (s + b)[i..i + |t|] == s[i..i + |t|];
    assert At(s + b, t, i);
  }

  lemma {:induction false} JoinPrefix(a: seq<string>, b: seq<string>, t: string)
    requires a != [] && Contains(Join(a), t)
    ensures Contains(Join(a + b), t)
    decreases |a|
  {
    if b == [] {
      assert a + b == a;
    } else {
      JoinTwo(a, b);
      ContainsStart(Join(a), "\n" + Join(b), t);
    }
  }

  lemma {:induction false} JoinTwo(a: seq<string>, b: seq<string>)
    requires a != [] && b != []
    ensures Join(a + b) == Join(a) + ("\n" + Join(b))
    decreases |a|
  {
    assert (a + b)[1..] == a[1..] + b;
    if |a| == 1 {
      assert a[1..] + b == b;
    } else {
      JoinTwo(a[1..], b);
      assert a[0] + ("\n" + (Join(a[1..]) + ("\n" + Join(b)))) == (a[0] + ("\n" + Join(a[1..]))) + ("\n" + Join(b));
    }
  }

  lemma JoinSuffix(a: seq<string>, b: seq<string>, t: string)
    requires b != [] && Contains(Join(b), t)
    ensures Contains(Join(a + b), t)
  {
    if a == [] {
      assert a + b == b;
    } else {
      JoinTwo(a, b);
      ContainsAfter(Join(a), Join(b), t);
    }
  }

  lemma {:induction false} NamedSomewhere(lines: seq<string>, path: string)
    requires AnyNames(Parts(lines), path)
    ensures lines != [] && Contains(Join(lines), Quoted(path))
    decreases |lines|
  {
    assert lines[0..] == lines;
    if !IsHeader(lines) {
      var next := PlainNext(lines, 0, Parts(lines));
      FirstNames(Plain(lines[0]), next, path);
      NamedSomewhere(lines[1..], path);
      InTheRest(lines, 1, Quoted(path));
    } else {
      var j := 1 + BlockLength(lines[1..], 0);
      var next := EntryNext(lines, 0, j, Parts(lines));
      FirstNames(Entry(lines[0], lines[1..j]), next, path);
      if Names(Entry(lines[0], lines[1..j]), path) {
        assert lines[0..j] == lines[..j];
        InTheFront(lines, j, Quoted(path));
      } else {
        NamedSomewhere(lines[j..], path);
        InTheRest(lines, j, Quoted(path));
      }
    }
  }

  lemma InTheRest(lines: seq<string>, j: nat, t: string)
    requires j < |lines| && Contains(Join(lines[j..]), t)
    ensures Contains(Join(lines), t)
  {
    JoinSuffix(lines[..j], lines[j..], t);
    assert lines[..j] + lines[j..] == lines;
  }

  lemma InTheFront(lines: seq<string>, j: nat, t: string)
    requires 0 < j <= |lines| && Contains(Join(lines[..j]), t)
    ensures Contains(Join(lines), t)
  {
    JoinPrefix(lines[..j], lines[j..], t);
    assert lines[..j] + lines[j..] == lines;
  }

  lemma NowhereNamed(data: string, path: string)
    requires !Contains(data, Quoted(path))
    ensures !AnyNames(Parts(Split(data)), path)
  {
    SplitJoin(data);
    if AnyNames(Parts(Split(data)), path) {
      NamedSomewhere(Split(data), path);
    }
  }

  // ---- On a list that is well formed

  /** The block closes with its last line and no sooner. */
  predicate Balanced(body: seq<string>, depth: int)
  {
    body != [] && (depth + Braces(body[0]) == 0 <==> |body| == 1)
      && (|body| > 1 ==> Balanced(body[1..], depth + Braces(body[0])))
  }

  predicate WellFormedPart(p: Part)
  {
    if p.Plain? then !Numbered(p.line)
    else Numbered(p.line) && Balanced(p.body, 0) && TrimSpace(p.body[0]) == "{"
  }

  predicate OneLine(s: string)
  {
    forall i :: 0 <= i < |s| ==> s[i] != '\n'
  }

  predicate OneLineEach(p: Part)
  {
    OneLine(p.line) && (p.Entry? ==> forall i :: 0 <= i < |p.body| ==> OneLine(p.body[i]))
  }

  /** Numbered entries with their blocks, and lines that are no number, one line each. */
  predicate WellFormed(ps: seq<Part>)
  {
    forall i :: 0 <= i < |ps| ==> WellFormedPart(ps[i]) && OneLineEach(ps[i])
  }

  lemma {:induction false} BalancedLength(body: seq<string>, rest: seq<string>, depth: int)
    requires Balanced(body, depth)
    ensures BlockLength(body + rest, depth) == |body|
    decreases |body|
  {
    assert (body + rest)[0] == body[0] && (body + rest)[1..] == body[1..] + rest;
    if |body| > 1 {
      BalancedLength(body[1..], rest, depth + Braces(body[0]));
    }
  }

  lemma PlainFirst(line: string, rest: seq<string>)
    requires !Numbered(line)
    ensures Parts([line] + rest) == [Plain(line)] + Parts(rest)
  {
    assert ([line] + rest)[1..] == rest;
  }

  lemma EntryFirst(p: Part, rest: seq<string>)
    requires p.Entry? && WellFormedPart(p)
    ensures Parts(([p.line] + p.body) + rest) == [p] + Parts(rest)
  {
    var all, after := ([p.line] + p.body) + rest, p.body + rest;
    assert all[0] == p.line && all[1] == p.body[0] && all[1..] == after;
    BalancedLength(p.body, rest, 0);
    var next := EntryPart(all, after, |p.body|);
    assert after[..|p.body|] == p.body && after[|p.body|..] == rest;
  }

  lemma PartFirst(p: Part, rest: seq<string>)
    requires WellFormedPart(p)
    ensures Parts(LinesOf(p) + rest) == [p] + Parts(rest)
  {
    if p.Plain? {
      PlainFirst(p.line, rest);
    } else {
      EntryFirst(p, rest);
    }
  }

  /** The parts of a well-formed list are the parts it was made of. */
  lemma {:induction false} PartsOf(ps: seq<Part>)
    requires WellFormed(ps)
    ensures Parts(AllLines(ps)) == ps
    decreases |ps|
  {
    if ps != [] {
      var p, rest := ps[0], ps[1..];
      assert ps == [p] + rest;
      WellFormedMore(p, rest);
      PartsOf(rest);
      PartFirst(p, AllLines(rest));
    }
  }

  lemma SplitFirst(line: string, rest: string)
    requires OneLine(line)
    ensures Split(line + ("\n" + rest)) == [line] + Split(rest)
  {
    var data := line + ['\n'] + rest;
    assert line + ("\n" + rest) == data;
    IndexAt(line, '\n', rest);
    assert data[..|line|] == line && data[|line| + 1..] == rest;
  }

  predicate AllOneLine(lines: seq<string>)
  {
    forall i :: 0 <= i < |lines| ==> OneLine(lines[i])
  }

  lemma SplitLast(line: string)
    requires OneLine(line)
    ensures Split(line) == [line]
  {
  }

  lemma {:induction false} JoinSplit(lines: seq<string>)
    requires lines != [] && AllOneLine(lines)
    ensures Split(Join(lines)) == lines
    decreases |lines|
  {
    var line, rest := lines[0], lines[1..];
    assert OneLine(line) && lines == [line] + rest;
    if rest == [] {
      SplitLast(line);
    } else {
      JoinSplit(rest);
      SplitFirst(line, Join(rest));
    }
  }

  lemma {:induction false} LinesAreOne(ps: seq<Part>)
    requires forall i :: 0 <= i < |ps| ==> OneLineEach(ps[i])
    ensures AllOneLine(AllLines(ps))
    ensures ps != [] ==> AllLines(ps) != []
  {
    if ps != [] {
      LinesAreOne(ps[1..]);
      assert OneLineEach(ps[0]) && AllOneLine(LinesOf(ps[0]));
    }
  }

  lemma ReadsBack(ps: seq<Part>)
    requires WellFormed(ps) && ps != []
    ensures Parts(Split(Join(AllLines(ps)))) == ps
  {
    LinesAreOne(ps);
    JoinSplit(AllLines(ps));
    PartsOf(ps);
  }

  // ---- Numbers

  lemma ItoaParses(n: nat)
    requires n <= Titles.INT64_MAX
    ensures Titles.ParseInt64(Titles.Itoa(n)).Some?
    ensures Titles.Itoa(n) != "" && Titles.Itoa(n)[0] != '"' && Titles.Itoa(n)[|Titles.Itoa(n)| - 1] != '"'
    ensures OneLine(Titles.Itoa(n))
  {
    Titles.ItoaReads(n);
    assert Titles.IsDigit(Titles.Itoa(n)[0]) && Titles.IsDigit(Titles.Itoa(n)[|Titles.Itoa(n)| - 1]);
    assert forall k :: 0 <= k < |Titles.Itoa(n)| ==> Titles.IsDigit(Titles.Itoa(n)[k]);
  }

  lemma RenumberedIsNumbered(line: string, n: nat)
    requires n <= Titles.INT64_MAX
    ensures Numbered(Renumbered(line, n))
    ensures TrimQuotes(TrimSpace(Renumbered(line, n))) == Titles.Itoa(n)
    ensures OneLine(line) ==> OneLine(Renumbered(line, n))
  {
    var i, core := Indent(line), Quoted(Titles.Itoa(n));
    IndentIsSpace(line);
    ItoaParses(n);
    RenumberedText(line, n);
    TrimCore(i, core);
    QuotesOff(Titles.Itoa(n));
    NumberedIs(Renumbered(line, n), core, Titles.Itoa(n));
    assert OneLine(i);
    OneLineJoined(i, core, Titles.Itoa(n));
  }

  lemma RenumberedText(line: string, n: nat)
    ensures Renumbered(line, n) == Indent(line) + Quoted(Titles.Itoa(n))
  {
    var i, v := Indent(line), Titles.Itoa(n);
    assert i + "\"" + v + "\"" == i + ("\"" + v + "\"");
  }

  lemma NumberedIs(line: string, core: string, v: string)
    requires TrimSpace(line) == core && core != "" && core[0] == '"' && TrimQuotes(core) == v
    requires Titles.ParseInt64(v).Some?
    ensures Numbered(line)
  {
  }

  lemma OneLineJoined(i: string, core: string, v: string)
    requires core == Quoted(v) && OneLine(v)
    ensures OneLine(i) ==> OneLine(i + core)
  {
    assert OneLine(core) by {
      forall k | 0 <= k < |core|
        ensures core[k] != '\n'
      {
        assert 0 < k < |core| - 1 ==> core[k] == v[k - 1];
      }
    }
  }

  // ---- What is left

  function Entries(ps: seq<Part>): seq<Part>
  {
    if ps == [] then [] else (if ps[0].Entry? then [ps[0]] else []) + Entries(ps[1..])
  }

  function Others(ps: seq<Part>): seq<Part>
  {
    if ps == [] then [] else (if ps[0].Plain? then [ps[0]] else []) + Others(ps[1..])
  }

  /** The entries that do not name the path, in order. */
  ghost function Spared(ps: seq<Part>, path: string): seq<Part>
  {
    if ps == [] then []
    else (if ps[0].Entry? && !Names(ps[0], path) then [ps[0]] else []) + Spared(ps[1..], path)
  }

  function Renumber(p: Part, n: nat): Part
  {
    if p.Entry? then Entry(Renumbered(p.line, n), p.body) else p
  }

  /** Numbered one after the other, from `n` on. */
  function RenumberAll(es: seq<Part>, n: nat): (r: seq<Part>)
    ensures |r| == |es| && forall k :: 0 <= k < |es| ==> r[k] == Renumber(es[k], n + k)
  {
    seq(|es|, k requires 0 <= k < |es| => Renumber(es[k], n + k))
  }

  lemma RenumberFirst(e: Part, es: seq<Part>, n: nat)
    ensures RenumberAll([e] + es, n) == [Renumber(e, n)] + RenumberAll(es, n + 1)
  {
  }

  lemma KeptFirst(p: Part, ps: seq<Part>, path: string, n: nat)
    ensures Kept([p] + ps, path, n)
      == if p.Plain? then [p] + Kept(ps, path, n)
         else if Names(p, path) then Kept(ps, path, n) else [Renumber(p, n)] + Kept(ps, path, n + 1)
    ensures Spared([p] + ps, path) == (if p.Entry? && !Names(p, path) then [p] else []) + Spared(ps, path)
  {
    assert ([p] + ps)[1..] == ps;
  }

  /** The k-th entry left is the k-th that was spared, with the number k (from `n`), its
      block and its indentation; every other line is where it was. */
  lemma {:induction false} KeptIs(ps: seq<Part>, path: string, n: nat)
    ensures Others(Kept(ps, path, n)) == Others(ps)
    ensures Entries(Kept(ps, path, n)) == RenumberAll(Spared(ps, path), n)
    decreases |ps|
  {
    if ps != [] {
      var p, rest := ps[0], ps[1..];
      assert ps == [p] + rest;
      KeptFirst(p, rest, path, n);
      FirstPart(p, rest);
      if p.Entry? && !Names(p, path) {
        KeptIs(rest, path, n + 1);
        FirstPart(Renumber(p, n), Kept(rest, path, n + 1));
        RenumberFirst(p, Spared(rest, path), n);
      } else {
        KeptIs(rest, path, n);
        FirstPart(p, Kept(rest, path, n));
        assert [] + Spared(rest, path) == Spared(rest, path);
      }
    }
  }

  lemma FirstPart(p: Part, ps: seq<Part>)
    ensures Entries([p] + ps) == (if p.Entry? then [p] else []) + Entries(ps)
    ensures Others([p] + ps) == (if p.Plain? then [p] else []) + Others(ps)
  {
    assert ([p] + ps)[1..] == ps;
  }

  lemma WellFormedMore(p: Part, ps: seq<Part>)
    ensures WellFormed([p] + ps) <==> WellFormedPart(p) && OneLineEach(p) && WellFormed(ps)
  {
    var all := [p] + ps;
    if WellFormed(all) {
      assert WellFormedPart(all[0]) && OneLineEach(all[0]);
      forall i | 0 <= i < |ps| ensures WellFormedPart(ps[i]) && OneLineEach(ps[i]) {
        assert all[i + 1] == ps[i];
      }
    }
  }

  lemma RenumberWell(p: Part, n: nat)
    requires WellFormedPart(p) && OneLineEach(p) && n <= Titles.INT64_MAX
    ensures WellFormedPart(Renumber(p, n)) && OneLineEach(Renumber(p, n))
  {
    if p.Entry? {
      RenumberedIsNumbered(p.line, n);
    }
  }

  lemma SparedWell(ps: seq<Part>, path: string, n: nat)
    requires ps != [] && ps[0].Entry? && !Names(ps[0], path) && WellFormedPart(ps[0]) && OneLineEach(ps[0])
    requires n <= Titles.INT64_MAX
    requires WellFormed(Kept(ps[1..], path, n + 1))
    ensures WellFormed(Kept(ps, path, n))
  {
    RenumberWell(ps[0], n);
    WellFormedMore(Renumber(ps[0], n), Kept(ps[1..], path, n + 1));
  }

  lemma OtherWell(ps: seq<Part>, path: string, n: nat)
    requires ps != [] && (ps[0].Plain? || Names(ps[0], path)) && WellFormedPart(ps[0]) && OneLineEach(ps[0])
    requires WellFormed(Kept(ps[1..], path, n))
    ensures WellFormed(Kept(ps, path, n))
  {
    WellFormedMore(ps[0], Kept(ps[1..], path, n));
  }

  lemma WellFormedRest(ps: seq<Part>)
    requires WellFormed(ps) && ps != []
    ensures WellFormedPart(ps[0]) && OneLineEach(ps[0]) && WellFormed(ps[1..])
  {
    WellFormedMore(ps[0], ps[1..]);
    assert ps == [ps[0]] + ps[1..];
  }

  ghost function NextNumber(p: Part, path: string, n: nat): nat
  {
    if p.Entry? && !Names(p, path) then n + 1 else n
  }

  lemma KeptStep(ps: seq<Part>, path: string, n: nat)
    requires ps != [] && WellFormedPart(ps[0]) && OneLineEach(ps[0]) && n <= Titles.INT64_MAX
    requires WellFormed(Kept(ps[1..], path, NextNumber(ps[0], path, n)))
    ensures WellFormed(Kept(ps, path, n))
  {
    if ps[0].Entry? && !Names(ps[0], path) {
      SparedWell(ps, path, n);
    } else {
      OtherWell(ps, path, n);
    }
  }

  lemma {:induction false} KeptWellFormed(ps: seq<Part>, path: string, n: nat)
    requires WellFormed(ps) && n + |ps| <= Titles.INT64_MAX
    ensures WellFormed(Kept(ps, path, n))
    decreases |ps|
  {
    if ps != [] {
      WellFormedRest(ps);
      KeptWellFormed(ps[1..], path, NextNumber(ps[0], path, n));
      KeptStep(ps, path, n);
    }
  }

  /** On the text of a well-formed list the edit is the edit of the list: the entries that
      name the path go, the others are numbered 0, 1, 2 ... in their order, and what is
      written reads back as just that list; if none names it, nothing changes. */
  lemma DropIsFilter(ps: seq<Part>, path: string)
    requires WellFormed(ps) && Others(ps) != [] && |ps| <= Titles.INT64_MAX
    ensures var (text, changed) := Dropped(Join(AllLines(ps)), path);
      && (changed <==> AnyNames(ps, path))
      && (if changed then text == Join(AllLines(Kept(ps, path, 0))) && Parts(Split(text)) == Kept(ps, path, 0)
          else text == Join(AllLines(ps)))
  {
    ReadsBack(ps);
    KeptIs(ps, path, 0);
    KeptWellFormed(ps, path, 0);
    ReadsBack(Kept(ps, path, 0));
  }

  // ---- Twice

  lemma BreakInside(a: string, b: string, t: string, i: nat)
    requires At(a + ("\n" + b), t, i) && i <= |a| < i + |t|
    ensures t[|a| - i] == '\n'
  {
    var s := a + ("\n" + b);
    assert s[i..i + |t|][|a| - i] == s[|a|];
  }

  lemma NotAcross(a: string, b: string, t: string, i: nat)
    requires OneLine(t) && At(a + ("\n" + b), t, i)
    ensures i + |t| <= |a| || i > |a|
  {
    if i <= |a| < i + |t| {
      BreakInside(a, b, t, i);
    }
  }

  /** Text that is one line is in no two lines at once. */
  lemma OneOrTheOther(a: string, b: string, t: string)
    requires OneLine(t) && Contains(a + ("\n" + b), t)
    ensures Contains(a, t) || Contains(b, t)
  {
    var s := a + ("\n" + b);
    var i: nat :| At(s, t, i);
    NotAcross(a, b, t, i);
    if i + |t| <= |a| {
      assert a[i..i + |t|] == s[i..i + |t|];
      assert At(a, t, i);
    } else {
      assert b[i - |a| - 1..i - |a| - 1 + |t|] == s[i..i + |t|];
      assert At(b, t, i - |a| - 1);
    }
  }

  lemma {:induction false} InSomeLine(lines: seq<string>, t: string)
    requires OneLine(t) && lines != []
    ensures Contains(Join(lines), t) <==> exists i :: 0 <= i < |lines| && Contains(lines[i], t)
    decreases |lines|
  {
    if |lines| > 1 {
      var rest := lines[1..];
      InSomeLine(rest, t);
      if Contains(Join(lines), t) {
        OneOrTheOther(lines[0], Join(rest), t);
        if Contains(Join(rest), t) {
          var i :| 0 <= i < |rest| && Contains(rest[i], t);
          assert Contains(lines[i + 1], t);
        }
      }
      if i :| 0 <= i < |lines| && Contains(lines[i], t) {
        if i == 0 {
          ContainsStart(lines[0], "\n" + Join(rest), t);
        } else {
          assert Contains(rest[i - 1], t);
          ContainsAfter(lines[0], Join(rest), t);
        }
      }
    }
  }

  predicate NoQuote(s: string)
  {
    forall i :: 0 <= i < |s| ==> s[i] != '"'
  }

  /** Where there are two quotes only, what is quoted is between them. */
  lemma OnlyMatch(i: string, d: string, path: string)
    requires NoQuote(i) && NoQuote(d) && Contains(i + Quoted(d), Quoted(path))
    ensures path == d
  {
    var s, t := i + Quoted(d), Quoted(path);
    var at: nat :| At(s, t, at);
    assert t[0] == s[at] && t[|t| - 1] == s[at + |t| - 1];
    QuotePlaces(i, d, at);
    QuotePlaces(i, d, at + |t| - 1);
    assert at == |i| && |t| == |d| + 2;
    assert s[|i| + 1..|s| - 1] == d;
    assert t[1..|t| - 1] == s[at..at + |t|][1..|t| - 1] == s[|i| + 1..|s| - 1];
    assert t[1..|t| - 1] == path;
  }

  lemma QuotePlaces(i: string, d: string, k: nat)
    requires NoQuote(i) && NoQuote(d) && k < |i + Quoted(d)| && (i + Quoted(d))[k] == '"'
    ensures k == |i| || k == |i| + |d| + 1
  {
  }

  /** A numbered line holds no quoted path but its number. */
  lemma NumberOnly(line: string, n: nat, path: string)
    requires Contains(Renumbered(line, n), Quoted(path))
    ensures path == Titles.Itoa(n)
  {
    IndentIsBlank(line);
    Titles.ItoaReads(n);
    assert NoQuote(Titles.Itoa(n)) by {
      assert forall k :: 0 <= k < |Titles.Itoa(n)| ==> Titles.IsDigit(Titles.Itoa(n)[k]);
    }
    assert Renumbered(line, n) == Indent(line) + Quoted(Titles.Itoa(n));
    OnlyMatch(Indent(line), Titles.Itoa(n), path);
  }

  lemma SparedStays(p: Part, n: nat, path: string)
    requires p.Entry? && !Names(p, path) && OneLine(path) && !Titles.Numeric(path)
    ensures !Names(Renumber(p, n), path)
  {
    var t, q := Quoted(path), Renumber(p, n);
    InSomeLine(LinesOf(p), t);
    InSomeLine(LinesOf(q), t);
    if Names(q, path) {
      var i :| 0 <= i < |LinesOf(q)| && Contains(LinesOf(q)[i], t);
      if i == 0 {
        NumberOnly(p.line, n, path);
        Titles.ItoaReads(n);
      }
    }
  }

  lemma {:induction false} NoneLeft(ps: seq<Part>, path: string, n: nat)
    requires OneLine(path) && !Titles.Numeric(path)
    ensures !AnyNames(Kept(ps, path, n), path)
    decreases |ps|
  {
    if ps != [] {
      var p, rest := ps[0], ps[1..];
      assert ps == [p] + rest;
      KeptFirst(p, rest, path, n);
      if p.Entry? && !Names(p, path) {
        NoneLeft(rest, path, n + 1);
        SparedStays(p, n, path);
        FirstNames(Renumber(p, n), Kept(rest, path, n + 1), path);
      } else {
        NoneLeft(rest, path, n);
        FirstNames(p, Kept(rest, path, n), path);
      }
    }
  }

  /** A second call finds nothing more to take out, for a path that is one line and no bare
      number. */
  lemma DropTwice(ps: seq<Part>, path: string)
    requires WellFormed(ps) && Others(ps) != [] && |ps| <= Titles.INT64_MAX
    requires OneLine(path) && !Titles.Numeric(path)
    ensures var (text, _) := Dropped(Join(AllLines(ps)), path); Dropped(text, path) == (text, false)
  {
    DropIsFilter(ps, path);
    NoneLeft(ps, path, 0);
    ReadsBack(ps);
  }
}
