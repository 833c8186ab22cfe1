/** Taking a folder out of the list as Steam writes it, file for file (internal/library/steam.go,
    DropLibraryFolder). */
module SteamFolders {
  import opened LibraryFolders
  import opened Text
  import Titles

  /** One library folder and the titles installed there. */
  datatype Folder = Folder(path: string, apps: seq<string>)

  /** The lines of the n-th folder, as Steam writes them. */
  function BlockOf(f: Folder): seq<string>
  {
    ["\t{", "\t\t\"path\"\t\t\"" + f.path + "\"", "\t\t\"apps\"", "\t\t{"]
    + AppLines(f.apps) + ["\t\t}", "\t}"]
  }

  function AppLine(app: string): string
  {
    "\t\t\t\"" + app + "\"\t\t\"0\""
  }

  function AppLines(apps: seq<string>): (r: seq<string>)
    ensures |r| == |apps|
  {
    if apps == [] then [] else [AppLine(apps[0])] + AppLines(apps[1..])
  }

  function FolderLines(fs: seq<Folder>, n: nat): seq<string>
  {
    if fs == [] then [] else ["\t\"" + Titles.Itoa(n) + "\""] + BlockOf(fs[0]) + FolderLines(fs[1..], n + 1)
  }

  /** The whole file. */
  function FileOf(fs: seq<Folder>): string
  {
    Join(["\"libraryfolders\"", "{"] + FolderLines(fs, 0) + ["}", ""])
  }

  function Without(fs: seq<Folder>, path: string): seq<Folder>
  {
    if fs == [] then [] else (if fs[0].path == path then [] else [fs[0]]) + Without(fs[1..], path)
  }

  /** An absolute path with nothing in it that the list writes with. */
  predicate Path(path: string)
  {
    path != "" && path[0] == '/' && Clear(path, '"') && Clear(path, '\n') && Clear(path, '{') && Clear(path, '}')
  }

  /** A path, and titles by their numbers. */
  predicate Written(f: Folder)
  {
    Path(f.path) && forall i :: 0 <= i < |f.apps| ==> Titles.Numeric(f.apps[i])
  }

  predicate Clear(s: string, c: char)
  {
    forall i :: 0 <= i < |s| ==> s[i] != c
  }

  predicate AllClear(lines: seq<string>, c: char)
  {
    forall i :: 0 <= i < |lines| ==> Clear(lines[i], c)
  }

  // ---- Where the path is named

  /** Between text without a slash a quoted absolute path is found where it was written and
      nowhere else. */
  lemma QuotedOnce(a: string, p: string, b: string, path: string)
    requires Clear(a, '/') && Clear(b, '/') && Path(p) && Path(path)
    ensures Contains(a + (Quoted(p) + b), Quoted(path)) <==> p == path
  {
    var s := a + (Quoted(p) + b);
    if p == path {
      assert s[|a|..|a| + |Quoted(path)|] == Quoted(path);
      assert At(s, Quoted(path), |a|);
    }
    if i: nat :| At(s, Quoted(path), i) {
      FoundAt(a, p, b, path, i);
    }
  }

  /** The quotes and the slashes around a path that was written. */
  lemma Around(a: string, p: string, b: string, s: string)
    requires Clear(a, '/') && Clear(b, '/') && Path(p) && s == a + (Quoted(p) + b)
    ensures var end := |a| + 1 + |p|;
      && end < |s| && s[|a|] == '"' && s[end] == '"' && s[|a| + 1..end] == p
      && (forall j :: |a| < j < end ==> s[j] != '"')
      && (forall j :: 0 <= j < |a| ==> s[j] != '/') && (forall j :: end < j < |s| ==> s[j] != '/')
  {
    var end := |a| + 1 + |p|;
    assert forall j :: 0 <= j < |a| ==> s[j] == a[j];
    assert forall j :: |a| < j < end ==> s[j] == p[j - |a| - 1];
    assert forall j :: end < j < |s| ==> s[j] == b[j - end - 1];
  }

  lemma InPlace(s: string, path: string, i: nat)
    requires Path(path) && At(s, Quoted(path), i)
    ensures var end := i + 1 + |path|;
      && end < |s| && s[i] == '"' && s[i + 1] == '/' && s[end] == '"' && s[i + 1..end] == path
      && (forall j :: i < j < end ==> s[j] != '"')
  {
    var q, end := Quoted(path), i + 1 + |path|;
    assert forall j :: i <= j <= end ==> s[j] == s[i..i + |q|][j - i];
    assert forall j :: i < j < end ==> s[j] == path[j - i - 1];
  }

  /** A quote before a slash is the one the path begins with. */
  lemma OneStart(s: string, at: nat, end: nat, i: nat)
    requires at < end < |s| && i + 1 < |s| && s[end] == '"' && s[at] == '"' && s[i] == '"' && s[i + 1] == '/'
    requires forall j :: at < j < end ==> s[j] != '"'
    requires (forall j :: 0 <= j < at ==> s[j] != '/') && (forall j :: end < j < |s| ==> s[j] != '/')
    ensures i == at
  {
  }

  lemma FoundAt(a: string, p: string, b: string, path: string, i: nat)
    requires Clear(a, '/') && Clear(b, '/') && Path(p) && Path(path)
    requires At(a + (Quoted(p) + b), Quoted(path), i)
    ensures p == path
  {
    var s := a + (Quoted(p) + b);
    Around(a, p, b, s);
    InPlace(s, path, i);
    OneStart(s, |a|, |a| + 1 + |p|, i);
    OneEnd(s, i + 1, i + 1 + |path|, |a| + 1 + |p|);
  }

  /** Both are where the first quote from here is. */
  lemma OneEnd(s: string, from: nat, n: nat, m: nat)
    requires from <= n < |s| && from <= m < |s| && s[n] == '"' && s[m] == '"'
    requires forall j :: from <= j < n ==> s[j] != '"'
    requires forall j :: from <= j < m ==> s[j] != '"'
    ensures n == m
  {
  }

  lemma {:induction false} JoinClear(lines: seq<string>, c: char)
    requires AllClear(lines, c) && c != '\n'
    ensures Clear(Join(lines), c)
  {
    if |lines| > 1 {
      JoinClear(lines[1..], c);
      assert Clear(lines[0], c) && Clear("\n" + Join(lines[1..]), c);
    }
  }

  function Header(n: nat): string
  {
    "\t\"" + Titles.Itoa(n) + "\""
  }

  function PathLine(path: string): string
  {
    "\t\t\"path\"\t\t\"" + path + "\""
  }

  /** The lines after the one with the path. */
  function Tail(f: Folder): seq<string>
  {
    ["\t\t\"apps\"", "\t\t{"] + AppLines(f.apps) + ["\t\t}", "\t}"]
  }

  lemma BlockParts(f: Folder)
    ensures BlockOf(f) == ["\t{", PathLine(f.path)] + Tail(f)
  {
  }

  lemma {:induction false} AppsClear(apps: seq<string>, c: char)
    requires forall i :: 0 <= i < |apps| ==> Titles.Numeric(apps[i])
    requires !Titles.IsDigit(c) && c != '\t' && c != '"'
    ensures AllClear(AppLines(apps), c)
  {
    if apps != [] {
      AppsClear(apps[1..], c);
      assert Titles.Numeric(apps[0]);
      assert Clear(AppLine(apps[0]), c);
    }
  }

  lemma HeaderClear(n: nat, c: char)
    requires !Titles.IsDigit(c) && c != '\t' && c != '"'
    ensures Clear(Header(n), c)
  {
    Titles.ItoaReads(n);
  }

  lemma TailClear(f: Folder)
    requires Written(f)
    ensures AllClear(Tail(f), '/') && AllClear(Tail(f), '\n')
  {
    AppsClear(f.apps, '/');
    AppsClear(f.apps, '\n');
  }

  function Before(n: nat): string
  {
    Join([Header(n), "\t{"]) + "\n\t\t\"path\"\t\t"
  }

  lemma LineText(path: string)
    ensures "\n" + PathLine(path) == "\n\t\t\"path\"\t\t" + Quoted(path)
  {
  }

  lemma Regrouped(a: string, nl: string, line: string, rest: string, key: string, q: string)
    requires nl + line == key + q
    ensures a + (nl + (line + rest)) == (a + key) + (q + rest)
  {
    assert a + (nl + (line + rest)) == a + ((nl + line) + rest);
  }

  lemma BlockText(f: Folder, n: nat)
    ensures Join([Header(n)] + BlockOf(f)) == Before(n) + (Quoted(f.path) + ("\n" + Join(Tail(f))))
  {
    var start, line, tail := [Header(n), "\t{"], PathLine(f.path), Tail(f);
    BlockParts(f);
    assert [Header(n)] + BlockOf(f) == start + ([line] + tail);
    JoinTwo(start, [line] + tail);
    JoinTwo([line], tail);
    LineText(f.path);
    Regrouped(Join(start), "\n", line, "\n" + Join(tail), "\n\t\t\"path\"\t\t", Quoted(f.path));
  }

  lemma BeforeClear(n: nat)
    ensures Clear(Before(n), '/')
  {
    HeaderClear(n, '/');
    JoinClear([Header(n), "\t{"], '/');
  }

  /** A folder's block names the path it was written for and no other. */
  lemma BlockNames(f: Folder, n: nat, path: string)
    requires Written(f) && Path(path)
    ensures Names(Entry(Header(n), BlockOf(f)), path) <==> f.path == path
  {
    BlockText(f, n);
    BeforeClear(n);
    TailClear(f);
    JoinClear(Tail(f), '/');
    QuotedOnce(Before(n), f.path, "\n" + Join(Tail(f)), path);
  }

  // ---- The braces of a block

  lemma {:induction false} NoneCounted(s: string, c: char)
    requires Clear(s, c)
    ensures Count(s, c) == 0
  {
    if s != "" {
      NoneCounted(s[..|s| - 1], c);
    }
  }

  lemma LastCounted(s: string, c: char)
    requires s != "" && s[|s| - 1] == c && Clear(s[..|s| - 1], c)
    ensures Count(s, c) == 1
  {
    NoneCounted(s[..|s| - 1], c);
  }

  predicate Flat(line: string)
  {
    Clear(line, '{') && Clear(line, '}')
  }

  lemma FlatLine(line: string)
    requires Flat(line)
    ensures Braces(line) == 0
  {
    NoneCounted(line, '{');
    NoneCounted(line, '}');
  }

  lemma OpenAndClose(line: string)
    requires line == "\t{" || line == "\t\t{" || line == "\t}" || line == "\t\t}"
    ensures Braces(line) == if line[|line| - 1] == '{' then 1 else -1
  {
    if line[|line| - 1] == '{' {
      LastCounted(line, '{');
      NoneCounted(line, '}');
    } else {
      LastCounted(line, '}');
      NoneCounted(line, '{');
    }
  }

  lemma BalancedBefore(line: string, rest: seq<string>, depth: int)
    requires depth + Braces(line) != 0 && Balanced(rest, depth + Braces(line))
    ensures Balanced([line] + rest, depth)
  {
    assert ([line] + rest)[1..] == rest;
  }

  lemma Front(line: string, lines: seq<string>, rest: seq<string>)
    ensures ([line] + lines) + rest == [line] + (lines + rest)
  {
  }

  lemma AppFlat(app: string)
    requires Titles.Numeric(app)
    ensures Braces(AppLine(app)) == 0
  {
    FlatLine(AppLine(app));
  }

  lemma {:induction false} AppsBalanced(apps: seq<string>, rest: seq<string>, depth: int)
    requires forall i :: 0 <= i < |apps| ==> Titles.Numeric(apps[i])
    requires depth != 0 && Balanced(rest, depth)
    ensures Balanced(AppLines(apps) + rest, depth)
  {
    if apps == [] {
      assert AppLines(apps) + rest == rest;
    } else {
      AppsBalanced(apps[1..], rest, depth);
      var line := AppLine(apps[0]);
      AppFlat(apps[0]);
      BalancedBefore(line, AppLines(apps[1..]) + rest, depth);
      Front(line, AppLines(apps[1..]), rest);
    }
  }

  /** Two braces open, what is between them leaves the depth as it is, and both close. */
  lemma Nested(a: string, b: string, c: string, d: string, rest: seq<string>)
    requires Braces(a) == 1 && Braces(b) == 0 && Braces(c) == 0 && Braces(d) == 1 && Balanced(rest, 2)
    ensures Balanced([a] + ([b] + ([c] + ([d] + rest))), 0)
  {
    BalancedBefore(d, rest, 1);
    BalancedBefore(c, [d] + rest, 1);
    BalancedBefore(b, [c] + ([d] + rest), 1);
    BalancedBefore(a, [b] + ([c] + ([d] + rest)), 0);
  }

  lemma BothClose(a: string, b: string)
    requires Braces(a) == -1 && Braces(b) == -1
    ensures Balanced([a, b], 2)
  {
    BalancedBefore(a, [b], 2);
    assert [a] + [b] == [a, b];
  }

  lemma Listed(a: string, b: string, c: string, d: string, apps: seq<string>, rest: seq<string>)
    ensures [a, b, c, d] + apps + rest == [a] + ([b] + ([c] + ([d] + (apps + rest))))
  {
  }

  lemma BlockBalanced(f: Folder)
    requires Written(f)
    ensures Balanced(BlockOf(f), 0)
  {
    var a, b, c, d, apps, e, g := "\t{", PathLine(f.path), "\t\t\"apps\"", "\t\t{", AppLines(f.apps), "\t\t}", "\t}";
    OpenAndClose(a);
    OpenAndClose(d);
    OpenAndClose(e);
    OpenAndClose(g);
    FlatLine(b);
    FlatLine(c);
    BothClose(e, g);
    AppsBalanced(f.apps, [e, g], 2);
    Nested(a, b, c, d, apps + [e, g]);
    Listed(a, b, c, d, apps, [e, g]);
  }

  // ---- The file as parts

  function FolderParts(fs: seq<Folder>, n: nat): (r: seq<Part>)
    ensures |r| == |fs|
  {
    if fs == [] then [] else [Entry(Header(n), BlockOf(fs[0]))] + FolderParts(fs[1..], n + 1)
  }

  const START := [Plain("\"libraryfolders\""), Plain("{")]
  const END := [Plain("}"), Plain("")]

  function FileParts(fs: seq<Folder>): seq<Part>
  {
    START + (FolderParts(fs, 0) + END)
  }

  predicate AllWritten(fs: seq<Folder>)
  {
    forall i :: 0 <= i < |fs| ==> Written(fs[i])
  }

  lemma {:induction false} LinesJoin(a: seq<Part>, b: seq<Part>)
    ensures AllLines(a + b) == AllLines(a) + AllLines(b)
  {
    if a == [] {
      assert a + b == b;
    } else {
      assert (a + b)[1..] == a[1..] + b;
      LinesJoin(a[1..], b);
    }
  }

  lemma {:induction false} FolderPartLines(fs: seq<Folder>, n: nat)
    ensures AllLines(FolderParts(fs, n)) == FolderLines(fs, n)
  {
    if fs != [] {
      FolderPartLines(fs[1..], n + 1);
      assert FolderParts(fs, n)[1..] == FolderParts(fs[1..], n + 1);
    }
  }

  lemma FileLines(fs: seq<Folder>)
    ensures Join(AllLines(FileParts(fs))) == FileOf(fs)
  {
    FolderPartLines(fs, 0);
    LinesJoin(FolderParts(fs, 0), END);
    LinesJoin(START, FolderParts(fs, 0) + END);
    LinesJoin([START[0]], [START[1]]);
    LinesJoin([END[0]], [END[1]]);
    assert START == [START[0]] + [START[1]] && END == [END[0]] + [END[1]];
    assert AllLines(START) == ["\"libraryfolders\"", "{"];
    assert AllLines(END) == ["}", ""];
    assert AllLines(FileParts(fs)) == ["\"libraryfolders\"", "{"] + FolderLines(fs, 0) + ["}", ""];
  }

  // ---- The edit

  lemma HeaderAgain(n: nat, m: nat)
    ensures Renumbered(Header(n), m) == Header(m)
  {
    var v, w := Titles.Itoa(n), Titles.Itoa(m);
    assert Header(n) == "\t" + ("\"" + v + "\"");
    IndentOf("\t", "\"" + v + "\"");
    assert "\t" + "\"" + w + "\"" == Header(m);
  }

  lemma HeaderNumbered(n: nat)
    requires n <= Titles.INT64_MAX
    ensures Numbered(Header(n)) && OneLine(Header(n))
  {
    HeaderAgain(n, n);
    HeaderClear(n, '\n');
    RenumberedIsNumbered(Header(n), n);
  }

  lemma NotNumbered(line: string, word: string)
    requires line == Quoted(word) && word != "" && word[0] == 'l' && word[|word| - 1] != '"'
    ensures !Numbered(line)
  {
    TrimCore("", line);
    assert "" + line == line;
    QuotesOff(word);
  }

  lemma Bracket(line: string)
    requires line == "{" || line == "}" || line == ""
    ensures !Numbered(line)
  {
    if line != "" {
      TrimCore("", line);
      assert "" + line == line;
    }
  }

  lemma TwoPlain(a: string, b: string)
    requires !Numbered(a) && OneLine(a) && !Numbered(b) && OneLine(b)
    ensures WellFormed([Plain(a), Plain(b)])
  {
  }

  lemma TitleLine(title: string)
    requires title == "\"libraryfolders\""
    ensures !Numbered(title) && OneLine(title)
  {
    NotNumbered(title, "libraryfolders");
  }

  lemma StartWell()
    ensures WellFormed(START)
  {
    var title := START[0].line;
    TitleLine(title);
    Bracket("{");
    TwoPlain(title, "{");
  }

  lemma EndWell()
    ensures WellFormed(END)
  {
    Bracket("}");
    Bracket("");
    TwoPlain("}", "");
  }

  lemma BlockLines(f: Folder)
    requires Written(f)
    ensures forall i :: 0 <= i < |BlockOf(f)| ==> OneLine(BlockOf(f)[i])
  {
    TailClear(f);
    BlockParts(f);
    assert OneLine(PathLine(f.path));
    assert forall i :: 0 <= i < |Tail(f)| ==> Clear(Tail(f)[i], '\n');
  }

  lemma EntryWell(f: Folder, n: nat)
    requires Written(f) && n <= Titles.INT64_MAX
    ensures WellFormedPart(Entry(Header(n), BlockOf(f))) && OneLineEach(Entry(Header(n), BlockOf(f)))
  {
    HeaderNumbered(n);
    BlockBalanced(f);
    BlockLines(f);
    TrimCore("\t", "{");
    assert "\t" + "{" == "\t{";
  }

  lemma {:induction false} FoldersWell(fs: seq<Folder>, n: nat)
    requires AllWritten(fs) && n + |fs| <= Titles.INT64_MAX
    ensures WellFormed(FolderParts(fs, n))
  {
    if fs != [] {
      EntryWell(fs[0], n);
      FoldersWell(fs[1..], n + 1);
      WellFormedMore(Entry(Header(n), BlockOf(fs[0])), FolderParts(fs[1..], n + 1));
    }
  }

  lemma WellFormedJoin(a: seq<Part>, b: seq<Part>)
    requires WellFormed(a) && WellFormed(b)
    ensures WellFormed(a + b)
  {
  }

  lemma {:induction false} PlainKept(ps: seq<Part>, path: string, n: nat)
    requires forall i :: 0 <= i < |ps| ==> ps[i].Plain?
    ensures Kept(ps, path, n) == ps
  {
    if ps != [] {
      PlainKept(ps[1..], path, n);
    }
  }

  lemma TwoFirst(p: Part, q: Part, more: seq<Part>)
    ensures [p, q] + more == [p] + ([q] + more)
  {
  }

  lemma TwoFirstKept(p: Part, q: Part, more: seq<Part>, path: string, n: nat)
    requires p.Plain? && q.Plain?
    ensures Kept([p, q] + more, path, n) == [p, q] + Kept(more, path, n)
  {
    TwoFirst(p, q, more);
    KeptFirst(p, [q] + more, path, n);
    KeptFirst(q, more, path, n);
    TwoFirst(p, q, Kept(more, path, n));
  }

  /** The first folder of the list: gone if it is the one, else with the next number. */
  lemma FirstKept(f: Folder, more: seq<Folder>, path: string, n: nat, m: nat, end: seq<Part>)
    requires Written(f) && Path(path)
    ensures FolderParts([f] + more, n) + end == [Entry(Header(n), BlockOf(f))] + (FolderParts(more, n + 1) + end)
    ensures Kept(FolderParts([f] + more, n) + end, path, m)
      == if f.path == path then Kept(FolderParts(more, n + 1) + end, path, m)
         else [Entry(Header(m), BlockOf(f))] + Kept(FolderParts(more, n + 1) + end, path, m + 1)
  {
    OneMore(f, more, n, end);
    KeptFirst(Entry(Header(n), BlockOf(f)), FolderParts(more, n + 1) + end, path, m);
    BlockNames(f, n, path);
    HeaderAgain(n, m);
  }

  lemma OneMore(f: Folder, fs: seq<Folder>, m: nat, end: seq<Part>)
    ensures FolderParts([f] + fs, m) + end == [Entry(Header(m), BlockOf(f))] + (FolderParts(fs, m + 1) + end)
  {
    assert ([f] + fs)[1..] == fs;
  }

  lemma FirstWithout(f: Folder, more: seq<Folder>, path: string)
    ensures Without([f] + more, path) == if f.path == path then Without(more, path) else [f] + Without(more, path)
  {
    assert ([f] + more)[1..] == more;
    assert [] + Without(more, path) == Without(more, path);
  }

  lemma {:induction false} FoldersKept(fs: seq<Folder>, path: string, n: nat, m: nat, end: seq<Part>)
    requires AllWritten(fs) && Path(path) && forall i :: 0 <= i < |end| ==> end[i].Plain?
    ensures Kept(FolderParts(fs, n) + end, path, m) == FolderParts(Without(fs, path), m) + end
    decreases fs
  {
    if fs == [] {
      PlainKept(end, path, m);
      assert FolderParts(fs, n) + end == end;
    } else {
      var f, more := fs[0], fs[1..];
      assert fs == [f] + more;
      FirstKept(f, more, path, n, m, end);
      FirstWithout(f, more, path);
      if f.path == path {
        FoldersKept(more, path, n + 1, m, end);
      } else {
        FoldersKept(more, path, n + 1, m + 1, end);
        OneMore(f, Without(more, path), m, end);
      }
    }
  }

  lemma {:induction false} AnyFolder(fs: seq<Folder>, path: string, n: nat, end: seq<Part>)
    requires AllWritten(fs) && Path(path) && forall i :: 0 <= i < |end| ==> end[i].Plain?
    ensures AnyNames(FolderParts(fs, n) + end, path) <==> exists i :: 0 <= i < |fs| && fs[i].path == path
    decreases fs
  {
    if fs != [] {
      var p, rest := Entry(Header(n), BlockOf(fs[0])), FolderParts(fs[1..], n + 1) + end;
      assert FolderParts(fs, n) + end == [p] + rest;
      FirstNames(p, rest, path);
      BlockNames(fs[0], n, path);
      AnyFolder(fs[1..], path, n + 1, end);
      assert forall i :: 0 < i < |fs| ==> fs[i] == fs[1..][i - 1];
      assert forall i :: 0 <= i < |fs| - 1 ==> fs[1..][i] == fs[i + 1];
    }
  }

  lemma TwoBefore(p: Part, q: Part, rest: seq<Part>, path: string)
    requires p.Plain? && q.Plain?
    ensures AnyNames([p, q] + rest, path) <==> AnyNames(rest, path)
  {
    assert !Names(p, path) && !Names(q, path);
    FirstNames(q, rest, path);
    FirstNames(p, [q] + rest, path);
    TwoFirst(p, q, rest);
  }

  lemma FileNames(fs: seq<Folder>, path: string)
    requires AllWritten(fs) && Path(path)
    ensures AnyNames(FileParts(fs), path) <==> exists i :: 0 <= i < |fs| && fs[i].path == path
  {
    AnyFolder(fs, path, 0, END);
    TwoBefore(START[0], START[1], FolderParts(fs, 0) + END, path);
  }

  lemma FileKept(fs: seq<Folder>, path: string)
    requires AllWritten(fs) && Path(path)
    ensures Kept(FileParts(fs), path, 0) == FileParts(Without(fs, path))
  {
    TwoFirstKept(START[0], START[1], FolderParts(fs, 0) + END, path, 0);
    FoldersKept(fs, path, 0, 0, END);
  }

  lemma FileWell(fs: seq<Folder>)
    requires AllWritten(fs) && |fs| <= Titles.INT64_MAX
    ensures WellFormed(FileParts(fs))
  {
    StartWell();
    EndWell();
    FoldersWell(fs, 0);
    WellFormedJoin(FolderParts(fs, 0), END);
    WellFormedJoin(START, FolderParts(fs, 0) + END);
  }

  /** The file Steam would have written for the folders without the one that is dropped: their
      paths and their titles as they were, numbered on from 0.  If the folder is in no entry
      the file stays as it is. */
  lemma FolderTakenOut(fs: seq<Folder>, path: string)
    requires AllWritten(fs) && Path(path) && |fs| <= Titles.INT64_MAX
    ensures Dropped(FileOf(fs), path)
      == (FileOf(Without(fs, path)), exists i :: 0 <= i < |fs| && fs[i].path == path)
  {
    FileLines(fs);
    FileLines(Without(fs, path));
    FileWell(fs);
    ReadsBack(FileParts(fs));
    FileNames(fs, path);
    FileKept(fs, path);
    NoneWithout(fs, path);
  }

  lemma {:induction false} NoneWithout(fs: seq<Folder>, path: string)
    ensures (forall i :: 0 <= i < |fs| ==> fs[i].path != path) ==> Without(fs, path) == fs
    ensures forall f :: f in Without(fs, path) <==> f in fs && f.path != path
  {
    if fs != [] {
      NoneWithout(fs[1..], path);
    }
  }
}
