/** Steam's app manifests: what is read from one, and what is taken out of one before it is
    handed to another seat (internal/library/steam.go, parseManifest and Rewrite). */
module Manifests {
  import opened Wrappers
  import opened Text
  import Titles

  /** The longest line the scanner takes, line end included. */
  const MAX_LINE := 1048576

  /** The six fields, as text. */
  datatype Manifest = Manifest(id: string, name: string, dir: string, build: string, flags: string, size: string)

  // ---- Lines

  function Chomp(line: string): string
  {
    if line != "" && line[|line| - 1] == '\r' then line[..|line| - 1] else line
  }

  /** The first line, without its end. */
  function Line(data: string): string
  {
    Chomp(data[..Index(data, '\n')])
  }

  function Rest(data: string): (r: string)
    ensures data != "" ==> |r| < |data|
  {
    var i := Index(data, '\n');
    if i < |data| then data[i + 1..] else ""
  }

  /** The lines up to the first that is too long. */
  function Lines(data: string): seq<string>
    decreases |data|
  {
    if data == "" || Index(data, '\n') >= MAX_LINE then [] else [Line(data)] + Lines(Rest(data))
  }

  /** None is. */
  predicate Scans(data: string)
    decreases |data|
  {
    data == "" || (Index(data, '\n') < MAX_LINE && Scans(Rest(data)))
  }

  function Unlines(lines: seq<string>): string
  {
    if lines == [] then "" else Unlines(lines[..|lines| - 1]) + (lines[|lines| - 1] + "\n")
  }

  // ---- One line

  function Lower(s: string): (r: string)
    ensures |r| == |s|
  {
    seq(|s|, i requires 0 <= i < |s| => LowerChar(s[i]))
  }

  /** Lower case as far as ASCII names go: the letters, and the two others that become one
      of them. */
  function LowerChar(c: char): char
  {
    if 'A' <= c <= 'Z' then c - 'A' + 'a'
    else if c == '\U{212A}' then 'k' else if c == '\U{0130}' then 'i' else c
  }

  /** A quoted key and a quoted value, on a line without spaces around it. */
  function ParsePair(line: string): Option<(string, string)>
  {
    if line == "" || line[0] != '"' then None
    else
      var end := Index(line[1..], '"');
      if end == |line| - 1 then None
      else
        var rest := TrimSpace(line[1..][end + 1..]);
        if rest == "" || rest[0] != '"' then None
        else
          var close := Index(rest[1..], '"');
          if close == |rest| - 1 then None else Some((line[1..][..end], rest[1..][..close]))
  }

  function DepthAfter(line: string, depth: int): int
  {
    if TrimSpace(line) == "{" then depth + 1 else if TrimSpace(line) == "}" then depth - 1 else depth
  }

  /** The pair a line holds at the depth where the fields are. */
  function FieldOn(line: string, depth: int): Option<(string, string)>
  {
    var t := TrimSpace(line);
    if t == "{" || t == "}" || depth != 1 then None else ParsePair(t)
  }

  predicate Neutralised(key: string)
  {
    key == "lastowner" || key == "lastplayed"
  }

  function RewriteLine(line: string, depth: int): string
  {
    var f := FieldOn(line, depth);
    if f.Some? && Neutralised(Lower(f.value.0)) then Indent(line) + "\"" + f.value.0 + "\"" + "\t\t" + "\"" + "0" + "\""
    else line
  }

  // ---- All of them

  function RewriteLines(lines: seq<string>, depth: int): (r: seq<string>)
    ensures |r| == |lines|
  {
    if lines == [] then []
    else [RewriteLine(lines[0], depth)] + RewriteLines(lines[1..], DepthAfter(lines[0], depth))
  }

  function Rewritten(data: string): string
  {
    Unlines(RewriteLines(Lines(data), 0))
  }

  function Noted(fields: map<string, string>, line: string, depth: int): map<string, string>
  {
    var f := FieldOn(line, depth);
    if f.Some? then fields[Lower(f.value.0) := f.value.1] else fields
  }

  function Fields(lines: seq<string>, depth: int, fields: map<string, string>): map<string, string>
  {
    if lines == [] then fields
    else Fields(lines[1..], DepthAfter(lines[0], depth), Noted(fields, lines[0], depth))
  }

  function FieldOf(fields: map<string, string>, key: string): string
  {
    if key in fields then fields[key] else ""
  }

  function FromFields(f: map<string, string>): Option<Manifest>
  {
    var m := Manifest(FieldOf(f, "appid"), FieldOf(f, "name"), FieldOf(f, "installdir"), FieldOf(f, "buildid"),
                      FieldOf(f, "stateflags"), FieldOf(f, "sizeondisk"));
    if |f| == 0 || m.id == "" || (m.dir != "" && !Titles.SafeName(m.dir)) || !Titles.Numeric(m.id) then None
    else Some(m)
  }

  function Parsed(data: string): Option<Manifest>
  {
    if Scans(data) then FromFields(Fields(Lines(data), 0, map[])) else None
  }

  // ---- The two loops

  method ParseManifest(data: string) returns (app: Option<Manifest>)
    ensures app == Parsed(data)
  {
    var depth, fields, rest := 0, map[], data;
    while rest != ""
      decreases |rest|
      invariant Scans(data) == Scans(rest)
      invariant Fields(Lines(data), 0, map[]) == Fields(Lines(rest), depth, fields)
    {
      if Index(rest, '\n') >= MAX_LINE {
        return None;
      }
      var line := TrimSpace(Line(rest));
      rest := Rest(rest);
      if line == "{" {
        depth := depth + 1;
      } else if line == "}" {
        depth := depth - 1;
      } else {
        var pair := ParsePair(line);
        if pair.Some? && depth == 1 {
          fields := fields[Lower(pair.value.0) := pair.value.1];
        }
      }
    }
    app := FromFields(fields);
  }

  /** The loop's body: one line, handed on or printed anew. */
  method RewriteOne(line: string, before: int) returns (out: string, depth: int)
    ensures out == RewriteLine(line, before) && depth == DepthAfter(line, before)
  {
    var trimmed := TrimSpace(line);
    out, depth := line, before;
    if trimmed == "{" {
      depth := depth + 1;
    } else if trimmed == "}" {
      depth := depth - 1;
    } else {
      var pair := ParsePair(trimmed);
      if pair.Some? && depth == 1 && Neutralised(Lower(pair.value.0)) {
        out := Indent(line) + "\"" + pair.value.0 + "\"" + "\t\t" + "\"" + "0" + "\"";
      }
    }
  }

  method RewriteFirst(rest: string, before: int, ghost left: seq<string>)
    returns (out: string, depth: int, ghost next: seq<string>)
    requires rest != "" && Index(rest, '\n') < MAX_LINE && left == RewriteLines(Lines(rest), before)
    ensures left == [out] + next && next == RewriteLines(Lines(Rest(rest)), depth)
  {
    out, depth := RewriteOne(Line(rest), before);
    next := FirstRewritten(rest, before, left);
  }

  method Rewrite(data: string) returns (out: string)
    ensures out == Rewritten(data)
  {
    out := "";
    var depth, rest := 0, data;
    ghost var left := RewriteLines(Lines(data), 0);
    ghost var all := Unlines(left);
    while rest != ""
      decreases |rest|
      invariant left == RewriteLines(Lines(rest), depth)
      invariant all == out + Unlines(left)
    {
      if Index(rest, '\n') >= MAX_LINE {
        break;
      }
      var line;
      ghost var was := left;
      line, depth, left := RewriteFirst(rest, depth, left);
      rest := Rest(rest);
      LineOut(out, was, line, left);
      out := out + line + "\n";
    }
    assert left == [] && out + "" == out;
  }

  lemma LineOut(out: string, lines: seq<string>, line: string, left: seq<string>)
    requires lines == [line] + left
    ensures out + Unlines(lines) == out + line + "\n" + Unlines(left)
  {
    UnlinesFirst(lines);
    assert lines[1..] == left;
  }

  lemma FirstRewritten(data: string, depth: int, left: seq<string>) returns (next: seq<string>)
    requires data != "" && Index(data, '\n') < MAX_LINE && left == RewriteLines(Lines(data), depth)
    ensures left == [RewriteLine(Line(data), depth)] + next
    ensures next == RewriteLines(Lines(Rest(data)), DepthAfter(Line(data), depth))
  {
    assert Lines(data)[1..] == Lines(Rest(data));
    next := RewriteLines(Lines(Rest(data)), DepthAfter(Line(data), depth));
  }

  // ---- What Rewrite does to a line

  predicate NoBreak(s: string)
  {
    forall i :: 0 <= i < |s| ==> s[i] != '\n'
  }

  /** The line Rewrite prints. */
  function Printed(indent: string, key: string): string
  {
    indent + "\"" + key + "\"" + "\t\t" + "\"" + "0" + "\""
  }

  lemma KeyHasNoQuote(line: string)
    requires ParsePair(line).Some?
    ensures var key := ParsePair(line).value.0; forall i :: 0 <= i < |key| ==> key[i] != '"'
  {
    var end := Index(line[1..], '"');
    assert forall i :: 0 <= i < end ==> line[1..][..end][i] == line[1..][i];
  }

  lemma PrintedPair(key: string)
    requires forall i :: 0 <= i < |key| ==> key[i] != '"'
    ensures ParsePair(Printed("", key)) == Some((key, "0"))
  {
    var line := Printed("", key);
    var rest := "\t\t" + "\"" + "0" + "\"";
    assert "" + "\"" == "\"";
    assert line == "\"" + (key + ['"'] + rest);
    assert line[1..] == key + ['"'] + rest;
    IndexAt(key, '"', rest);
    assert line[1..][|key| + 1..] == rest && line[1..][..|key|] == key;
    ZeroAfter(rest);
  }

  lemma ZeroAfter(rest: string)
    requires rest == "\t\t" + "\"" + "0" + "\""
    ensures TrimSpace(rest) == "\"0\"" && Index("\"0\""[1..], '"') == 1 && "\"0\""[1..][..1] == "0"
  {
    assert rest == "\t\t" + "\"0\"";
    TrimCore("\t\t", "\"0\"");
    assert "\"0\""[1..] == "0" + ['"'] + "";
    IndexAt("0", '"', "");
  }

  lemma PrintedTrims(indent: string, key: string)
    requires forall i :: 0 <= i < |indent| ==> IsSpace(indent[i])
    ensures TrimSpace(Printed(indent, key)) == Printed("", key)
  {
    var core := Printed("", key);
    assert core[0] == '"' && core[|core| - 1] == '"';
    assert Printed(indent, key) == indent + core;
    TrimCore(indent, core);
  }

  lemma ChompTrims(line: string)
    ensures TrimSpace(Chomp(line)) == TrimSpace(line)
  {
    if line != "" && line[|line| - 1] == '\r' {
      assert line == line[..|line| - 1] + ['\r'];
      TrimEnd(line[..|line| - 1], '\r');
    }
  }

  /** What a line is about stays; only the value of a neutralised field becomes 0. */
  lemma RewrittenSays(line: string, depth: int)
    ensures var r := Chomp(RewriteLine(line, depth));
      && DepthAfter(r, depth) == DepthAfter(line, depth)
      && (var f := FieldOn(line, depth);
          if f.Some? && Neutralised(Lower(f.value.0)) then FieldOn(r, depth) == Some((f.value.0, "0"))
          else FieldOn(r, depth) == f)
  {
    var f := FieldOn(line, depth);
    ChompTrims(RewriteLine(line, depth));
    if f.Some? && Neutralised(Lower(f.value.0)) {
      var key := f.value.0;
      IndentIsSpace(line);
      KeyHasNoQuote(TrimSpace(line));
      PrintedTrims(Indent(line), key);
      PrintedPair(key);
      assert |Printed("", key)| > 1;
    }
  }

  /** Rewriting what was rewritten, line end taken off or not, changes nothing more. */
  lemma RewriteLineTwice(line: string, depth: int)
    ensures var r := Chomp(RewriteLine(line, depth)); RewriteLine(r, depth) == r
  {
    var f := FieldOn(line, depth);
    var r := RewriteLine(line, depth);
    RewrittenSays(line, depth);
    if f.Some? && Neutralised(Lower(f.value.0)) {
      assert r[|r| - 1] == '"' && Chomp(r) == r;
      IndentIsBlank(line);
      var core := Printed("", f.value.0);
      assert r == Indent(line) + core && core[0] == '"';
      IndentOf(Indent(line), core);
    }
  }

  // ---- And to all of them

  function AllChomped(lines: seq<string>): (r: seq<string>)
    ensures |r| == |lines|
  {
    seq(|lines|, i requires 0 <= i < |lines| => Chomp(lines[i]))
  }

  predicate Short(lines: seq<string>)
  {
    forall i :: 0 <= i < |lines| ==> |lines[i]| < MAX_LINE
  }

  predicate AllNoBreak(lines: seq<string>)
  {
    forall i :: 0 <= i < |lines| ==> NoBreak(lines[i])
  }

  lemma {:induction false} UnlinesFirst(lines: seq<string>)
    requires lines != []
    ensures Unlines(lines) == lines[0] + ("\n" + Unlines(lines[1..]))
    decreases |lines|
  {
    var n := |lines| - 1;
    if n > 0 {
      UnlinesFirst(lines[..n]);
      assert lines[..n][1..] == lines[1..][..n - 1];
      assert lines[1..][n - 1] == lines[n];
    }
  }

  /** Lines that are written are read back, without the carriage return one may end in; or
      one of them is too long to be. */
  lemma {:induction false} ScanUnlines(lines: seq<string>)
    requires AllNoBreak(lines)
    ensures Scans(Unlines(lines)) <==> Short(lines)
    ensures Short(lines) ==> Lines(Unlines(lines)) == AllChomped(lines)
    decreases |lines|
  {
    if lines != [] {
      UnlinesFirst(lines);
      ScanLine(lines[0], Unlines(lines[1..]));
      ScanUnlines(lines[1..]);
      ShortRest(lines);
      ChompedFirst(lines);
    }
  }

  lemma ShortRest(lines: seq<string>)
    requires lines != []
    ensures Short(lines) <==> |lines[0]| < MAX_LINE && Short(lines[1..])
  {
    if |lines[0]| < MAX_LINE && Short(lines[1..]) {
      forall i | 0 <= i < |lines| ensures |lines[i]| < MAX_LINE {
        if i > 0 {
          assert lines[i] == lines[1..][i - 1];
        }
      }
    }
  }

  lemma ChompedFirst(lines: seq<string>)
    requires lines != []
    ensures AllChomped(lines) == [Chomp(lines[0])] + AllChomped(lines[1..])
  {
  }

  lemma ScanLine(line: string, rest: string)
    requires NoBreak(line)
    ensures var data := line + ("\n" + rest);
      Index(data, '\n') == |line| && Line(data) == Chomp(line) && Rest(data) == rest
  {
    var data := line + ['\n'] + rest;
    assert line + ("\n" + rest) == data;
    IndexAt(line, '\n', rest);
    assert data[..|line|] == line && data[|line| + 1..] == rest;
  }

  lemma {:induction false} ScanNoBreak(data: string)
    ensures AllNoBreak(Lines(data))
    decreases |data|
  {
    if data != "" {
      var i := Index(data, '\n');
      if i < MAX_LINE {
        ScanNoBreak(Rest(data));
        assert forall j :: 0 <= j < |Chomp(data[..i])| ==> Chomp(data[..i])[j] == data[j];
      }
    }
  }

  lemma PrintedNoBreak(indent: string, key: string)
    requires NoBreak(indent) && NoBreak(key)
    ensures NoBreak(Printed(indent, key))
  {
  }

  lemma RewriteNoBreak(line: string, depth: int)
    requires NoBreak(line)
    ensures NoBreak(RewriteLine(line, depth))
  {
    var f := FieldOn(line, depth);
    if f.Some? && Neutralised(Lower(f.value.0)) {
      IndentIsSpace(line);
      KeyNoBreak(f.value.0);
      PrintedNoBreak(Indent(line), f.value.0);
    }
  }

  /** A neutralised key holds only letters. */
  lemma KeyNoBreak(key: string)
    requires Neutralised(Lower(key))
    ensures NoBreak(key)
  {
    forall i | 0 <= i < |key| ensures key[i] != '\n' {
      assert Lower(key)[i] == LowerChar(key[i]);
      assert LowerChar('\n') == '\n';
      assert "lastowner"[0..] == "lastowner";
      LettersOnly(Lower(key), i);
    }
  }

  lemma LettersOnly(name: string, i: nat)
    requires Neutralised(name) && i < |name|
    ensures name[i] != '\n'
  {
  }

  lemma {:induction false} RewriteAllNoBreak(lines: seq<string>, depth: int)
    requires AllNoBreak(lines)
    ensures AllNoBreak(RewriteLines(lines, depth))
  {
    if lines != [] {
      RewriteNoBreak(lines[0], depth);
      RewriteAllNoBreak(lines[1..], DepthAfter(lines[0], depth));
    }
  }

  /** The fields with those that belong to one account reset. */
  function Neutral(fields: map<string, string>): (r: map<string, string>)
    ensures r.Keys == fields.Keys
  {
    map k | k in fields :: if Neutralised(k) then "0" else fields[k]
  }

  /** The first line of a rewrite, trimmed as the next scan will, and the lines after it. */
  lemma RewrittenFirst(lines: seq<string>, depth: int, tail: seq<string>)
    requires lines != [] && tail == RewriteLines(lines[1..], DepthAfter(lines[0], depth))
    ensures AllChomped(RewriteLines(lines, depth)) == [Chomp(RewriteLine(lines[0], depth))] + AllChomped(tail)
    ensures DepthAfter(Chomp(RewriteLine(lines[0], depth)), depth) == DepthAfter(lines[0], depth)
  {
    RewrittenSays(lines[0], depth);
    FirstChomped(RewriteLine(lines[0], depth), tail);
  }

  lemma FirstChomped(line: string, tail: seq<string>)
    ensures AllChomped([line] + tail) == [Chomp(line)] + AllChomped(tail)
  {
    assert ([line] + tail)[1..] == tail;
  }

  lemma {:induction false} FieldsNeutral(lines: seq<string>, depth: int, fields: map<string, string>)
    ensures Fields(AllChomped(RewriteLines(lines, depth)), depth, Neutral(fields))
      == Neutral(Fields(lines, depth, fields))
    decreases |lines|
  {
    if lines != [] {
      var after := DepthAfter(lines[0], depth);
      var tail := RewriteLines(lines[1..], after);
      RewrittenFirst(lines, depth, tail);
      NotedNeutral(fields, lines[0], depth);
      FieldsNeutral(lines[1..], after, Noted(fields, lines[0], depth));
      FirstField(Chomp(RewriteLine(lines[0], depth)), AllChomped(tail), depth, Neutral(fields));
    }
  }

  lemma FirstField(line: string, tail: seq<string>, depth: int, fields: map<string, string>)
    ensures Fields([line] + tail, depth, fields) == Fields(tail, DepthAfter(line, depth), Noted(fields, line, depth))
  {
    assert ([line] + tail)[1..] == tail;
  }

  lemma NotedNeutral(fields: map<string, string>, line: string, depth: int)
    ensures Noted(Neutral(fields), Chomp(RewriteLine(line, depth)), depth) == Neutral(Noted(fields, line, depth))
  {
    RewrittenSays(line, depth);
    var f := FieldOn(line, depth);
    if f.Some? {
      NeutralWith(fields, Lower(f.value.0), f.value.1);
    }
  }

  lemma NeutralWith(fields: map<string, string>, key: string, value: string)
    ensures Neutral(fields)[key := if Neutralised(key) then "0" else value] == Neutral(fields[key := value])
  {
  }

  lemma NeutralSame(fields: map<string, string>)
    ensures FromFields(Neutral(fields)) == FromFields(fields)
  {
    assert |Neutral(fields)| == |Neutral(fields).Keys| == |fields.Keys| == |fields|;
  }

  // ---- Keys as they are written

  /** Each character is that of the name or its capital.  Two more letters become ASCII ones
      in lower case. */
  predicate Spelt(key: string, name: string)
  {
    |key| == |name| && forall i :: 0 <= i < |key| ==>
      || key[i] == name[i]
      || ('A' <= key[i] <= 'Z' && key[i] as int + 32 == name[i] as int)
      || (key[i] == '\U{212A}' && name[i] == 'k')
      || (key[i] == '\U{0130}' && name[i] == 'i')
  }

  predicate SmallLetters(name: string)
  {
    forall i :: 0 <= i < |name| ==> 'a' <= name[i] <= 'z'
  }

  lemma LowerIsSpelt(key: string, name: string)
    requires SmallLetters(name)
    ensures Lower(key) == name <==> Spelt(key, name)
  {
    if Lower(key) == name {
      forall i | 0 <= i < |key|
        ensures LowerChar(key[i]) == name[i]
      {
        assert Lower(key)[i] == LowerChar(key[i]);
      }
    }
  }

  /** The two fields that belong to one account, LastOwner and LastPlayed in any case. */
  predicate OfAccount(key: string)
  {
    Spelt(key, "lastowner") || Spelt(key, "lastplayed")
  }

  lemma NeutralisedIff(key: string)
    ensures Neutralised(Lower(key)) <==> OfAccount(key)
  {
    LowerIsSpelt(key, "lastowner");
    LowerIsSpelt(key, "lastplayed");
  }

  /** The value of the last line that has this field, however its key is written. */
  function LastValue(lines: seq<string>, depth: int, name: string, was: string): string
  {
    if lines == [] then was
    else
      var f := FieldOn(lines[0], depth);
      LastValue(lines[1..], DepthAfter(lines[0], depth), name,
                if f.Some? && Spelt(f.value.0, name) then f.value.1 else was)
  }

  lemma {:induction false} FieldIsLast(lines: seq<string>, depth: int, fields: map<string, string>, name: string)
    requires SmallLetters(name)
    ensures FieldOf(Fields(lines, depth, fields), name) == LastValue(lines, depth, name, FieldOf(fields, name))
    decreases |lines|
  {
    if lines != [] {
      var f := FieldOn(lines[0], depth);
      if f.Some? {
        LowerIsSpelt(f.value.0, name);
      }
      FieldIsLast(lines[1..], DepthAfter(lines[0], depth), Noted(fields, lines[0], depth), name);
    }
  }

  lemma OurNames()
    ensures SmallLetters("appid") && SmallLetters("name") && SmallLetters("installdir")
    ensures SmallLetters("buildid") && SmallLetters("stateflags") && SmallLetters("sizeondisk")
  {
  }

  /** A manifest is refused unless every line can be read, it has an id of digits, and a
      directory it names is a plain name; and what is read from it are the last values of
      its six fields. */
  lemma ParsedIs(data: string)
    ensures var lines := Lines(data);
      var id, dir := LastValue(lines, 0, "appid", ""), LastValue(lines, 0, "installdir", "");
      Parsed(data) ==
        if Scans(data) && id != "" && (forall i :: 0 <= i < |id| ==> '0' <= id[i] <= '9')
          && (dir == "" || (dir[0] != '.' && '/' !in dir && '\\' !in dir)) then
          Some(Manifest(id, LastValue(lines, 0, "name", ""), dir, LastValue(lines, 0, "buildid", ""),
                        LastValue(lines, 0, "stateflags", ""), LastValue(lines, 0, "sizeondisk", "")))
        else None
  {
    OurNames();
    var lines := Lines(data);
    SixFields(lines);
    var f := Fields(lines, 0, map[]);
    assert |f| == 0 ==> f == map[];
  }

  lemma SixFields(lines: seq<string>)
    ensures var f := Fields(lines, 0, map[]);
      && FieldOf(f, "appid") == LastValue(lines, 0, "appid", "")
      && FieldOf(f, "name") == LastValue(lines, 0, "name", "")
      && FieldOf(f, "installdir") == LastValue(lines, 0, "installdir", "")
      && FieldOf(f, "buildid") == LastValue(lines, 0, "buildid", "")
      && FieldOf(f, "stateflags") == LastValue(lines, 0, "stateflags", "")
      && FieldOf(f, "sizeondisk") == LastValue(lines, 0, "sizeondisk", "")
  {
    OurNames();
    FieldIsLast(lines, 0, map[], "appid");
    FieldIsLast(lines, 0, map[], "name");
    FieldIsLast(lines, 0, map[], "installdir");
    FieldIsLast(lines, 0, map[], "buildid");
    FieldIsLast(lines, 0, map[], "stateflags");
    FieldIsLast(lines, 0, map[], "sizeondisk");
  }

  predicate NoQuote(s: string)
  {
    forall i :: 0 <= i < |s| ==> s[i] != '"'
  }

  predicate AllSpace(s: string)
  {
    forall i :: 0 <= i < |s| ==> IsSpace(s[i])
  }

  /** A line as Steam writes it: a quoted key, white space, a quoted value. */
  lemma LineSays(indent: string, key: string, gap: string, value: string)
    requires AllSpace(indent) && NoQuote(key) && AllSpace(gap) && NoQuote(value)
    ensures FieldOn(indent + ("\"" + key + "\"" + gap + "\"" + value + "\""), 1) == Some((key, value))
  {
    var v := "\"" + value + "\"";
    var core := "\"" + key + "\"" + gap + v;
    assert "\"" + key + "\"" + gap + "\"" + value + "\"" == core;
    assert core[|core| - 1] == '"' && core[0] == '"';
    TrimCore(indent, core);
    PairSays(core, key, gap, v, value);
  }

  lemma PairSays(core: string, key: string, gap: string, v: string, value: string)
    requires NoQuote(key) && AllSpace(gap) && NoQuote(value)
    requires v == "\"" + value + "\"" && core == "\"" + key + "\"" + gap + v
    ensures ParsePair(core) == Some((key, value))
  {
    TrimCore(gap, v);
    assert core[1..] == key + ['"'] + (gap + v);
    IndexAt(key, '"', gap + v);
    assert core[1..][..|key|] == key && core[1..][|key| + 1..] == gap + v;
    assert v[1..] == value + ['"'] + "";
    IndexAt(value, '"', "");
    assert v[1..][..|value|] == value;
  }

  /** What Rewrite makes of such a line among the fields: the value of LastOwner and of
      LastPlayed, however the key is written, is 0, and any other line is as it was. */
  lemma LineReset(indent: string, key: string, gap: string, value: string)
    requires AllSpace(indent) && NoQuote(key) && AllSpace(gap) && NoQuote(value)
    ensures var line := indent + ("\"" + key + "\"" + gap + "\"" + value + "\"");
      if Spelt(key, "lastowner") || Spelt(key, "lastplayed") then FieldOn(RewriteLine(line, 1), 1) == Some((key, "0"))
      else RewriteLine(line, 1) == line
  {
    var line := indent + ("\"" + key + "\"" + gap + "\"" + value + "\"");
    LineSays(indent, key, gap, value);
    NeutralisedIff(key);
    if OfAccount(key) {
      RewrittenSays(line, 1);
      ChompTrims(RewriteLine(line, 1));
    }
  }

  /** The line as Steam writes it. */
  lemma LastOwnerIsReset(owner: string)
    requires NoQuote(owner)
    ensures FieldOn(RewriteLine("\t" + ("\"" + "LastOwner" + "\"" + "\t\t" + "\"" + owner + "\""), 1), 1)
      == Some(("LastOwner", "0"))
  {
    assert Spelt("LastOwner", "lastowner") && NoQuote("LastOwner");
    assert AllSpace("\t") && AllSpace("\t\t");
    LineReset("\t", "LastOwner", "\t\t", owner);
  }

  // ---- A manifest as Steam writes it

  function FieldLine(key: string, value: string): string
  {
    "\t" + ("\"" + key + "\"" + "\t\t" + "\"" + value + "\"")
  }

  function FieldLines(fs: seq<(string, string)>): (r: seq<string>)
    ensures |r| == |fs|
  {
    seq(|fs|, i requires 0 <= i < |fs| => FieldLine(fs[i].0, fs[i].1))
  }

  function ManifestLines(fs: seq<(string, string)>): seq<string>
  {
    ["\"AppState\"", "{"] + (FieldLines(fs) + ["}"])
  }

  /** The fields with LastOwner and LastPlayed reset. */
  function Reset(fs: seq<(string, string)>): (r: seq<(string, string)>)
    ensures |r| == |fs|
  {
    seq(|fs|, i requires 0 <= i < |fs| => (fs[i].0, if OfAccount(fs[i].0) then "0" else fs[i].1))
  }

  /** The value of the last field of this name, whatever case its key is in. */
  function LastOf(fs: seq<(string, string)>, name: string, was: string): string
  {
    if fs == [] then was
    else LastOf(fs[1..], name, if Spelt(fs[0].0, name) then fs[0].1 else was)
  }

  predicate PlainFields(fs: seq<(string, string)>)
  {
    forall i :: 0 <= i < |fs| ==> NoQuote(fs[i].0) && NoQuote(fs[i].1)
  }

  lemma FieldLineIs(key: string, value: string)
    requires NoQuote(key) && NoQuote(value)
    ensures var line := FieldLine(key, value);
      && FieldOn(line, 1) == Some((key, value)) && DepthAfter(line, 1) == 1
      && RewriteLine(line, 1) == FieldLine(key, if OfAccount(key) then "0" else value)
  {
    var core := "\"" + key + "\"" + "\t\t" + "\"" + value + "\"";
    assert AllSpace("\t") && AllSpace("\t\t");
    LineSays("\t", key, "\t\t", value);
    NeutralisedIff(key);
    assert core[0] == '"' && core[|core| - 1] == '"';
    TrimCore("\t", core);
    IndentOf("\t", core);
    assert "\t" + ("\"" + key + "\"" + "\t\t" + "\"" + "0" + "\"")
      == "\t" + "\"" + key + "\"" + "\t\t" + "\"" + "0" + "\"";
  }

  lemma OpensAndCloses(depth: int)
    ensures DepthAfter("\"AppState\"", depth) == depth
    ensures DepthAfter("{", depth) == depth + 1 && DepthAfter("}", depth) == depth - 1
    ensures FieldOn("{", depth) == None && FieldOn("}", depth) == None
  {
    TrimCore("", "\"AppState\"");
    TrimCore("", "{");
    TrimCore("", "}");
    assert "" + "\"AppState\"" == "\"AppState\"" && "" + "{" == "{" && "" + "}" == "}";
  }

  lemma FirstOfFields(fs: seq<(string, string)>, end: seq<string>)
    requires fs != []
    ensures FieldLines(fs) + end == [FieldLine(fs[0].0, fs[0].1)] + (FieldLines(fs[1..]) + end)
  {
    assert FieldLines(fs) == [FieldLine(fs[0].0, fs[0].1)] + FieldLines(fs[1..]);
  }

  lemma FirstReset(fs: seq<(string, string)>)
    requires fs != []
    ensures Reset(fs)[0] == (fs[0].0, if OfAccount(fs[0].0) then "0" else fs[0].1) && Reset(fs)[1..] == Reset(fs[1..])
  {
  }

  lemma {:induction false} FieldsRewritten(fs: seq<(string, string)>)
    requires PlainFields(fs)
    ensures RewriteLines(FieldLines(fs) + ["}"], 1) == FieldLines(Reset(fs)) + ["}"]
    decreases |fs|
  {
    OpensAndCloses(1);
    if fs == [] {
      assert FieldLines(fs) + ["}"] == ["}"] && FieldLines(Reset(fs)) + ["}"] == ["}"];
      assert ["}"][1..] == [];
    } else {
      FieldLineIs(fs[0].0, fs[0].1);
      FieldsRewritten(fs[1..]);
      FirstOfFields(fs, ["}"]);
      RewrittenOn(FieldLine(fs[0].0, fs[0].1), FieldLines(fs[1..]) + ["}"], 1);
      FirstReset(fs);
      FirstOfFields(Reset(fs), ["}"]);
    }
  }

  lemma {:induction false} FieldsRead(fs: seq<(string, string)>, name: string, was: string)
    requires PlainFields(fs)
    ensures LastValue(FieldLines(fs) + ["}"], 1, name, was) == LastOf(fs, name, was)
    decreases |fs|
  {
    OpensAndCloses(1);
    if fs == [] {
      assert FieldLines(fs) + ["}"] == ["}"];
      assert ["}"][1..] == [];
    } else {
      var rest := FieldLines(fs[1..]) + ["}"];
      FieldLineIs(fs[0].0, fs[0].1);
      FirstOfFields(fs, ["}"]);
      assert ([FieldLine(fs[0].0, fs[0].1)] + rest)[1..] == rest;
      FieldsRead(fs[1..], name, if Spelt(fs[0].0, name) then fs[0].1 else was);
    }
  }

  /** Of a manifest laid out as Steam does it, the lines handed on are the same manifest with
      LastOwner and LastPlayed reset, and every field has the value it was last given. */
  lemma ManifestHandedOn(fs: seq<(string, string)>, name: string)
    requires PlainFields(fs)
    ensures RewriteLines(ManifestLines(fs), 0) == ManifestLines(Reset(fs))
    ensures LastValue(ManifestLines(fs), 0, name, "") == LastOf(fs, name, "")
  {
    var body := FieldLines(fs) + ["}"];
    OpensAndCloses(0);
    FieldsRewritten(fs);
    FieldsRead(fs, name, "");
    assert ManifestLines(fs) == ["\"AppState\""] + (["{"] + body);
    assert (["\"AppState\""] + (["{"] + body))[1..] == ["{"] + body && (["{"] + body)[1..] == body;
    RewrittenOn("\"AppState\"", ["{"] + body, 0);
    RewrittenOn("{", body, 0);
    assert RewriteLines(["{"] + body, 0) == ["{"] + (FieldLines(Reset(fs)) + ["}"]);
  }

  // ---- The results

  /** For every manifest that parses, the one handed on parses to the same six fields, and
      all its fields are the same but the two that belong to one account; unless a line
      became too long to read, which the two tabs between key and value can make it. */
  lemma RewriteKeepsFields(data: string)
    requires Parsed(data).Some?
    ensures var lines := RewriteLines(Lines(data), 0);
      && (Short(lines) <==> forall i :: 0 <= i < |lines| ==> |lines[i]| < 1048576)
      && Parsed(Rewritten(data)) == (if Short(lines) then Parsed(data) else None)
      && (Short(lines) ==> Fields(Lines(Rewritten(data)), 0, map[]) == Neutral(Fields(Lines(data), 0, map[])))
  {
    var lines := Lines(data);
    ScanNoBreak(data);
    RewriteAllNoBreak(lines, 0);
    ScanUnlines(RewriteLines(lines, 0));
    FieldsNeutral(lines, 0, map[]);
    assert Neutral(map[]) == map[];
    NeutralSame(Fields(lines, 0, map[]));
  }

  /** The depth the scan is at when it comes to a line. */
  function DepthAt(lines: seq<string>, i: nat): int
    requires i <= |lines|
  {
    if i == 0 then 0 else DepthAfter(lines[i - 1], DepthAt(lines, i - 1))
  }

  function DepthFrom(lines: seq<string>, depth: int, i: nat): int
    requires i <= |lines|
  {
    if i == 0 then depth else DepthFrom(lines[1..], DepthAfter(lines[0], depth), i - 1)
  }

  lemma {:induction false} DepthsAgree(lines: seq<string>, depth: int, i: nat)
    requires i < |lines|
    ensures DepthFrom(lines, depth, i + 1) == DepthAfter(lines[i], DepthFrom(lines, depth, i))
    decreases i
  {
    if i > 0 {
      DepthsAgree(lines[1..], DepthAfter(lines[0], depth), i - 1);
    } else {
      assert DepthFrom(lines[1..], DepthAfter(lines[0], depth), 0) == DepthAfter(lines[0], depth);
    }
  }

  lemma {:induction false} DepthAtIs(lines: seq<string>, i: nat)
    requires i <= |lines|
    ensures DepthAt(lines, i) == DepthFrom(lines, 0, i)
  {
    if i > 0 {
      DepthAtIs(lines, i - 1);
      DepthsAgree(lines, 0, i - 1);
    }
  }

  lemma {:induction false} RewriteLinesAt(lines: seq<string>, depth: int, i: nat)
    requires i < |lines|
    ensures RewriteLines(lines, depth)[i] == RewriteLine(lines[i], DepthFrom(lines, depth, i))
    decreases i
  {
    var tail := RewriteLines(lines[1..], DepthAfter(lines[0], depth));
    assert RewriteLines(lines, depth) == [RewriteLine(lines[0], depth)] + tail;
    if i > 0 {
      RewriteLinesAt(lines[1..], DepthAfter(lines[0], depth), i - 1);
      assert RewriteLines(lines, depth)[i] == tail[i - 1] && lines[1..][i - 1] == lines[i];
    }
  }

  /** Every line of a subsection, and every line that is no neutralised field, is handed on
      as it is. */
  lemma OtherLinesKept(data: string, i: nat)
    requires i < |Lines(data)|
    ensures var lines := Lines(data); var f := FieldOn(lines[i], DepthAt(lines, i));
      && (DepthAt(lines, i) != 1 || f.None? || !OfAccount(f.value.0) ==> RewriteLines(lines, 0)[i] == lines[i])
      && (f.Some? && OfAccount(f.value.0) ==>
            FieldOn(RewriteLines(lines, 0)[i], 1) == Some((f.value.0, "0")))
  {
    var lines := Lines(data);
    DepthAtIs(lines, i);
    RewriteLinesAt(lines, 0, i);
    var f := FieldOn(lines[i], DepthAt(lines, i));
    if f.Some? {
      NeutralisedIff(f.value.0);
    }
    if f.Some? && OfAccount(f.value.0) {
      RewrittenSays(lines[i], 1);
      ChompTrims(RewriteLine(lines[i], 1));
    }
  }

  lemma {:induction false} RewriteLinesTwice(lines: seq<string>, depth: int)
    ensures var c := AllChomped(RewriteLines(lines, depth)); RewriteLines(c, depth) == c
    decreases |lines|
  {
    if lines != [] {
      var after := DepthAfter(lines[0], depth);
      var tail := RewriteLines(lines[1..], after);
      RewrittenFirst(lines, depth, tail);
      RewriteLineTwice(lines[0], depth);
      RewriteLinesTwice(lines[1..], after);
      RewrittenOn(Chomp(RewriteLine(lines[0], depth)), AllChomped(tail), depth);
    }
  }

  lemma RewrittenOn(line: string, tail: seq<string>, depth: int)
    ensures RewriteLines([line] + tail, depth)
      == [RewriteLine(line, depth)] + RewriteLines(tail, DepthAfter(line, depth))
  {
    assert ([line] + tail)[1..] == tail;
  }

  lemma {:induction false} ChompedShorter(lines: seq<string>)
    ensures |Unlines(AllChomped(lines))| <= |Unlines(lines)|
    ensures |Unlines(AllChomped(lines))| == |Unlines(lines)| ==> AllChomped(lines) == lines
    decreases |lines|
  {
    if lines != [] {
      var n := |lines| - 1;
      ChompedShorter(lines[..n]);
      assert AllChomped(lines)[..n] == AllChomped(lines[..n]);
      assert lines == lines[..n] + [lines[n]];
      if |Unlines(AllChomped(lines))| == |Unlines(lines)| {
        assert AllChomped(lines) == AllChomped(lines[..n]) + [Chomp(lines[n])];
      }
    }
  }

  /** Rewriting a manifest that is already rewritten changes nothing exactly when no line
      of it ends in a carriage return: the scanner takes one off every line. */
  lemma RewriteTwiceIff(data: string)
    requires Short(RewriteLines(Lines(data), 0))
    ensures var lines := RewriteLines(Lines(data), 0);
      Rewritten(Rewritten(data)) == Rewritten(data) <==> AllChomped(lines) == lines
  {
    var lines := Lines(data);
    ScanNoBreak(data);
    RewriteAllNoBreak(lines, 0);
    ScanUnlines(RewriteLines(lines, 0));
    RewriteLinesTwice(lines, 0);
    ChompedShorter(RewriteLines(lines, 0));
  }

  predicate NoReturns(data: string)
  {
    forall i :: 0 <= i < |data| ==> data[i] != '\r'
  }

  /** In particular for every manifest without carriage returns. */
  lemma RewriteTwice(data: string, once: string)
    requires NoReturns(data) && once == Rewritten(data) && Short(RewriteLines(Lines(data), 0))
    ensures Rewritten(once) == once
  {
    NothingToChomp(data);
    RewriteTwiceIff(data);
  }

  lemma NothingToChomp(data: string)
    requires NoReturns(data)
    ensures AllChomped(RewriteLines(Lines(data), 0)) == RewriteLines(Lines(data), 0)
  {
    ScanNoReturn(data);
    RewriteNoReturn(Lines(data), 0);
  }

  predicate NoReturn(lines: seq<string>)
  {
    forall i :: 0 <= i < |lines| ==> Chomp(lines[i]) == lines[i]
  }

  lemma {:induction false} ScanNoReturn(data: string)
    requires NoReturns(data)
    ensures NoReturn(Lines(data))
    decreases |data|
  {
    if data != "" {
      var i := Index(data, '\n');
      if i < MAX_LINE {
        ScanNoReturn(Rest(data));
      }
    }
  }

  lemma RewriteLineNoReturn(line: string, depth: int)
    requires Chomp(line) == line
    ensures Chomp(RewriteLine(line, depth)) == RewriteLine(line, depth)
  {
    var f := FieldOn(line, depth);
    if f.Some? && Neutralised(Lower(f.value.0)) {
      var r := RewriteLine(line, depth);
      assert r[|r| - 1] == '"';
    }
  }

  lemma {:induction false} RewriteNoReturn(lines: seq<string>, depth: int)
    requires NoReturn(lines)
    ensures NoReturn(RewriteLines(lines, depth)) && AllChomped(RewriteLines(lines, depth)) == RewriteLines(lines, depth)
    decreases |lines|
  {
    if lines != [] {
      RewriteNoReturn(lines[1..], DepthAfter(lines[0], depth));
      RewriteLineNoReturn(lines[0], depth);
      ChompedFirst(RewriteLines(lines, depth));
    }
  }

  // ---- Where it is filed

  /** A manifest handed on is filed under the id it declares itself, and two under one name
      declare one id. */
  lemma FiledUnderOwnId(data: string, other: string)
    requires Parsed(data).Some? && Parsed(other).Some?
    requires Short(RewriteLines(Lines(data), 0)) && Short(RewriteLines(Lines(other), 0))
    ensures Parsed(Rewritten(data)).Some? && Parsed(Rewritten(other)).Some?
    ensures Titles.ManifestName(Parsed(Rewritten(data)).value.id) == Titles.ManifestName(Parsed(data).value.id)
    ensures Titles.ManifestName(Parsed(data).value.id) == Titles.ManifestName(Parsed(other).value.id)
      ==> Parsed(Rewritten(data)).value.id == Parsed(Rewritten(other)).value.id
  {
    RewriteKeepsFields(data);
    RewriteKeepsFields(other);
    var a, b := Parsed(data).value.id, Parsed(other).value.id;
    if Titles.ManifestName(a) == Titles.ManifestName(b) {
      assert a == Titles.ManifestName(a)[12..12 + |a|];
      assert b == Titles.ManifestName(b)[12..12 + |b|];
      assert |Titles.ManifestName(a)| == 12 + |a| + 4 && |Titles.ManifestName(b)| == 12 + |b| + 4;
    }
  }
}
