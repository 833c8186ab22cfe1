/** What SetCompatTool and SetScreensaverOff promise over whole files. */
module SteamRuns {
  import opened Wrappers
  import opened Vdf
  import opened VdfEdits
  import opened VdfPrint
  import opened Text
  import opened SteamPlay
  import opened SteamTrees
  import opened SteamSettings
  import opened SteamProofs
  import opened SteamTidy

  function TreeOf(text: string): (r: Option<seq<Tree>>)
  {
    match Parse(text)
    case None => None
    case Some(ns) => Some(EraseAll(ns))
  }

  /** The value as the calls look at it: what is between the quotes, and no quotes at its
      ends. */
  function Shown(value: string): string
  {
    TrimQuotes(Raw(value))
  }

  lemma {:induction false} StopFound(text: string, ns: seq<Node>, path: seq<string>)
    requires path != [] && Find(Keys(ns), path[0]) < |ns| && Fits(EraseAll(ns), path)
    ensures var (n, rest) := Stop(ns, path);
      if rest == [] then n.Pair? && Lookup(EraseAll(ns), path) == Some(n.value) else Lookup(EraseAll(ns), path) == None
    decreases |path|
  {
    KeysErase(ns);
    var n := ns[Find(Keys(ns), path[0])];
    if |path| > 1 {
      KeysErase(n.kids);
      if Find(Keys(n.kids), path[1]) < |n.kids| {
        StopFound(text, n.kids, path[1..]);
      }
    }
  }

  lemma NotEmpty(text: string, ns: seq<Node>)
    requires Parse(text) == Some(ns) && ns != []
    ensures !IsEmpty(text)
  {
    SpansAreExact(text, ns);
    assert Known(text, ns[0]);
    assert !IsSpace(text[ns[0].at]);
  }

  /** The first line of the block the edit goes into, where there is such a block. */
  predicate SitedAt(text: string, ns: seq<Node>, path: seq<string>)
    requires path != [] && Find(Keys(ns), path[0]) < |ns|
  {
    var (n, rest) := Stop(ns, path);
    In(text, n) && Sited(text, n, rest)
  }

  /** What one call makes of a file: the one setting, or nothing because of the value that
      is there. */
  ghost predicate SetsOne(text: string, ts: seq<Tree>, path: seq<string>, value: string, theirs: bool, r: Outcome)
    requires path != []
  {
    var was := Lookup(ts, path);
    && !r.failed
    && (r.changed <==> !(was.Some? && Kept(Shown(was.value), value, theirs)))
    && (if r.changed then TreeOf(r.data) == Some(With(ts, path, Escape(value))) else r.data == text)
  }

  lemma ExpectedSets(text: string, ns: seq<Node>, path: seq<string>, value: string, theirs: bool, r: Outcome)
    requires Parse(text) == Some(ns) && PlainPath(path) && Find(Keys(ns), path[0]) < |ns| && Fits(EraseAll(ns), path)
    requires SitedAt(text, ns, path) && AsExpected(text, Stop(ns, path), value, theirs, r)
    ensures SetsOne(text, EraseAll(ns), path, value, theirs, r)
  {
    SpansAreExact(text, ns);
    StopKnown(text, ns, path);
    StopFound(text, ns, path);
    ChangeMeans(text, ns, path, value);
  }

  /** SetCompatTool, on a file with a Steam block and what there is of the setting of the
      right kind: the file afterwards says what it said with the one setting added or
      replaced, and every other key, value and order kept; or it is the file it was, because
      the tool is named already or somebody chose one of their own. */
  lemma CompatSetsOne(text: string, ns: seq<Node>, tool: string)
    requires !IsEmpty(text) && Parse(text) == Some(ns) && Has(EraseAll(ns), STEAM) && Fits(EraseAll(ns), COMPAT)
    requires Find(Keys(ns), COMPAT[0]) < |ns| ==> SitedAt(text, ns, COMPAT)
    ensures SetsOne(text, EraseAll(ns), COMPAT, tool, true, SetCompatTool(text, tool))
  {
    CompatIs(text, ns, tool);
    OurKeysPlain();
    ExpectedSets(text, ns, COMPAT, tool, true, SetCompatTool(text, tool));
  }

  /** SetScreensaverOff likewise.  It fails, leaving the file alone, exactly when there is
      no store or something on its way is of the wrong kind. */
  lemma ScreenSetsOne(text: string, ns: seq<Node>)
    requires !IsEmpty(text) && Parse(text) == Some(ns)
    requires Find(Keys(ns), SCREEN[0]) < |ns| ==> SitedAt(text, ns, SCREEN)
    ensures var r := SetScreensaverOff(text);
      if Has(EraseAll(ns), [STORE]) && Fits(EraseAll(ns), SCREEN) then
        SetsOne(text, EraseAll(ns), SCREEN, "0", false, r)
      else r == Outcome(text, false, true)
  {
    ScreenIs(text, ns);
    OurKeysPlain();
    if Has(EraseAll(ns), [STORE]) && Fits(EraseAll(ns), SCREEN) {
      ExpectedSets(text, ns, SCREEN, "0", false, SetScreensaverOff(text));
    }
  }

  // ---- Twice

  /** Writing a value over itself changes no character. */
  lemma SameAgain(text: string, ns: seq<Node>, path: seq<string>, value: string, theirs: bool, r: Outcome)
    requires Parse(text) == Some(ns) && path != [] && Find(Keys(ns), path[0]) < |ns| && Fits(EraseAll(ns), path)
    requires Lookup(EraseAll(ns), path) == Some(Escape(value))
    requires AsExpected(text, Stop(ns, path), value, theirs, r)
    ensures !r.failed && r.data == text
  {
    SpansAreExact(text, ns);
    StopKnown(text, ns, path);
    StopFound(text, ns, path);
    Overwrite(text, Stop(ns, path).0, value);
  }

  lemma Overwrite(text: string, n: Node, value: string)
    requires Known(text, n) && n.Pair? && n.value == Escape(value)
    ensures Replaced(text, n, value) == text
  {
    Stitch(text, n.valueStart, n.valueEnd, Quote(value));
  }

  lemma Stitch(text: string, from: nat, end: nat, middle: string)
    requires from <= end <= |text| && text[from..end] == middle
    ensures text[..from] + middle + text[end..] == text
  {
  }

  /** The second call of SetCompatTool leaves every character as the first did. */
  lemma CompatTwice(text: string, ns: seq<Node>, tool: string)
    requires !IsEmpty(text) && Parse(text) == Some(ns) && Has(EraseAll(ns), STEAM) && Fits(EraseAll(ns), COMPAT)
    requires Find(Keys(ns), COMPAT[0]) < |ns| ==> SitedAt(text, ns, COMPAT)
    ensures var once := SetCompatTool(text, tool).data; SetCompatTool(once, tool).data == once
  {
    CompatSetsOne(text, ns, tool);
    var r := SetCompatTool(text, tool);
    if r.changed {
      CompatAgain(r.data, Parse(r.data).value, EraseAll(ns), tool);
    }
  }

  lemma CompatAgain(once: string, ms: seq<Node>, ts: seq<Tree>, tool: string)
    requires Parse(once) == Some(ms) && EraseAll(ms) == With(ts, COMPAT, Escape(tool)) && Has(ts, STEAM)
    requires Fits(ts, COMPAT)
    ensures SetCompatTool(once, tool).data == once && !SetCompatTool(once, tool).failed
  {
    WithHas(ts, COMPAT, Escape(tool));
    WithStillHas(ts, STEAM, UNDER_STEAM, Escape(tool));
    WalkHas(ms, STEAM);
    NotEmpty(once, ms);
    CompatIs(once, ms, tool);
    SameAgain(once, ms, COMPAT, tool, true, SetCompatTool(once, tool));
  }

  lemma ScreenTwice(text: string, ns: seq<Node>)
    requires !IsEmpty(text) && Parse(text) == Some(ns)
    requires Find(Keys(ns), SCREEN[0]) < |ns| ==> SitedAt(text, ns, SCREEN)
    ensures var once := SetScreensaverOff(text).data; SetScreensaverOff(once).data == once
  {
    ScreenSetsOne(text, ns);
    var r := SetScreensaverOff(text);
    if r.changed {
      var ts, ms := EraseAll(ns), Parse(r.data).value;
      WithHas(ts, SCREEN, Escape("0"));
      assert [STORE] + UNDER_STORE == SCREEN;
      WithStillHas(ts, [STORE], UNDER_STORE, Escape("0"));
      KeysErase(ms);
      NotEmpty(r.data, ms);
      ScreenIs(r.data, ms);
      SameAgain(r.data, ms, SCREEN, "0", false, SetScreensaverOff(r.data));
    }
  }

  // ---- One after the other

  /** A file both calls can work on: it reads, it has a Steam block, what there is of either
      setting is of the right kind, and every block starts a line. */
  ghost predicate Usable(text: string)
  {
    match Parse(text)
    case None => false
    case Some(ns) =>
      !IsEmpty(text) && Tidy(text, ns) && Has(EraseAll(ns), STEAM) && Fits(EraseAll(ns), COMPAT)
        && Fits(EraseAll(ns), SCREEN)
  }

  /** The setting is in place: the value, or for the tool another that stays. */
  ghost predicate Holds(text: string, path: seq<string>, value: string, theirs: bool)
    requires path != []
  {
    var ts := TreeOf(text);
    ts.Some? && var v := Lookup(ts.value, path);
      v.Some? && (v.value == Escape(value) || Kept(Shown(v.value), value, theirs))
  }

  lemma TidySited(text: string, ns: seq<Node>, path: seq<string>)
    requires Parse(text) == Some(ns) && Tidy(text, ns) && path != [] && Find(Keys(ns), path[0]) < |ns|
    requires Fits(EraseAll(ns), path)
    ensures SitedAt(text, ns, path)
  {
    SpansAreExact(text, ns);
    StopKnown(text, ns, path);
    TidyStop(text, ns, path);
    FirstIsBlank(text, Stop(ns, path).0.at);
  }

  lemma ExpectedTidy(text: string, ns: seq<Node>, path: seq<string>, value: string, theirs: bool, r: Outcome)
    requires Parse(text) == Some(ns) && PlainPath(path) && Find(Keys(ns), path[0]) < |ns| && Fits(EraseAll(ns), path)
    requires Tidy(text, ns) && AsExpected(text, Stop(ns, path), value, theirs, r)
    ensures Parse(r.data).Some? && Tidy(r.data, Parse(r.data).value)
  {
    TidySited(text, ns, path);
    ChangeMeans(text, ns, path, value);
    ChangeTidy(text, ns, path, value);
  }

  lemma OurPathsPart()
    ensures Differ(COMPAT[1], SCREEN[1]) && COMPAT[0] == SCREEN[0] == STORE && Differ(SCREEN[1], COMPAT[1])
  {
    assert COMPAT[1] == "Software" && SCREEN[1] == CUSTOMIZATION;
    assert |"Software"| == 8 && |CUSTOMIZATION| == 13;
  }

  /** SetCompatTool leaves a usable file, with its own setting in place and the other as it
      was. */
  lemma CompatKeepsUsable(text: string, tool: string)
    requires Usable(text)
    ensures var r := SetCompatTool(text, tool);
      && !r.failed && Usable(r.data) && Holds(r.data, COMPAT, tool, true)
      && Lookup(TreeOf(r.data).value, SCREEN) == Lookup(TreeOf(text).value, SCREEN)
  {
    var ns := Parse(text).value;
    var ts := EraseAll(ns);
    OurKeysPlain();
    KeysErase(ns);
    TidySited(text, ns, COMPAT);
    CompatSetsOne(text, ns, tool);
    CompatIs(text, ns, tool);
    var r := SetCompatTool(text, tool);
    if r.changed {
      ExpectedTidy(text, ns, COMPAT, tool, true, r);
      WithHas(ts, COMPAT, Escape(tool));
      WithStillHas(ts, STEAM, UNDER_STEAM, Escape(tool));
      OurPathsPart();
      WithKeepsUnder(ts, COMPAT, Escape(tool), SCREEN);
      NotEmpty(r.data, Parse(r.data).value);
    }
  }

  lemma ScreenKeepsUsable(text: string)
    requires Usable(text)
    ensures var r := SetScreensaverOff(text);
      && !r.failed && Usable(r.data) && Holds(r.data, SCREEN, "0", false)
      && Lookup(TreeOf(r.data).value, COMPAT) == Lookup(TreeOf(text).value, COMPAT)
  {
    var ns := Parse(text).value;
    var ts := EraseAll(ns);
    OurKeysPlain();
    OurPathsPart();
    KeysErase(ns);
    TidySited(text, ns, SCREEN);
    ScreenSetsOne(text, ns);
    ScreenIs(text, ns);
    var r := SetScreensaverOff(text);
    if r.changed {
      ExpectedTidy(text, ns, SCREEN, "0", false, r);
      WithHas(ts, SCREEN, Escape("0"));
      WithKeepsUnder(ts, SCREEN, Escape("0"), COMPAT);
      ScreenKeepsSteam(ts);
      NotEmpty(r.data, Parse(r.data).value);
    }
  }

  lemma ScreenKeepsSteam(ts: seq<Tree>)
    requires Has(ts, STEAM)
    ensures Has(With(ts, SCREEN, Escape("0")), STEAM)
  {
    OurPathsPart();
    WithKeepsUnder(ts, SCREEN, Escape("0"), STEAM);
  }

  /** Both settings hold after both calls, whichever comes first. */
  lemma BothHold(text: string, tool: string)
    requires Usable(text)
    ensures var r := SetScreensaverOff(SetCompatTool(text, tool).data);
      !r.failed && Usable(r.data) && Holds(r.data, COMPAT, tool, true) && Holds(r.data, SCREEN, "0", false)
    ensures var r := SetCompatTool(SetScreensaverOff(text).data, tool);
      !r.failed && Usable(r.data) && Holds(r.data, COMPAT, tool, true) && Holds(r.data, SCREEN, "0", false)
  {
    CompatKeepsUsable(text, tool);
    ScreenKeepsUsable(SetCompatTool(text, tool).data);
    ScreenKeepsUsable(text);
    CompatKeepsUsable(SetScreensaverOff(text).data, tool);
  }
}
