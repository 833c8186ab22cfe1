/** What decides what the two calls do to a value that is there already. */
module SteamChoice {
  import opened Wrappers
  import opened Vdf
  import opened VdfEdits
  import opened VdfPrint
  import opened Text
  import opened SteamPlay
  import opened SteamTrees
  import opened SteamSettings
  import opened SteamProofs
  import opened SteamRuns
  import opened SteamFresh

  /** The file names a tool for everything, this one. */
  ghost predicate NamesTool(text: string, ns: seq<Node>, value: string)
  {
    && Parse(text) == Some(ns) && !IsEmpty(text)
    && Has(EraseAll(ns), ["InstallConfigStore", "Software", "Valve", "Steam"]) && Fits(EraseAll(ns), TOOL)
    && Lookup(EraseAll(ns), TOOL) == Some(value)
  }

  const TOOL: seq<string> := ["InstallConfigStore", "Software", "Valve", "Steam", "CompatToolMapping", "0", "name"]
  const SAVER: seq<string> := ["InstallConfigStore", "Customization", "Screensaver", "WhileInGame"]

  lemma ThePaths()
    ensures COMPAT == TOOL && SCREEN == SAVER && STEAM == TOOL[..4]
    ensures TOOL[..4] == ["InstallConfigStore", "Software", "Valve", "Steam"]
  {
  }

  /** A name that is there stays, and the file with it, exactly when it is the tool's own or
      one of somebody's choosing: not empty, and not beginning with the fourteen characters
      of proton-cachyos.  Any other name is replaced, and nothing else. */
  lemma NameDecides(text: string, ns: seq<Node>, value: string, tool: string)
    requires NamesTool(text, ns, value)
    ensures var name, r := TrimQuotes("\"" + value + "\""), SetCompatTool(text, tool);
      if name == tool || (name != "" && !(|name| >= 14 && name[..14] == "proton-cachyos")) then
        r == Outcome(text, false, false)
      else
        r.changed && !r.failed && TreeOf(r.data) == Some(With(EraseAll(ns), TOOL, Escape(tool)))
  {
    ThePaths();
    ThereIsSited(text, ns, COMPAT);
    CompatSetsOne(text, ns, tool);
    CompatIs(text, ns, tool);
    PrefixIs(Shown(value), PROTON);
  }

  lemma PrefixIs(name: string, prefix: string)
    ensures prefix <= name <==> |name| >= |prefix| && name[..|prefix|] == prefix
  {
  }

  /** A value that is there is rewritten where it is. */
  lemma ThereIsSited(text: string, ns: seq<Node>, path: seq<string>)
    requires Parse(text) == Some(ns) && path != [] && Fits(EraseAll(ns), path) && Lookup(EraseAll(ns), path).Some?
    ensures Find(Keys(ns), path[0]) < |ns| && SitedAt(text, ns, path)
  {
    KeysErase(ns);
    SpansAreExact(text, ns);
    StopKnown(text, ns, path);
    StopFound(text, ns, path);
    KnownIn(text, Stop(ns, path).0);
  }

  /** Somebody's own choice: any name but the daemon's own. */
  lemma TheirNameStays(text: string, ns: seq<Node>, name: string, tool: string)
    requires NamesTool(text, ns, name) && name != "" && name[0] != '"' && name[|name| - 1] != '"'
    requires |name| < 14 || name[..14] != "proton-cachyos"
    ensures SetCompatTool(text, tool) == Outcome(text, false, false)
  {
    QuotesOff(name);
    NameDecides(text, ns, name, tool);
  }

  lemma NotOurs(start: string)
    requires |start| == 14 && start[6] == '_'
    ensures start != "proton-cachyos"
  {
    assert "proton-cachyos"[6] == '-';
  }

  /** Such as Proton Experimental, whatever the tool. */
  lemma ExperimentalStays(text: string, ns: seq<Node>, name: string, tool: string)
    requires NamesTool(text, ns, name) && name == "proton_experimental"
    ensures SetCompatTool(text, tool) == Outcome(text, false, false)
  {
    Experimental(name);
    NotOurs(name[..14]);
    TheirNameStays(text, ns, name, tool);
  }

  lemma Experimental(name: string)
    requires name == "proton_experimental"
    ensures |name| == 19 && name[0] == 'p' && name[6] == '_' && name[18] == 'l'
  {
  }

  /** The daemon's own, under a name with more in it. */
  lemma OwnNameGoes(text: string, ns: seq<Node>, name: string, tool: string)
    requires NamesTool(text, ns, name) && tool == "proton-cachyos" && |name| > 14 && name[..14] == tool
    requires name[|name| - 1] != '"'
    ensures var r := SetCompatTool(text, tool);
      r.changed && !r.failed && TreeOf(r.data) == Some(With(EraseAll(ns), TOOL, tool))
  {
    assert name[0] == name[..14][0] == 'p';
    QuotesOff(name);
    NameDecides(text, ns, name, tool);
    ToolIsPlain(tool);
  }

  lemma ToolIsPlain(tool: string)
    requires tool == "proton-cachyos"
    ensures Escape(tool) == tool
  {
    PlainText(tool);
  }

  /** Such as a version had before. */
  lemma OldNameGoes(text: string, ns: seq<Node>, name: string, more: string)
    requires NamesTool(text, ns, name) && name == "proton-cachyos" + more && more == "-11.0-20260703-slr-x86_64_v3"
    ensures var r := SetCompatTool(text, "proton-cachyos"); r.changed && !r.failed
  {
    TakesOff("proton-cachyos", more);
    OwnNameGoes(text, ns, name, "proton-cachyos");
  }

  lemma TakesOff(a: string, b: string)
    ensures (a + b)[..|a|] == a
  {
  }

  /** A switch that is there is left alone exactly when it says 0. */
  lemma SwitchDecides(text: string, ns: seq<Node>, value: string)
    requires Parse(text) == Some(ns) && !IsEmpty(text)
    requires Has(EraseAll(ns), ["InstallConfigStore"]) && Fits(EraseAll(ns), SAVER)
    requires Lookup(EraseAll(ns), SAVER) == Some(value)
    ensures var r := SetScreensaverOff(text);
      if TrimQuotes("\"" + value + "\"") == "0" then r == Outcome(text, false, false)
      else r.changed && !r.failed && TreeOf(r.data) == Some(With(EraseAll(ns), SAVER, "0"))
  {
    ThePaths();
    ThereIsSited(text, ns, SCREEN);
    ScreenSetsOne(text, ns);
    ScreenIs(text, ns);
    ZeroIsPlain();
  }

  /** From an empty file the setting stands alone under its blocks, with what Steam writes
      beside it. */
  lemma FromNothing(text: string, tool: string)
    requires IsEmpty(text)
    ensures TreeOf(SetCompatTool(text, tool).data) == Some([
      Branch("InstallConfigStore", [
        Branch("Software", [
          Branch("Valve", [
            Branch("Steam", [
              Branch("CompatToolMapping", [
                Branch("0", [Leaf("name", Escape(tool)), Leaf("config", ""), Leaf("priority", "75")])])])])])])])
  {
    CompatFromNothing(text, tool);
    NestedIs(Escape(tool));
  }

  lemma NestedIs(value: string)
    ensures New(COMPAT, value) ==
      Branch("InstallConfigStore", [
        Branch("Software", [
          Branch("Valve", [
            Branch("Steam", [
              Branch("CompatToolMapping", [
                Branch("0", [Leaf("name", value), Leaf("config", ""), Leaf("priority", "75")])])])])])])
  {
    var name := Leaf("name", value);
    var zero := Branch("0", [name, Leaf("config", ""), Leaf("priority", "75")]);
    assert UNDER_MAPPING[1..] == [NAME] && UNDER_STEAM[1..] == UNDER_MAPPING;
    assert New([NAME], value) == name;
    assert New(UNDER_MAPPING, value) == zero;
    assert [zero] + [] == [zero];
    assert New(UNDER_STEAM, value) == Branch("CompatToolMapping", [zero]);
    CompatIsNested(value);
  }
}
