/** The two settings over whole files: what each call does, twice over, and one after the
    other. */
module SteamProofs {
  import opened Wrappers
  import opened Vdf
  import opened VdfPrint
  import opened Text
  import opened SteamPlay
  import opened SteamTrees
  import opened SteamSettings

  /** A value that stays: the wanted one already, or, for the tool, one of somebody's own. */
  predicate Kept(current: string, value: string, theirs: bool)
  {
    current == value || (theirs && current != "" && !(PROTON <= current))
  }

  /** What a call does where the way along its path ends. */
  function Expected(text: string, n: Node, rest: seq<string>, value: string, theirs: bool): Outcome
    requires In(text, n) && (if rest != [] then n.Block? else n.Pair?)
  {
    if rest == [] && Kept(TrimQuotes(ValueSpan(text, n)), value, theirs) then Outcome(text, false, false)
    else Outcome(Change(text, n, rest, value), true, false)
  }

  /** Stop, starting at any node. */
  function StopFrom(n: Node, path: seq<string>): (Node, seq<string>)
    requires path != []
  {
    if Find(Keys(Children(n)), path[0]) == |Children(n)| then (n, path) else Stop(Children(n), path)
  }

  predicate AsExpected(text: string, at: (Node, seq<string>), value: string, theirs: bool, r: Outcome)
  {
    var (n, rest) := at;
    In(text, n) && (if rest != [] then n.Block? else n.Pair?) && r == Expected(text, n, rest, value, theirs)
  }

  // ---- The calls, as edits where the way along the setting's path ends

  lemma {:induction false} WalkHas(ns: seq<Node>, keys: seq<string>)
    requires keys != []
    ensures Walk(ns, keys).Some? == Has(EraseAll(ns), keys)
    decreases |keys|
  {
    KeysErase(ns);
    var i := Find(Keys(ns), keys[0]);
    if i < |ns| && |keys| > 1 {
      WalkHas(Children(ns[i]), keys[1..]);
      if ns[i].Pair? {
        assert Find(Keys([]), keys[1]) == 0;
      }
    }
  }

  lemma {:induction false} WalkStop(ns: seq<Node>, keys: seq<string>, rest: seq<string>)
    requires keys != [] && rest != [] && Walk(ns, keys).Some? && Fits(EraseAll(ns), keys + rest)
    ensures Find(Keys(ns), (keys + rest)[0]) < |ns|
    ensures var n := Walk(ns, keys).value;
      n.Block? && Fits(EraseAll(n.kids), rest) && Stop(ns, keys + rest) == StopFrom(n, rest)
    decreases |keys|
  {
    KeysErase(ns);
    var n := ns[Find(Keys(ns), keys[0])];
    assert (keys + rest)[1..] == keys[1..] + rest;
    assert n.Block?;
    if |keys| > 1 {
      WalkStop(n.kids, keys[1..], rest);
    }
  }

  /** One block further along. */
  lemma Deeper(n: Node, path: seq<string>, c: Node)
    requires n.Block? && |path| > 1 && Child(n.kids, path[0]) == Some(c) && c.Block?
    ensures StopFrom(n, path) == StopFrom(c, path[1..])
    ensures Fits(EraseAll(n.kids), path) == Fits(EraseAll(c.kids), path[1..])
  {
    KeysErase(n.kids);
  }

  const UNDER_MAPPING: seq<string> := [GLOBAL, NAME]

  lemma UnderSteamIs(text: string, n: Node, tool: string)
    requires InAll(text, n) && n.Block? && Fits(EraseAll(n.kids), UNDER_STEAM)
    ensures AsExpected(text, StopFrom(n, UNDER_STEAM), tool, true, SetUnderSteam(text, n, tool))
  {
    KeysErase(n.kids);
    ChildIn(text, n, MAPPING);
    var c := Child(n.kids, MAPPING);
    if c.None? {
      MappingBlockIs(IndentBefore(text, n.at) + "\t", tool);
    } else {
      assert UNDER_STEAM[1..] == UNDER_MAPPING;
      Deeper(n, UNDER_STEAM, c.value);
      UnderMappingIs(text, c.value, tool);
    }
  }

  lemma UnderMappingIs(text: string, n: Node, tool: string)
    requires InAll(text, n) && n.Block? && Fits(EraseAll(n.kids), UNDER_MAPPING)
    ensures AsExpected(text, StopFrom(n, UNDER_MAPPING), tool, true, SetUnderMapping(text, n, tool))
  {
    KeysErase(n.kids);
    ChildIn(text, n, GLOBAL);
    var c := Child(n.kids, GLOBAL);
    if c.None? {
      GlobalBlockIs(IndentBefore(text, n.at) + "\t", tool);
    } else {
      assert UNDER_MAPPING[1..] == [NAME];
      Deeper(n, UNDER_MAPPING, c.value);
      UnderGlobalIs(text, c.value, tool);
    }
  }

  lemma UnderGlobalIs(text: string, n: Node, tool: string)
    requires InAll(text, n) && n.Block? && Fits(EraseAll(n.kids), [NAME])
    ensures AsExpected(text, StopFrom(n, [NAME]), tool, true, SetUnderGlobal(text, n, tool))
  {
    KeysErase(n.kids);
    ChildIn(text, n, NAME);
    var indent := IndentBefore(text, n.at);
    NameLineIs(indent + "\t", tool);
    assert "\n" + indent + "\t" == "\n" + (indent + "\t");
  }

  /** SetCompatTool, on a file with a Steam block whose setting is of the right kind. */
  lemma CompatIs(text: string, ns: seq<Node>, tool: string)
    requires !IsEmpty(text) && Parse(text) == Some(ns) && Has(EraseAll(ns), STEAM) && Fits(EraseAll(ns), COMPAT)
    ensures Find(Keys(ns), COMPAT[0]) < |ns|
    ensures AsExpected(text, Stop(ns, COMPAT), tool, true, SetCompatTool(text, tool))
  {
    WalkHas(ns, STEAM);
    WalkStop(ns, STEAM, UNDER_STEAM);
    WalkIn(text, ns, STEAM);
    UnderSteamIs(text, Walk(ns, STEAM).value, tool);
  }

  /** A call that fails leaves its input alone; one that looks at every kind on its way
      fails exactly when one is wrong. */
  predicate Checked(text: string, fits: bool, at: (Node, seq<string>), r: Outcome)
  {
    if fits then AsExpected(text, at, "0", false, r) else r == Outcome(text, false, true)
  }

  const UNDER_STORE: seq<string> := [CUSTOMIZATION, SCREENSAVER, WHILE_IN_GAME]
  const UNDER_CUSTOMIZATION: seq<string> := [SCREENSAVER, WHILE_IN_GAME]

  lemma UnderStoreIs(text: string, n: Node)
    requires InAll(text, n) && n.Block?
    ensures Checked(text, Fits(EraseAll(n.kids), UNDER_STORE), StopFrom(n, UNDER_STORE), SetUnderStore(text, n))
  {
    KeysErase(n.kids);
    ChildIn(text, n, CUSTOMIZATION);
    var c := Child(n.kids, CUSTOMIZATION);
    if c.None? {
      CustomizationBlockIs(IndentBefore(text, n.at) + "\t");
      ZeroIsPlain();
    } else if c.value.Block? {
      assert UNDER_STORE[1..] == UNDER_CUSTOMIZATION;
      Deeper(n, UNDER_STORE, c.value);
      UnderCustomizationIs(text, c.value);
    }
  }

  lemma ZeroIsPlain()
    ensures Escape("0") == "0"
  {
    PlainText("0");
  }

  lemma UnderCustomizationIs(text: string, n: Node)
    requires InAll(text, n) && n.Block?
    ensures Checked(text, Fits(EraseAll(n.kids), UNDER_CUSTOMIZATION), StopFrom(n, UNDER_CUSTOMIZATION),
                    SetUnderCustomization(text, n))
  {
    KeysErase(n.kids);
    ChildIn(text, n, SCREENSAVER);
    var c := Child(n.kids, SCREENSAVER);
    if c.None? {
      ScreensaverBlockIs(IndentBefore(text, n.at) + "\t");
      ZeroIsPlain();
    } else if c.value.Block? {
      assert UNDER_CUSTOMIZATION[1..] == [WHILE_IN_GAME];
      Deeper(n, UNDER_CUSTOMIZATION, c.value);
      UnderScreensaverIs(text, c.value);
    }
  }

  lemma UnderScreensaverIs(text: string, n: Node)
    requires InAll(text, n) && n.Block?
    ensures Checked(text, Fits(EraseAll(n.kids), [WHILE_IN_GAME]), StopFrom(n, [WHILE_IN_GAME]),
                    SetUnderScreensaver(text, n))
  {
    KeysErase(n.kids);
    ChildIn(text, n, WHILE_IN_GAME);
    WhileInGameLineIs(IndentBefore(text, n.at) + "\t");
    ZeroIsPlain();
  }

  /** SetScreensaverOff, on any file that reads. */
  lemma ScreenIs(text: string, ns: seq<Node>)
    requires !IsEmpty(text) && Parse(text) == Some(ns)
    ensures var fits := Has(EraseAll(ns), [STORE]) && Fits(EraseAll(ns), SCREEN);
      if fits then
        Find(Keys(ns), SCREEN[0]) < |ns| && AsExpected(text, Stop(ns, SCREEN), "0", false, SetScreensaverOff(text))
      else SetScreensaverOff(text) == Outcome(text, false, true)
  {
    KeysErase(ns);
    ParseIn(text, ns);
    var store := Child(ns, STORE);
    assert SCREEN[1..] == UNDER_STORE;
    if store.Some? && store.value.Block? {
      UnderStoreIs(text, store.value);
    }
  }
}
