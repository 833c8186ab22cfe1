/** The two settings written into Steam's configuration (internal/seat/steamplay.go,
    SetCompatTool and SetScreensaverOff). */
module SteamPlay {
  import opened Wrappers
  import opened Vdf
  import opened VdfEdits
  import opened Text

  // ---- Text

  function LineStart(data: string, offset: nat): (r: nat)
    requires offset <= |data|
    ensures r <= offset
  {
    if offset == 0 || data[offset - 1] == '\n' then offset else LineStart(data, offset - 1)
  }

  /** Everything before `offset` on its line. */
  function IndentBefore(data: string, offset: nat): string
    requires offset <= |data|
  {
    data[LineStart(data, offset)..offset]
  }

  predicate IsEmpty(text: string)
  {
    forall i :: 0 <= i < |text| ==> IsSpace(text[i])
  }

  /** Each backslash and each quote with a backslash before it. */
  function Escape(s: string): string
  {
    EscapeUpTo(s, |s|)
  }

  function EscapeUpTo(s: string, n: nat): string
    requires n <= |s|
  {
    if n == 0 then ""
    else EscapeUpTo(s, n - 1) + if s[n - 1] == '\\' || s[n - 1] == '"' then ['\\', s[n - 1]] else [s[n - 1]]
  }

  function Quote(s: string): string
  {
    "\"" + Escape(s) + "\""
  }

  function Insert(text: string, at: nat, what: string): string
    requires at <= |text|
  {
    text[..at] + what + text[at..]
  }

  // ---- Finding the way

  /** The first of the keys that is `key`, or their number. */
  function Find(keys: seq<string>, key: string): (i: nat)
    ensures i <= |keys|
    ensures i < |keys| ==> EqualFold(keys[i], key)
    ensures forall j :: 0 <= j < i ==> !EqualFold(keys[j], key)
  {
    if keys == [] || EqualFold(keys[0], key) then 0 else 1 + Find(keys[1..], key)
  }

  function Keys(ns: seq<Node>): (r: seq<string>)
    ensures |r| == |ns| && forall i :: 0 <= i < |ns| ==> r[i] == ns[i].key
  {
    seq(|ns|, i requires 0 <= i < |ns| => ns[i].key)
  }

  function Children(n: Node): seq<Node>
  {
    if n.Block? then n.kids else []
  }

  /** A child by its key; the first there is. */
  function Child(ns: seq<Node>, key: string): (r: Option<Node>)
    ensures r.Some? ==> r.value in ns && EqualFold(r.value.key, key)
  {
    var i := Find(Keys(ns), key);
    if i < |ns| then Some(ns[i]) else None
  }

  /** Down one key after another. */
  function Walk(ns: seq<Node>, keys: seq<string>): Option<Node>
    requires keys != []
    decreases |keys|
  {
    match Child(ns, keys[0])
    case None => None
    case Some(n) => if |keys| == 1 then Some(n) else Walk(Children(n), keys[1..])
  }

  const STORE := "InstallConfigStore"
  const STEAM: seq<string> := [STORE, "Software", "Valve", "Steam"]
  const CUSTOMIZATION := "Customization"
  const SCREENSAVER := "Screensaver"
  const WHILE_IN_GAME := "WhileInGame"
  const MAPPING := "CompatToolMapping"
  const GLOBAL := "0"
  const NAME := "name"
  const PROTON := "proton-cachyos"

  // ---- The block printers

  function MappingBlock(indent: string, tool: string): string
  {
    "\n" + indent + Quote(MAPPING) +
    "\n" + indent + "{" +
    GlobalBlock(indent + "\t", tool) +
    "\n" + indent + "}"
  }

  function GlobalBlock(indent: string, tool: string): string
  {
    "\n" + indent + Quote(GLOBAL) +
    "\n" + indent + "{" +
    "\n" + indent + "\t" + Quote(NAME) + "\t\t" + Quote(tool) +
    "\n" + indent + "\t" + Quote("config") + "\t\t" + Quote("") +
    "\n" + indent + "\t" + Quote("priority") + "\t\t" + Quote("75") +
    "\n" + indent + "}"
  }

  function CustomizationBlock(indent: string): string
  {
    "\n" + indent + Quote(CUSTOMIZATION) +
    "\n" + indent + "{" +
    ScreensaverBlock(indent + "\t") +
    "\n" + indent + "}"
  }

  function ScreensaverBlock(indent: string): string
  {
    "\n" + indent + Quote(SCREENSAVER) +
    "\n" + indent + "{" +
    WhileInGameLine(indent + "\t") +
    "\n" + indent + "}"
  }

  function WhileInGameLine(indent: string): string
  {
    "\n" + indent + Quote(WHILE_IN_GAME) + "\t\t" + Quote("0")
  }

  function FreshConfig(tool: string): string
  {
    Quote(STORE) + "\n{\n" +
    "\t" + Quote("Software") + "\n\t{\n" +
    "\t\t" + Quote("Valve") + "\n\t\t{\n" +
    "\t\t\t" + Quote("Steam") + "\n\t\t\t{" +
    MappingBlock("\t\t\t\t", tool) +
    "\n\t\t\t}\n\t\t}\n\t}\n}\n"
  }

  function FreshScreensaverConfig(): string
  {
    Quote(STORE) + "\n{\n" +
    "\t" + Quote("Software") + "\n\t{\n" +
    "\t\t" + Quote("Valve") + "\n\t\t{\n" +
    "\t\t\t" + Quote("Steam") + "\n\t\t\t{\n\t\t\t}\n\t\t}\n\t}" +
    CustomizationBlock("\t") +
    "\n}\n"
  }

  // ---- The two edits

  datatype Outcome = Outcome(data: string, changed: bool, failed: bool)

  /** The text of a value, quotes included; a block has none. */
  function ValueSpan(text: string, n: Node): string
    requires n.Pair? ==> n.valueStart <= n.valueEnd <= |text|
  {
    if n.Pair? then text[n.valueStart..n.valueEnd] else ""
  }

  /** Where a child would go in: a pair's offset is never set. */
  function AfterBrace(n: Node): nat
  {
    if n.Block? then n.afterBrace else 0
  }

  function Replaced(text: string, n: Node, value: string): string
    requires n.Pair? ==> n.valueStart <= n.valueEnd <= |text|
  {
    if n.Pair? then text[..n.valueStart] + Quote(value) + text[n.valueEnd..] else Quote(value) + text
  }

  /** The spans lie in the text they were read from. */
  predicate In(text: string, n: Node)
  {
    n.at <= |text| && if n.Block? then n.afterBrace <= |text| else n.valueStart <= n.valueEnd <= |text|
  }

  function SetCompatTool(text: string, tool: string): Outcome
  {
    if IsEmpty(text) then Outcome(FreshConfig(tool), true, false)
    else
      var root := Parse(text);
      if root.None? then Outcome(text, false, true)
      else
        var steam := Walk(root.value, STEAM);
        if steam.None? then Outcome(text, false, true)
        else
          WalkIn(text, root.value, STEAM);
          SetUnderSteam(text, steam.value, tool)
  }

  function SetUnderSteam(text: string, steam: Node, tool: string): Outcome
    requires InAll(text, steam)
  {
    ChildIn(text, steam, MAPPING);
    var mapping := Child(Children(steam), MAPPING);
    if mapping.None? then
      Outcome(Insert(text, AfterBrace(steam), MappingBlock(IndentBefore(text, steam.at) + "\t", tool)), true, false)
    else SetUnderMapping(text, mapping.value, tool)
  }

  function SetUnderMapping(text: string, mapping: Node, tool: string): Outcome
    requires InAll(text, mapping)
  {
    ChildIn(text, mapping, GLOBAL);
    var global := Child(Children(mapping), GLOBAL);
    if global.None? then
      Outcome(Insert(text, AfterBrace(mapping), GlobalBlock(IndentBefore(text, mapping.at) + "\t", tool)), true, false)
    else SetUnderGlobal(text, global.value, tool)
  }

  function SetUnderGlobal(text: string, global: Node, tool: string): Outcome
    requires InAll(text, global)
  {
    ChildIn(text, global, NAME);
    var name := Child(Children(global), NAME);
    if name.None? then
      Outcome(Insert(text, AfterBrace(global),
                     "\n" + IndentBefore(text, global.at) + "\t" + Quote(NAME) + "\t\t" + Quote(tool)), true, false)
    else
      var current := TrimQuotes(ValueSpan(text, name.value));
      if current == tool then Outcome(text, false, false)
      else if current != "" && !(PROTON <= current) then Outcome(text, false, false)
      else Outcome(Replaced(text, name.value, tool), true, false)
  }

  function SetScreensaverOff(text: string): Outcome
  {
    if IsEmpty(text) then Outcome(FreshScreensaverConfig(), true, false)
    else
      var root := Parse(text);
      if root.None? then Outcome(text, false, true)
      else
        ParseIn(text, root.value);
        var store := Child(root.value, STORE);
        if store.None? || !store.value.Block? then Outcome(text, false, true)
        else SetUnderStore(text, store.value)
  }

  function SetUnderStore(text: string, store: Node): Outcome
    requires InAll(text, store) && store.Block?
  {
    ChildIn(text, store, CUSTOMIZATION);
    var customization := Child(store.kids, CUSTOMIZATION);
    if customization.None? then
      Outcome(Insert(text, store.afterBrace, CustomizationBlock(IndentBefore(text, store.at) + "\t")), true, false)
    else if !customization.value.Block? then Outcome(text, false, true)
    else SetUnderCustomization(text, customization.value)
  }

  function SetUnderCustomization(text: string, customization: Node): Outcome
    requires InAll(text, customization) && customization.Block?
  {
    ChildIn(text, customization, SCREENSAVER);
    var screensaver := Child(customization.kids, SCREENSAVER);
    if screensaver.None? then
      Outcome(Insert(text, customization.afterBrace,
                     ScreensaverBlock(IndentBefore(text, customization.at) + "\t")), true, false)
    else if !screensaver.value.Block? then Outcome(text, false, true)
    else SetUnderScreensaver(text, screensaver.value)
  }

  function SetUnderScreensaver(text: string, screensaver: Node): Outcome
    requires InAll(text, screensaver) && screensaver.Block?
  {
    ChildIn(text, screensaver, WHILE_IN_GAME);
    var inGame := Child(screensaver.kids, WHILE_IN_GAME);
    if inGame.None? then
      Outcome(Insert(text, screensaver.afterBrace,
                     WhileInGameLine(IndentBefore(text, screensaver.at) + "\t")), true, false)
    else if inGame.value.Block? then Outcome(text, false, true)
    else if TrimQuotes(ValueSpan(text, inGame.value)) == "0" then Outcome(text, false, false)
    else Outcome(Replaced(text, inGame.value, "0"), true, false)
  }

  predicate InAll(text: string, n: Node)
  {
    In(text, n) && (n.Block? ==> forall k :: k in n.kids ==> InAll(text, k))
  }

  lemma ChildIn(text: string, n: Node, key: string)
    requires InAll(text, n)
    ensures var c := Child(Children(n), key); c.Some? ==> InAll(text, c.value)
  {
  }

  lemma {:induction false} KnownIn(text: string, n: Node)
    requires Known(text, n)
    ensures InAll(text, n)
  {
    if n.Block? {
      forall k | k in n.kids ensures InAll(text, k) {
        KnownIn(text, k);
      }
    }
  }

  lemma ParseIn(text: string, ns: seq<Node>)
    requires Parse(text) == Some(ns)
    ensures forall n :: n in ns ==> InAll(text, n)
  {
    SpansAreExact(text, ns);
    forall n | n in ns ensures InAll(text, n) {
      KnownIn(text, n);
    }
  }

  lemma WalkIn(text: string, ns: seq<Node>, keys: seq<string>)
    requires Parse(text) == Some(ns) && keys != []
    ensures var w := Walk(ns, keys); w.Some? ==> InAll(text, w.value)
  {
    ParseIn(text, ns);
    WalkInAll(text, ns, keys);
  }

  lemma {:induction false} WalkInAll(text: string, ns: seq<Node>, keys: seq<string>)
    requires (forall n :: n in ns ==> InAll(text, n)) && keys != []
    ensures var w := Walk(ns, keys); w.Some? ==> InAll(text, w.value)
    decreases |keys|
  {
    if Child(ns, keys[0]).Some? && |keys| > 1 {
      WalkInAll(text, Children(Child(ns, keys[0]).value), keys[1..]);
    }
  }
}
