/** The files SetCompatTool and SetScreensaverOff write where there is none. */
module SteamFresh {
  import opened Wrappers
  import opened Vdf
  import opened VdfPrint
  import opened SteamPlay
  import opened SteamTrees
  import opened SteamSettings
  import opened SteamProofs
  import opened SteamTidy
  import opened SteamRuns

  // ---- From an empty file

  /** The blocks down to Steam's own, with `inner` as all there is in it. */
  function LaidSteam(inner: seq<Laid>): Laid
  {
    LaidBlock("\n\t", "Software", "\n\t",
      [LaidBlock("\n\t\t", "Valve", "\n\t\t",
         [LaidBlock("\n\t\t\t", "Steam", "\n\t\t\t", inner, "\n\t\t\t")], "\n\t\t")], "\n\t")
  }

  function LaidStore(kids: seq<Laid>): seq<Laid>
  {
    [LaidBlock("", STORE, "\n", kids, "\n")]
  }

  /** A block as it is printed, in three parts. */
  function Head(nl: string, key: string): string
  {
    nl + Quote(key) + nl + "{"
  }

  lemma Wrap(a: string, b: string, x: string, y: string, z: string)
    ensures a + (b + x + y) + z == (a + b) + x + (y + z)
  {
  }

  lemma LaidText(nl: string, key: string, kids: seq<Laid>)
    requires PlainKey(key)
    ensures Written(LaidBlock(nl, key, nl, kids, nl)) == Head(nl, key) + AllWritten(kids) + (nl + "}")
  {
    PlainQuote(key);
    var h := Head(nl, key) + AllWritten(kids);
    assert h + (nl + "}") == h + nl + "}";
  }

  lemma SteamText(inner: seq<Laid>)
    ensures Written(LaidSteam(inner))
      == (Head("\n\t", "Software") + Head("\n\t\t", "Valve") + Head("\n\t\t\t", "Steam")) + AllWritten(inner)
         + (("\n\t\t\t" + "}") + (("\n\t\t" + "}") + ("\n\t" + "}")))
  {
    var steam := LaidBlock("\n\t\t\t", "Steam", "\n\t\t\t", inner, "\n\t\t\t");
    var valve := LaidBlock("\n\t\t", "Valve", "\n\t\t", [steam], "\n\t\t");
    LaidText("\n\t\t\t", "Steam", inner);
    LaidAround("\n\t\t", "Valve", steam);
    LaidAround("\n\t", "Software", valve);
    Nested(Head("\n\t", "Software"), Head("\n\t\t", "Valve"), Head("\n\t\t\t", "Steam"), AllWritten(inner),
           "\n\t\t\t" + "}", "\n\t\t" + "}", "\n\t" + "}");
  }

  lemma LaidAround(nl: string, key: string, l: Laid)
    requires PlainKey(key)
    ensures Written(LaidBlock(nl, key, nl, [l], nl)) == Head(nl, key) + Written(l) + (nl + "}")
  {
    AllOne(l);
    LaidText(nl, key, [l]);
  }

  lemma Nested(a: string, b: string, c: string, m: string, x: string, y: string, z: string)
    ensures a + (b + (c + m + x) + y) + z == (a + b + c) + m + (x + (y + z))
  {
    Wrap(b, c, m, x, y);
    Wrap(a, b + c, m, x + y, z);
    Wrap2(a, b, c, x, y, z);
  }

  lemma Wrap2(a: string, b: string, c: string, x: string, y: string, z: string)
    ensures a + (b + c) == a + b + c && (x + y) + z == x + (y + z)
  {
  }

  /** A line break, its tabs and the brace before them, as the fresh files print them. */
  lemma NextHead(p: string, nl: string, key: string, brace: string, tabs: string)
    requires brace == nl + "{" + "\n"
    ensures (p + nl) + Quote(key) + brace + tabs == (p + Head(nl, key)) + ("\n" + tabs)
  {
    var q := Quote(key);
    Wrap2(p, nl, q, nl, "{", "\n");
    assert (p + nl) + q + (nl + "{" + "\n") == p + (nl + q + nl + "{") + "\n";
    var h := p + (nl + q + nl + "{");
    assert h + "\n" + tabs == h + ("\n" + tabs);
  }

  /** The way down to Steam's block, as both fresh files print it. */
  lemma FreshHeads()
    ensures Quote(STORE) + "\n{\n" + "\t" + Quote("Software") + "\n\t{\n" + "\t\t" + Quote("Valve")
            + "\n\t\t{\n" + "\t\t\t" + Quote("Steam")
      == (Quote(STORE) + "\n{") + (Head("\n\t", "Software") + Head("\n\t\t", "Valve")) + ("\n\t\t\t" + Quote("Steam"))
  {
    var p := Quote(STORE) + "\n{";
    assert Quote(STORE) + "\n{\n" + "\t" == p + "\n\t" by {
      assert "\n{\n" + "\t" == "\n{" + "\n\t";
      Wrap2(Quote(STORE), "\n{\n", "\t", "", "", "");
      Wrap2(Quote(STORE), "\n{", "\n\t", "", "", "");
    }
    assert "\n\t{\n" == "\n\t" + "{" + "\n" && "\n\t\t{\n" == "\n\t\t" + "{" + "\n";
    assert "\n" + "\t\t" == "\n\t\t" && "\n" + "\t\t\t" == "\n\t\t\t";
    NextHead(p, "\n\t", "Software", "\n\t{\n", "\t\t");
    NextHead(p + Head("\n\t", "Software"), "\n\t\t", "Valve", "\n\t\t{\n", "\t\t\t");
    var a, b := Head("\n\t", "Software"), Head("\n\t\t", "Valve");
    Wrap2(p, a, b, p + a + b, "\n\t\t\t", Quote("Steam"));
  }

  const STEAM_END := "\n\t\t\t}\n\t\t}\n\t}"

  function SteamHead(): string
  {
    Head("\n\t", "Software") + Head("\n\t\t", "Valve") + Head("\n\t\t\t", "Steam")
  }

  lemma SteamTextIs(inner: seq<Laid>)
    ensures Written(LaidSteam(inner)) == SteamHead() + AllWritten(inner) + STEAM_END
  {
    SteamText(inner);
    assert ("\n\t\t\t" + "}") + (("\n\t\t" + "}") + ("\n\t" + "}")) == STEAM_END;
  }

  lemma StoreText(kids: seq<Laid>)
    ensures AllWritten(LaidStore(kids)) + "\n" == (Quote(STORE) + "\n{") + AllWritten(kids) + "\n}\n"
  {
    StoreWritten(kids);
    PlainQuote(STORE);
    StoreGlue(AllWritten(LaidStore(kids)), Raw(STORE), AllWritten(kids));
  }

  lemma StoreWritten(kids: seq<Laid>)
    ensures AllWritten(LaidStore(kids)) == "" + Raw(STORE) + "\n" + "{" + AllWritten(kids) + "\n" + "}"
  {
    AllOne(LaidStore(kids)[0]);
    FirstBlockText(STORE, kids);
  }

  lemma FirstBlockText(key: string, kids: seq<Laid>)
    ensures Written(LaidBlock("", key, "\n", kids, "\n")) == "" + Raw(key) + "\n" + "{" + AllWritten(kids) + "\n" + "}"
  {
  }

  lemma StoreGlue(w: string, q: string, k: string)
    requires w == "" + q + "\n" + "{" + k + "\n" + "}"
    ensures w + "\n" == (q + "\n{") + k + "\n}\n"
  {
    assert "" + q == q;
    assert q + "\n" + "{" == q + "\n{";
    var x := (q + "\n{") + k;
    assert x + "\n" + "}" + "\n" == x + "\n}\n";
  }

  /** Both fresh files up to Steam's brace. */
  lemma FreshFront(rest: string)
    ensures Quote(STORE) + "\n{\n" + "\t" + Quote("Software") + "\n\t{\n" + "\t\t" + Quote("Valve")
            + "\n\t\t{\n" + "\t\t\t" + Quote("Steam")
            + ("\n\t\t\t{" + rest)
      == (Quote(STORE) + "\n{") + (SteamHead() + rest)
  {
    FreshHeads();
    var s, q := Quote(STORE) + "\n{", Quote("Steam");
    var ab := Head("\n\t", "Software") + Head("\n\t\t", "Valve");
    assert Head("\n\t\t\t", "Steam") == "\n\t\t\t" + q + "\n\t\t\t{";
    Rejoin(s, ab, "\n\t\t\t" + q, "\n\t\t\t{", rest);
  }

  lemma Rejoin(s: string, ab: string, c: string, d: string, rest: string)
    ensures s + ab + c + (d + rest) == s + (ab + (c + d) + rest)
  {
  }

  /** How the pieces of a fresh file come together. */
  lemma Pieces(x: string, b: string, m: string, t: string, s: string, h: string, e: string, z: string)
    requires t == e + z && x + (b + (m + t)) == s + (h + (m + t))
    ensures x + b + m + t == s + (h + m + e) + z
  {
    assert x + b + m + t == x + (b + (m + t));
    assert s + (h + (m + (e + z))) == s + (h + m + e) + z;
  }

  function FreshTop(): string
  {
    Quote(STORE) + "\n{\n" + "\t" + Quote("Software") + "\n\t{\n" + "\t\t" + Quote("Valve")
    + "\n\t\t{\n" + "\t\t\t" + Quote("Steam")
  }

  lemma ConfigPieces(m: string)
    ensures FreshTop() + "\n\t\t\t{" + m + "\n\t\t\t}\n\t\t}\n\t}\n}\n"
      == (Quote(STORE) + "\n{") + (SteamHead() + m + STEAM_END) + "\n}\n"
  {
    var t := STEAM_END + "\n}\n";
    assert t == "\n\t\t\t}\n\t\t}\n\t}\n}\n";
    FreshFront(m + t);
    Pieces(FreshTop(), "\n\t\t\t{", m, t, Quote(STORE) + "\n{", SteamHead(), STEAM_END, "\n}\n");
  }

  lemma FreshConfigIs(tool: string, l: Laid)
    requires Written(l) == MappingBlock("\t\t\t\t", tool)
    ensures FreshConfig(tool) == AllWritten(LaidStore([LaidSteam([l])])) + "\n"
  {
    AllOne(l);
    ConfigPieces(MappingBlock("\t\t\t\t", tool));
    StoreOfOne(LaidSteam([l]));
    SteamTextIs([l]);
  }

  lemma StoreOfOne(l: Laid)
    ensures AllWritten(LaidStore([l])) + "\n" == (Quote(STORE) + "\n{") + Written(l) + "\n}\n"
  {
    AllOne(l);
    StoreText([l]);
  }

  lemma StoreOfTwo(l: Laid, k: Laid)
    ensures AllWritten(LaidStore([l, k])) + "\n" == (Quote(STORE) + "\n{") + (Written(l) + Written(k)) + "\n}\n"
  {
    AllOne(l);
    AllTwo([l], k);
    assert [l] + [k] == [l, k];
    StoreText([l, k]);
  }

  lemma ScreensaverPieces(c: string)
    ensures FreshTop() + "\n\t\t\t{\n\t\t\t}\n\t\t}\n\t}" + c + "\n}\n"
      == (Quote(STORE) + "\n{") + (SteamHead() + "" + STEAM_END + c) + "\n}\n"
  {
    assert "\n\t\t\t{" + STEAM_END == "\n\t\t\t{\n\t\t\t}\n\t\t}\n\t}";
    FreshFront(STEAM_END);
    Rejoin2(Quote(STORE) + "\n{", SteamHead(), STEAM_END, c, "\n}\n");
  }

  lemma Rejoin2(s: string, h: string, e: string, c: string, z: string)
    ensures s + (h + e) + c + z == s + (h + "" + e + c) + z
  {
    assert h + "" == h;
    assert s + (h + e) + c == s + (h + e + c);
  }

  lemma FreshScreensaverIs(c: Laid)
    requires Written(c) == CustomizationBlock("\t")
    ensures FreshScreensaverConfig() == AllWritten(LaidStore([LaidSteam([]), c])) + "\n"
  {
    ScreensaverPieces(CustomizationBlock("\t"));
    StoreOfTwo(LaidSteam([]), c);
    SteamTextIs([]);
  }

  // ---- The fresh files read, and can be worked on

  lemma LaidSteamWell(inner: seq<Laid>)
    requires AllWellLaid(inner) && forall l :: l in inner ==> OwnLines(l)
    ensures WellLaid(LaidSteam(inner)) && OwnLines(LaidSteam(inner))
    ensures Meant(LaidSteam(inner)) == Branch("Software", [Branch("Valve", [Branch("Steam", AllMeant(inner))])])
  {
    var steam := SteamWell(inner);
    ValveWell(steam);
  }

  lemma SteamWell(inner: seq<Laid>) returns (steam: Laid)
    requires AllWellLaid(inner) && forall l :: l in inner ==> OwnLines(l)
    ensures steam == LaidBlock("\n\t\t\t", "Steam", "\n\t\t\t", inner, "\n\t\t\t")
    ensures WellLaid(steam) && OwnLines(steam) && Meant(steam) == Branch("Steam", AllMeant(inner))
  {
    assert "\n" + "\t\t\t" == "\n\t\t\t";
    BlockWell("\t\t\t", "Steam", inner);
    steam := LaidBlock("\n\t\t\t", "Steam", "\n\t\t\t", inner, "\n\t\t\t");
  }

  lemma ValveWell(steam: Laid)
    requires WellLaid(steam) && OwnLines(steam)
    ensures var valve := LaidBlock("\n\t\t", "Valve", "\n\t\t", [steam], "\n\t\t");
      var software := LaidBlock("\n\t", "Software", "\n\t", [valve], "\n\t");
      WellLaid(software) && OwnLines(software)
        && Meant(software) == Branch("Software", [Branch("Valve", [Meant(steam)])])
  {
    assert "\n" + "\t\t" == "\n\t\t" && "\n" + "\t" == "\n\t";
    var valve := AroundOne("\t\t", "Valve", steam);
    var software := AroundOne("\t", "Software", valve);
  }

  lemma AroundOne(tabs: string, key: string, inner: Laid) returns (l: Laid)
    requires AllBlank(tabs) && PlainKey(key) && WellLaid(inner) && OwnLines(inner)
    ensures l == LaidBlock("\n" + tabs, key, "\n" + tabs, [inner], "\n" + tabs)
    ensures WellLaid(l) && OwnLines(l) && Meant(l) == Branch(key, [Meant(inner)])
  {
    AllOne(inner);
    BlockWell(tabs, key, [inner]);
    l := LaidBlock("\n" + tabs, key, "\n" + tabs, [inner], "\n" + tabs);
  }

  lemma BlockWell(tabs: string, key: string, kids: seq<Laid>)
    requires AllBlank(tabs) && PlainKey(key) && AllWellLaid(kids) && forall l :: l in kids ==> OwnLines(l)
    ensures var l := LaidBlock("\n" + tabs, key, "\n" + tabs, kids, "\n" + tabs);
      WellLaid(l) && OwnLines(l) && Meant(l) == Branch(key, AllMeant(kids))
  {
    BlankGap("\n" + tabs);
    PlainText(key);
    assert ("\n" + tabs)[0] == '\n' && ("\n" + tabs)[1..] == tabs;
  }

  /** A whole file that is one store. */
  lemma StoreReads(text: string, kids: seq<Laid>)
    requires text == AllWritten(LaidStore(kids)) + "\n" && AllWellLaid(kids)
    ensures Parse(text) == Some([Placed(LaidStore(kids)[0], 0)]) && !IsEmpty(text)
    ensures EraseAll(Parse(text).value) == [Branch(STORE, AllMeant(kids))]
  {
    var store := LaidStore(kids)[0];
    AllOne(store);
    StoreWell(kids);
    ParseWritten(LaidStore(kids), "\n");
    NotEmpty(text, [Placed(store, 0)]);
  }

  lemma StoreWell(kids: seq<Laid>)
    requires AllWellLaid(kids)
    ensures WellLaid(LaidStore(kids)[0]) && IsEnd("\n")
  {
    OurKeysPlain();
    assert PlainKey(SCREEN[0]);
    PlainText(STORE);
    BlankGap("\n");
  }

  lemma StoreTidy(text: string, kids: seq<Laid>)
    requires text == AllWritten(LaidStore(kids)) + "\n" && forall l :: l in kids ==> OwnLines(l)
    ensures Tidy(text, [Placed(LaidStore(kids)[0], 0)])
  {
    var store := LaidStore(kids)[0];
    AllOne(store);
    var n := Placed(store, 0);
    var head := "" + Raw(STORE) + "\n" + "{";
    WrittenKids(store, head);
    assert n.afterBrace == |head| && text[0..|Written(store)|] == Written(store);
    Part(text, 0, Written(store), |head|, |AllWritten(kids)|);
    TidyAllWritten(text, n.afterBrace, kids);
  }

  /** One store with these trees in it, read from a tidy file. */
  ghost predicate Reads(text: string, kids: seq<Tree>)
  {
    Parse(text).Some? && Tidy(text, Parse(text).value) && !IsEmpty(text) && TreeOf(text) == Some([Branch(STORE, kids)])
  }

  function SteamTree(kids: seq<Tree>): Tree
  {
    Branch("Software", [Branch("Valve", [Branch("Steam", kids)])])
  }

  lemma FileSays(text: string, kids: seq<Laid>)
    requires text == AllWritten(LaidStore(kids)) + "\n" && AllWellLaid(kids) && forall l :: l in kids ==> OwnLines(l)
    ensures Reads(text, AllMeant(kids))
  {
    StoreReads(text, kids);
    StoreTidy(text, kids);
  }

  lemma OneSays(text: string, inner: Laid)
    requires text == AllWritten(LaidStore([LaidSteam([inner])])) + "\n" && WellLaid(inner) && OwnLines(inner)
    ensures Reads(text, [SteamTree([Meant(inner)])])
  {
    AllOne(inner);
    LaidSteamWell([inner]);
    AllOne(LaidSteam([inner]));
    FileSays(text, [LaidSteam([inner])]);
  }

  lemma TwoSay(text: string, steam: Laid, c: Laid)
    requires text == AllWritten(LaidStore([steam, c])) + "\n" && WellLaid(steam) && OwnLines(steam) && WellLaid(c)
    requires OwnLines(c)
    ensures Reads(text, [Meant(steam)] + [Meant(c)])
  {
    AllOne(steam);
    AllTwo([steam], c);
    assert [steam] + [c] == [steam, c];
    FileSays(text, [steam, c]);
  }

  lemma MappingLaid(indent: string, tool: string) returns (l: Laid)
    requires AllBlank(indent)
    ensures Written(l) == MappingBlock(indent, tool)
    ensures WellLaid(l) && OwnLines(l) && Meant(l) == New(UNDER_STEAM, Escape(tool))
  {
    OurNewWell(UNDER_STEAM, indent, tool);
    MappingBlockIs(indent, tool);
    l := LaidNew(UNDER_STEAM, indent, Escape(tool));
  }

  lemma FreshConfigSays(tool: string)
    ensures Reads(FreshConfig(tool), [SteamTree([New(UNDER_STEAM, Escape(tool))])])
  {
    var l := FreshConfigLaid(tool);
    OneSays(FreshConfig(tool), l);
  }

  lemma FreshConfigLaid(tool: string) returns (l: Laid)
    ensures FreshConfig(tool) == AllWritten(LaidStore([LaidSteam([l])])) + "\n"
    ensures WellLaid(l) && OwnLines(l) && Meant(l) == New(UNDER_STEAM, Escape(tool))
  {
    var tabs := FourTabs();
    l := MappingLaid(tabs, tool);
    FreshConfigIs(tool, l);
  }

  lemma FourTabs() returns (tabs: string)
    ensures tabs == "\t\t\t\t" && AllBlank(tabs)
  {
    tabs := "\t\t\t\t";
  }

  lemma OurNewWell(path: seq<string>, indent: string, value: string)
    requires AllBlank(indent) && (path == UNDER_STEAM || path == UNDER_STORE)
    ensures var l := LaidNew(path, indent, Escape(value));
      WellLaid(l) && OwnLines(l) && Meant(l) == New(path, Escape(value))
  {
    OurKeysPlain();
    assert SCREEN[1..] == UNDER_STORE;
    EscapeText(value);
    LaidNewMeans(path, indent, Escape(value));
    NewOwnLines(path, indent, Escape(value));
  }

  lemma CustomizationLaid(indent: string) returns (c: Laid)
    requires AllBlank(indent)
    ensures Written(c) == CustomizationBlock(indent)
    ensures WellLaid(c) && OwnLines(c) && Meant(c) == New(UNDER_STORE, "0")
  {
    ZeroIsPlain();
    OurNewWell(UNDER_STORE, indent, "0");
    CustomizationBlockIs(indent);
    c := LaidNew(UNDER_STORE, indent, "0");
  }

  lemma FreshScreensaverSays()
    ensures Reads(FreshScreensaverConfig(), [SteamTree([])] + [New(UNDER_STORE, "0")])
  {
    var c := CustomizationLaid("\t");
    FreshScreensaverIs(c);
    LaidSteamWell([]);
    TwoSay(FreshScreensaverConfig(), LaidSteam([]), c);
  }

  lemma NewOne(path: seq<string>, key: string, rest: seq<string>, value: string)
    requires path == [key] + rest && rest != [] && key != GLOBAL
    ensures New(path, value) == Branch(key, [New(rest, value)])
  {
    assert path[1..] == rest;
    assert [New(rest, value)] + [] == [New(rest, value)];
  }

  lemma CompatIsNested(value: string)
    ensures New(COMPAT, value) == Branch(STORE, [SteamTree([New(UNDER_STEAM, value)])])
  {
    NewOne(["Steam"] + UNDER_STEAM, "Steam", UNDER_STEAM, value);
    NewOne(["Valve", "Steam"] + UNDER_STEAM, "Valve", ["Steam"] + UNDER_STEAM, value);
    NewOne(["Software", "Valve", "Steam"] + UNDER_STEAM, "Software", ["Valve", "Steam"] + UNDER_STEAM, value);
    NewOne(COMPAT, STORE, ["Software", "Valve", "Steam"] + UNDER_STEAM, value);
  }

  /** Into the only tree there is. */
  lemma OnlyWay(t: Tree, rest: seq<Tree>, path: seq<string>)
    requires |path| > 1 && t.Branch? && t.key == path[0]
    ensures Has([t] + rest, path) == Has(t.kids, path[1..])
    ensures Fits([t] + rest, path) == Fits(t.kids, path[1..])
    ensures Lookup([t] + rest, path) == Lookup(t.kids, path[1..])
  {
    FindAt(TreeKeys([t] + rest), path[0], 0);
  }

  /** Down to Steam's block, whatever is in it and beside it. */
  lemma SteamIsThere(kids: seq<Tree>, beside: seq<Tree>)
    ensures Has([Branch(STORE, [SteamTree(kids)] + beside)], STEAM)
    ensures Fits([Branch(STORE, [SteamTree(kids)] + beside)], COMPAT) == Fits(kids, UNDER_STEAM)
    ensures Lookup([Branch(STORE, [SteamTree(kids)] + beside)], COMPAT) == Lookup(kids, UNDER_STEAM)
  {
    var steam, valve := Branch("Steam", kids), Branch("Valve", [Branch("Steam", kids)]);
    var store := Branch(STORE, [SteamTree(kids)] + beside);
    assert [steam] + [] == [steam] && [valve] + [] == [valve] && [store] + [] == [store];
    assert STEAM[1..] == ["Software", "Valve", "Steam"] && ["Software", "Valve", "Steam"][1..] == ["Valve", "Steam"];
    assert ["Valve", "Steam"][1..] == ["Steam"];
    OnlyWay(store, [], STEAM);
    OnlyWay(SteamTree(kids), beside, ["Software", "Valve", "Steam"]);
    OnlyWay(valve, [], ["Valve", "Steam"]);
    FindAt(TreeKeys([steam]), "Steam", 0);
    CompatDown(store, steam, valve, SteamTree(kids), beside);
  }

  lemma CompatDown(store: Tree, steam: Tree, valve: Tree, software: Tree, beside: seq<Tree>)
    requires steam.Branch? && steam.key == "Steam" && valve == Branch("Valve", [steam])
    requires software == Branch("Software", [valve])
    requires store == Branch(STORE, [software] + beside)
    ensures Fits([store], COMPAT) == Fits(steam.kids, UNDER_STEAM)
    ensures Lookup([store], COMPAT) == Lookup(steam.kids, UNDER_STEAM)
  {
    var c := ["Steam"] + UNDER_STEAM;
    var b := ["Valve"] + c;
    var a := ["Software"] + b;
    assert COMPAT == [STORE] + a;
    Into(steam, [], "Steam", UNDER_STEAM);
    Into(valve, [], "Valve", c);
    Into(software, beside, "Software", b);
    Into(store, [], STORE, a);
    assert [steam] + [] == [steam] && [valve] + [] == [valve] && [store] + [] == [store];
  }

  lemma Into(t: Tree, rest: seq<Tree>, key: string, path: seq<string>)
    requires path != [] && t.Branch? && t.key == key
    ensures Fits([t] + rest, [key] + path) == Fits(t.kids, path)
    ensures Lookup([t] + rest, [key] + path) == Lookup(t.kids, path)
  {
    assert ([key] + path)[1..] == path;
    OnlyWay(t, rest, [key] + path);
  }

  /** A file that holds the tool setting and no more. */
  lemma OnlyCompat(text: string, value: string)
    requires Reads(text, [SteamTree([New(UNDER_STEAM, value)])])
    ensures Usable(text) && Lookup(TreeOf(text).value, COMPAT) == Some(value)
  {
    var inner := New(UNDER_STEAM, value);
    NewHas(UNDER_STEAM, value);
    SteamIsThere([inner], []);
    assert [SteamTree([inner])] + [] == [SteamTree([inner])];
    ScreenFits([SteamTree([inner])]);
  }

  /** A file that holds the screensaver setting and an empty Steam block. */
  lemma OnlyScreen(text: string)
    requires Reads(text, [SteamTree([])] + [New(UNDER_STORE, "0")])
    ensures Usable(text) && Lookup(TreeOf(text).value, SCREEN) == Some("0")
  {
    FindNone(TreeKeys([]), MAPPING);
    SteamIsThere([], [New(UNDER_STORE, "0")]);
    ScreenAfterSteam(SteamTree([]), New(UNDER_STORE, "0"));
  }

  /** From an empty file SetCompatTool writes the one setting, under the blocks it needs. */
  lemma CompatFromNothing(text: string, tool: string)
    requires IsEmpty(text)
    ensures var r := SetCompatTool(text, tool);
      && r.changed && !r.failed && TreeOf(r.data) == Some([New(COMPAT, Escape(tool))])
      && Usable(r.data) && Holds(r.data, COMPAT, tool, true)
  {
    FreshConfigSays(tool);
    OnlyCompat(FreshConfig(tool), Escape(tool));
    CompatIsNested(Escape(tool));
  }

  /** SetScreensaverOff writes its own, and an empty Steam block for the other to find. */
  lemma ScreenFromNothing(text: string)
    requires IsEmpty(text)
    ensures var r := SetScreensaverOff(text);
      && r.changed && !r.failed && TreeOf(r.data) == Some([Branch(STORE, [SteamTree([])] + [New(UNDER_STORE, "0")])])
      && Usable(r.data) && Holds(r.data, SCREEN, "0", false)
  {
    ZeroIsPlain();
    FreshScreensaverSays();
    OnlyScreen(FreshScreensaverConfig());
  }

  lemma ScreenAfterSteam(s: Tree, c: Tree)
    requires s.key == "Software" && c == New(UNDER_STORE, "0")
    ensures Fits([Branch(STORE, [s] + [c])], SCREEN) && Lookup([Branch(STORE, [s] + [c])], SCREEN) == Some("0")
  {
    var store := Branch(STORE, [s] + [c]);
    OurPathsPart();
    NewHas(UNDER_STORE, "0");
    NotFirst(s, [c], UNDER_STORE);
    assert SCREEN[1..] == UNDER_STORE && [store] + [] == [store];
    OnlyWay(store, [], SCREEN);
  }

  lemma ScreenFits(kids: seq<Tree>)
    requires |kids| == 1 && kids[0].key == "Software"
    ensures Fits([Branch(STORE, kids)], SCREEN)
  {
    OurPathsPart();
    FindNone(TreeKeys(kids), CUSTOMIZATION);
    FindAt(TreeKeys([Branch(STORE, kids)]), STORE, 0);
  }

  /** Both settings hold after both calls on an empty file, whichever comes first. */
  lemma BothFromNothing(text: string, tool: string)
    requires IsEmpty(text)
    ensures var r := SetScreensaverOff(SetCompatTool(text, tool).data);
      !r.failed && Usable(r.data) && Holds(r.data, COMPAT, tool, true) && Holds(r.data, SCREEN, "0", false)
    ensures var r := SetCompatTool(SetScreensaverOff(text).data, tool);
      !r.failed && Usable(r.data) && Holds(r.data, COMPAT, tool, true) && Holds(r.data, SCREEN, "0", false)
  {
    CompatFromNothing(text, tool);
    ScreenKeepsUsable(SetCompatTool(text, tool).data);
    ScreenFromNothing(text);
    CompatKeepsUsable(SetScreensaverOff(text).data, tool);
  }
}
