/** The shared folders of the pool: what a round stores and delivers measures, and when the
    recorded version of a folder falls. */
module PoolFolders {
  import opened FileTree
  import opened SeatPrivate
  import opened Clone
  import opened CloneMeasure
  import opened Titles
  import opened PoolModel
  import opened PoolForward

  /** A plain name that is not the drive of a wine prefix either. */
  predicate Ordinary(name: string)
  {
    Plain(name) && name != "drive_c"
  }

  // ----------------------------------------------------- what a copy measures

  /** What a clone of `src` over what is at `name` will measure there. */
  ghost function CopyVersion(e: map<string, Node>, name: string, src: Node): Version
    requires src.Dir?
  {
    VersionAt(e[name := CloneOver(src, e, name, true)], name)
  }

  lemma InPlaceVersion(e: map<string, Node>, name: string, src: Node, left: map<string, Node>)
    requires src.Dir? && InPlace(e, name, src, true, left)
    ensures HasDir(left, name) && VersionAt(left, name) == CopyVersion(e, name, src)
  {
    if name == "drive_c" {
      AsideIsOther("system.reg", name);
      AsideIsOther("user.reg", name);
    }
  }

  lemma OrdinaryVersion(e: map<string, Node>, name: string)
    requires HasDir(e, name) && name != "drive_c"
    ensures VersionAt(e, name) == Measure(e[name], false)
  {
  }

  /** Every save of the copy at `name` lands in the tree about to replace it. */
  ghost predicate SavesLand(e: map<string, Node>, name: string, src: Node)
  {
    name != "drive_c" && AllLand(src, false, ToCarry(e, name, true))
  }

  /** Then the copy measures as its source. */
  lemma LandedMeasures(e: map<string, Node>, name: string, src: Node)
    requires src.Dir? && SavesLand(e, name, src)
    ensures CopyVersion(e, name, src) == Measure(src, false)
  {
    var c := ToCarry(e, name, true);
    if c != {} {
      PrivateDirsApart(e[name], false);
      forall p | p in c
        ensures Get(e[name], p).Present? && Get(e[name], p).node.Dir?
      {
        PrivateDirsAreDirs(e[name], false, p);
      }
      LandedIsSeen(src, e[name], c, false);
    }
  }

  /** The copy the round makes of a folder, if it makes one, measures as what it is made of. */
  ghost predicate Measures(w: World, a: Action, now: int)
  {
    match a
    case TakeFolder(m, name, _) => TakesFolder(w, m.home, name, now) ==>
      var here := Dirs(w.at[m.home].shared);
      CopyVersion(w.store.shared, name, here[name]) == VersionAt(here, name)
    case GiveFolder(m, name, _) => DecideFolder(w, m, name) == Give ==>
      CopyVersion(Dirs(w.at[m.home].shared), name, w.store.shared[name]) == VersionAt(w.store.shared, name)
    case _ => true
  }

  /** What is to be carried into it lands there. */
  ghost predicate RoundLands(w: World, a: Action, now: int)
  {
    match a
    case TakeFolder(m, name, _) => TakesFolder(w, m.home, name, now) ==>
      SavesLand(w.store.shared, name, Dirs(w.at[m.home].shared)[name])
    case GiveFolder(m, name, _) => DecideFolder(w, m, name) == Give ==>
      SavesLand(Dirs(w.at[m.home].shared), name, w.store.shared[name])
    case _ => true
  }

  lemma LandsMeasures(w: World, a: Action, now: int)
    requires RoundLands(w, a, now)
    ensures Measures(w, a, now)
  {
    match a
    case TakeFolder(m, name, _) =>
      if TakesFolder(w, m.home, name, now) {
        LandedMeasures(w.store.shared, name, Dirs(w.at[m.home].shared)[name]);
      }
    case GiveFolder(m, name, _) =>
      if DecideFolder(w, m, name) == Give {
        LandedMeasures(Dirs(w.at[m.home].shared), name, w.store.shared[name]);
      }
    case _ =>
  }

  /** The round may copy this folder. */
  predicate Concerns(a: Action, name: string)
  {
    (a.TakeFolder? || a.GiveFolder?) && a.name == name
  }

  /** Every copy that a run makes of this folder measures as what it is made of. */
  ghost predicate MeasuresOf(w: World, acts: seq<Action>, now: int, name: string)
    decreases |acts|
  {
    acts != [] ==>
      && (Concerns(acts[0], name) ==> Measures(w, acts[0], now))
      && MeasuresOf(Apply(w, acts[0], now), acts[1..], now, name)
  }

  ghost predicate LandsOf(w: World, acts: seq<Action>, now: int, name: string)
    decreases |acts|
  {
    acts != [] ==>
      && (Concerns(acts[0], name) ==> RoundLands(w, acts[0], now))
      && LandsOf(Apply(w, acts[0], now), acts[1..], now, name)
  }

  lemma {:induction false} LandsOfMeasures(w: World, acts: seq<Action>, now: int, name: string)
    requires LandsOf(w, acts, now, name)
    ensures MeasuresOf(w, acts, now, name)
    decreases |acts|
  {
    if acts != [] {
      if Concerns(acts[0], name) {
        LandsMeasures(w, acts[0], now);
      }
      LandsOfMeasures(Apply(w, acts[0], now), acts[1..], now, name);
    }
  }

  // ------------------------------------------------------------------ records

  lemma NewerTwice(a: Version, b: Version, c: Version)
    ensures NewerVersion(a, b) && NewerVersion(b, c) ==> NewerVersion(a, c)
    ensures !NewerVersion(a, b) && NewerVersion(c, b) ==> !NewerVersion(a, c)
    ensures !NewerVersion(a, a)
  {
  }

  lemma NeverFallsTwice(a: Version, b: Version, c: Version)
    requires !NewerVersion(a, b) && !NewerVersion(b, c)
    ensures !NewerVersion(a, c)
  {
  }

  /** The recorded version describes what the pool holds. */
  ghost predicate RecordedOf(w: World, name: string)
  {
    name in w.ledger.folders && HasDir(w.store.shared, name) ==>
      w.ledger.folders[name] == VersionAt(w.store.shared, name)
  }

  predicate Fell(w: World, v: World, name: string)
  {
    name in w.ledger.folders && name in v.ledger.folders && NewerVersion(w.ledger.folders[name], v.ledger.folders[name])
  }

  /** What is recorded of a folder that was stored is what its clone was to measure. */
  lemma StoredIsCopy(w: World, a: Action, now: int)
    requires Plausible(w, a, now) && a.TakeFolder? && TakesFolder(w, a.m.home, a.name, now) && Stored(a.o, a.name)
    ensures VersionAt(a.o.left, a.name) == CopyVersion(w.store.shared, a.name, Dirs(w.at[a.m.home].shared)[a.name])
  {
    InPlaceVersion(w.store.shared, a.name, Dirs(w.at[a.m.home].shared)[a.name], a.o.left);
  }

  /** A step that stores a copy that will measure older than the record. */
  ghost predicate StoresLower(w: World, a: Action, now: int, name: string)
  {
    && a.TakeFolder? && a.name == name && Stored(a.o, name) && name in w.ledger.folders
    && TakesFolder(w, a.m.home, name, now)
    && NewerVersion(w.ledger.folders[name], CopyVersion(w.store.shared, name, Dirs(w.at[a.m.home].shared)[name]))
  }

  /** A step that stores an older copy of a folder the pool has a record but no copy of. */
  ghost predicate StoresOlder(w: World, a: Action, now: int, name: string)
  {
    && a.TakeFolder? && a.name == name && Stored(a.o, name) && name in w.ledger.folders
    && Scanned(w, a.m.home, name) && !HasDir(w.store.shared, name)
    && var mine := VersionAt(Dirs(w.at[a.m.home].shared), name);
    && Settled(mine, now, w.quiet) && NewerVersion(w.ledger.folders[name], mine)
  }

  /** Whatever fails, the record of a folder falls at just the steps of the first kind. */
  lemma RecordFallsIff(w: World, a: Action, now: int, name: string)
    requires Plausible(w, a, now) && name in w.ledger.folders
    ensures var v := Apply(w, a, now);
      name in v.ledger.folders && (Fell(w, v, name) <==> StoresLower(w, a, now, name))
  {
    var had := w.ledger.folders[name];
    NewerTwice(had, had, had);
    if a.TakeFolder? && a.name == name && TakesFolder(w, a.m.home, name, now) && Stored(a.o, name) {
      StoredIsCopy(w, a, now);
    }
  }

  /** Where the copy measures as its source these are the steps of the second kind: the pool
      had lost its copy. */
  lemma LowerIsOlder(w: World, a: Action, now: int, name: string)
    requires Concerns(a, name) ==> Measures(w, a, now)
    ensures StoresLower(w, a, now, name) <==> StoresOlder(w, a, now, name)
  {
    if a.TakeFolder? && a.name == name && name in w.ledger.folders && Scanned(w, a.m.home, name) {
      var had, mine := w.ledger.folders[name], VersionAt(Dirs(w.at[a.m.home].shared), name);
      NewerTwice(mine, had, mine);
    }
  }

  ghost predicate EverFalls(w: World, acts: seq<Action>, now: int, name: string)
    decreases |acts|
  {
    && acts != []
    && (Fell(w, Apply(w, acts[0], now), name) || EverFalls(Apply(w, acts[0], now), acts[1..], now, name))
  }

  ghost predicate EverStoresLower(w: World, acts: seq<Action>, now: int, name: string)
    decreases |acts|
  {
    && acts != []
    && (StoresLower(w, acts[0], now, name) || EverStoresLower(Apply(w, acts[0], now), acts[1..], now, name))
  }

  ghost predicate EverStoresOlder(w: World, acts: seq<Action>, now: int, name: string)
    decreases |acts|
  {
    && acts != []
    && (StoresOlder(w, acts[0], now, name) || EverStoresOlder(Apply(w, acts[0], now), acts[1..], now, name))
  }

  /** Over any pass, whatever fails: the record falls at some step exactly when some step
      stores a copy that measures older than it, and without one it has not fallen at the
      end. */
  lemma {:induction false} RecordsFallIff(w: World, acts: seq<Action>, now: int, name: string)
    requires PlausibleRun(w, acts, now)
    ensures EverFalls(w, acts, now, name) <==> EverStoresLower(w, acts, now, name)
    ensures name in w.ledger.folders ==> name in Run(w, acts, now).ledger.folders
    ensures !EverStoresLower(w, acts, now, name) ==> !Fell(w, Run(w, acts, now), name)
    decreases |acts|
  {
    if acts != [] {
      var v := Apply(w, acts[0], now);
      RecordsFallIff(v, acts[1..], now, name);
      if name in w.ledger.folders {
        RecordFallsIff(w, acts[0], now, name);
        if !EverStoresLower(w, acts, now, name) {
          var u := Run(v, acts[1..], now);
          NeverFallsTwice(w.ledger.folders[name], v.ledger.folders[name], u.ledger.folders[name]);
        }
      }
    } else if name in w.ledger.folders {
      NewerTwice(w.ledger.folders[name], w.ledger.folders[name], w.ledger.folders[name]);
    }
  }

  lemma {:induction false} EverLowerIsOlder(w: World, acts: seq<Action>, now: int, name: string)
    requires MeasuresOf(w, acts, now, name)
    ensures EverStoresLower(w, acts, now, name) <==> EverStoresOlder(w, acts, now, name)
    decreases |acts|
  {
    if acts != [] {
      LowerIsOlder(w, acts[0], now, name);
      EverLowerIsOlder(Apply(w, acts[0], now), acts[1..], now, name);
    }
  }

  // -------------------------------------------------------- what is done again

  /** A round that stored a folder leaves it to be taken from that member again exactly when
      the copy measures older than what it was made of. */
  lemma TakenAgainIff(w: World, a: Action, now: int)
    requires a.TakeFolder? && Plausible(w, a, now) && TakesFolder(w, a.m.home, a.name, now) && Stored(a.o, a.name)
    ensures var here := Dirs(w.at[a.m.home].shared);
      TakesFolder(Apply(w, a, now), a.m.home, a.name, now) <==>
        NewerVersion(VersionAt(here, a.name), CopyVersion(w.store.shared, a.name, here[a.name]))
  {
    StoredIsCopy(w, a, now);
  }

  /** A round that delivered a folder leaves it to be delivered there again, at once or when
      the member is free, exactly when the copy measures older than the record. */
  lemma GivenAgainIff(w: World, a: Action, now: int)
    requires a.GiveFolder? && Smooth(w, a, now) && DecideFolder(w, a.m, a.name) == Give && SafeName(a.name)
    ensures var v, e := Apply(w, a, now), Dirs(w.at[a.m.home].shared);
      (DecideFolder(v, a.m, a.name) == Give || DecideFolder(v, a.m, a.name) == Pend) <==>
        NewerVersion(w.ledger.folders[a.name], CopyVersion(e, a.name, w.store.shared[a.name]))
  {
    InPlaceVersion(Dirs(w.at[a.m.home].shared), a.name, w.store.shared[a.name], a.o.left);
  }

  // --------------------------------------------------- when no loop is stopped

  /** What another folder's round leaves of this one in a directory. */
  lemma OtherVersion(e: map<string, Node>, at: string, src: Node, o: Outcome, name: string)
    requires Leaves(e, at, src, true, o) && Ordinary(name) && name != at
    ensures HasDir(o.left, name) <==> HasDir(e, name)
    ensures HasDir(e, name) ==> VersionAt(o.left, name) == VersionAt(e, name)
  {
    OthersAreKept(e, at, src, true, o, name);
  }

  /** A step that goes well keeps every record true. */
  lemma RecordedAct(w: World, a: Action, now: int, name: string)
    requires RecordedOf(w, name) && Ordinary(name) && Smooth(w, a, now)
    ensures RecordedOf(Apply(w, a, now), name)
  {
    if a.TakeFolder? && TakesFolder(w, a.m.home, a.name, now) && a.name != name {
      OtherVersion(w.store.shared, a.name, Dirs(w.at[a.m.home].shared)[a.name], a.o, name);
    }
  }

  lemma {:induction false} RecordedRun(w: World, acts: seq<Action>, now: int, name: string)
    requires RecordedOf(w, name) && Ordinary(name) && SmoothRun(w, acts, now)
    ensures RecordedOf(Run(w, acts, now), name)
    decreases |acts|
  {
    if acts != [] {
      RecordedAct(w, acts[0], now, name);
      RecordedRun(Apply(w, acts[0], now), acts[1..], now, name);
    }
  }

  /** What a step that goes well does to the record of a folder the pool has. */
  lemma RecordAct(w: World, a: Action, now: int, name: string)
    requires Smooth(w, a, now) && (Concerns(a, name) ==> Measures(w, a, now)) && Plain(name)
    requires name in w.ledger.folders && HasDir(w.store.shared, name)
    ensures var v := Apply(w, a, now);
      name in v.ledger.folders && HasDir(v.store.shared, name) && !Fell(w, v, name)
  {
    RecordFallsIff(w, a, now, name);
    LowerIsOlder(w, a, now, name);
    if a.TakeFolder? && TakesFolder(w, a.m.home, a.name, now) && a.name != name {
      OthersAreKept(w.store.shared, a.name, Dirs(w.at[a.m.home].shared)[a.name], true, a.o, name);
    }
  }

  /** Over any pass no loop of which stopped, and in which the copies of the folder measure as
      what they are made of, the pool keeps it and its recorded time and size do not fall. */
  lemma {:induction false} RecordNeverFalls(w: World, acts: seq<Action>, now: int, name: string)
    requires SmoothRun(w, acts, now) && MeasuresOf(w, acts, now, name) && Plain(name)
    requires name in w.ledger.folders && HasDir(w.store.shared, name)
    ensures var v := Run(w, acts, now);
      name in v.ledger.folders && HasDir(v.store.shared, name) && !Fell(w, v, name)
    decreases |acts|
  {
    NewerTwice(w.ledger.folders[name], w.ledger.folders[name], w.ledger.folders[name]);
    if acts != [] {
      var v := Apply(w, acts[0], now);
      RecordAct(w, acts[0], now, name);
      RecordNeverFalls(v, acts[1..], now, name);
      var u := Run(v, acts[1..], now);
      NeverFallsTwice(w.ledger.folders[name], v.ledger.folders[name], u.ledger.folders[name]);
    }
  }

  // -------------------------------------------------------------------- reach

  /** The pool has the folder and is not behind this copy of it. */
  ghost predicate FolderNotBehind(w: World, home: string, name: string)
  {
    && Scanned(w, home, name) && name in w.ledger.folders && HasDir(w.store.shared, name)
    && !NewerVersion(VersionAt(Dirs(w.at[home].shared), name), w.ledger.folders[name])
  }

  lemma FolderTaken(w: World, a: Action, now: int)
    requires Smooth(w, a, now) && Measures(w, a, now) && a.TakeFolder?
    requires Scanned(w, a.m.home, a.name) && Settled(VersionAt(Dirs(w.at[a.m.home].shared), a.name), now, w.quiet)
    ensures FolderNotBehind(Apply(w, a, now), a.m.home, a.name)
  {
    if TakesFolder(w, a.m.home, a.name, now) {
      StoredIsCopy(w, a, now);
    }
  }

  lemma FolderNotBehindStays(w: World, a: Action, now: int, home: string, name: string)
    requires Smooth(w, a, now) && (Concerns(a, name) ==> Measures(w, a, now)) && Plain(name)
    requires FolderNotBehind(w, home, name) && !a.GiveTitle? && !a.GiveFolder?
    ensures FolderNotBehind(Apply(w, a, now), home, name)
  {
    RecordAct(w, a, now, name);
    var v := Apply(w, a, now);
    NeverFallsTwice(VersionAt(Dirs(w.at[home].shared), name), w.ledger.folders[name], v.ledger.folders[name]);
  }

  lemma {:induction false} FolderHarvestReaches(w: World, acts: seq<Action>, now: int, m: Member, name: string)
    requires OnlyHarvest(acts) && SmoothRun(w, acts, now) && MeasuresOf(w, acts, now, name) && Plain(name)
    requires FolderNotBehind(w, m.home, name)
      || (Scanned(w, m.home, name) && Settled(VersionAt(Dirs(w.at[m.home].shared), name), now, w.quiet)
          && exists o :: TakeFolder(m, name, o) in acts)
    ensures FolderNotBehind(Run(w, acts, now), m.home, name)
    decreases |acts|
  {
    if acts != [] {
      var a := acts[0];
      assert a in acts && acts == [a] + acts[1..];
      EligibleStays(w, a, now, "", "");
      if FolderNotBehind(w, m.home, name) {
        FolderNotBehindStays(w, a, now, m.home, name);
      } else if a.TakeFolder? && a.m == m && a.name == name {
        FolderTaken(w, a, now);
      }
      assert Apply(w, a, now).quiet == w.quiet;
      assert forall b :: b in acts[1..] ==> b in acts;
      FolderHarvestReaches(Apply(w, a, now), acts[1..], now, m, name);
    }
  }
}
