/** Sync is a fixpoint: after a pass no loop of which stopped a second pass over unchanged
    libraries reports nothing and changes nothing, exactly when nothing is left to do about a
    folder; and when that is, where copies measure as what they are made of
    (internal/library/pool.go, Sync). */
module PoolFixpoint {
  import opened Wrappers
  import opened FileTree
  import opened Clone
  import opened Titles
  import opened PoolModel
  import opened PoolSteps
  import opened PoolSafety
  import opened PoolForward
  import opened PoolFolders
  import opened PoolPasses
  import opened PoolTitles

  // ---------------------------------------------------------------- converging

  /** There is nothing more to do about the folder at this member. */
  ghost predicate FolderDone(w: World, m: Member, name: string)
  {
    DecideFolder(w, m, name).Skip? || DecideFolder(w, m, name).Pend?
  }

  /** A folder given measures at the member as what the pool recorded. */
  lemma GivenFolderMeasures(w: World, a: Action, now: int)
    requires a.GiveFolder? && Smooth(w, a, now) && Measures(w, a, now) && RecordedOf(w, a.name) && Ordinary(a.name)
    requires DecideFolder(w, a.m, a.name) == Give
    ensures var v := Apply(w, a, now);
      Scanned(v, a.m.home, a.name) && VersionAt(Dirs(v.at[a.m.home].shared), a.name) == v.ledger.folders[a.name]
  {
    InPlaceVersion(Dirs(w.at[a.m.home].shared), a.name, w.store.shared[a.name], a.o.left);
  }

  lemma GivenFolderIsDone(w: World, a: Action, now: int)
    requires a.GiveFolder? && Smooth(w, a, now) && Measures(w, a, now) && RecordedOf(w, a.name) && Ordinary(a.name)
    ensures FolderDone(Apply(w, a, now), a.m, a.name)
    ensures DecideFolder(Apply(w, a, now), a.m, a.name).Pend? ==> DecideFolder(w, a.m, a.name).Pend?
  {
    match DecideFolder(w, a.m, a.name)
    case Give => GivenFolderMeasures(w, a, now);
    case Decline => MarkOther(w.ledger, a.m.name, FolderKey(a.name), Declined, a.m.name, FolderKey(a.name));
    case _ =>
  }

  ghost predicate SameFolder(a: Library, b: Library, name: string)
  {
    && (HasDir(Dirs(a.shared), name) <==> HasDir(Dirs(b.shared), name))
    && (HasDir(Dirs(a.shared), name) ==> VersionAt(Dirs(a.shared), name) == VersionAt(Dirs(b.shared), name))
  }

  lemma SameFolderDecision(w: World, v: World, m: Member, name: string)
    requires v.store == w.store && v.ledger.folders == w.ledger.folders
    requires StatusOf(v.ledger, m.name, FolderKey(name)) == StatusOf(w.ledger, m.name, FolderKey(name))
    requires m.home in v.at <==> m.home in w.at
    requires m.home in w.at ==>
      SameFolder(w.at[m.home], v.at[m.home], name) && (w.at[m.home].shared.None? <==> v.at[m.home].shared.None?)
    ensures DecideFolder(v, m, name) == DecideFolder(w, m, name)
  {
  }

  /** What another round of the distribution leaves alone. */
  lemma FolderDoneStays(w: World, a: Action, now: int, m: Member, name: string)
    requires (a.GiveTitle? || a.GiveFolder?) && Smooth(w, a, now) && TitleIds(w) && Ordinary(name)
    requires a.m == m || (a.m.name != m.name && a.m.home != m.home)
    requires FolderDone(w, m, name)
    ensures DecideFolder(Apply(w, a, now), m, name) == DecideFolder(w, m, name)
  {
    if a.GiveTitle? {
      if a.id in w.store.apps {
        DoneOverTitle(w, a, now, m, name);
      }
    } else if a.m != m || a.name != name {
      DoneOverFolder(w, a, now, m, name);
    }
  }

  lemma DoneOverTitle(w: World, a: Action, now: int, m: Member, name: string)
    requires a.GiveTitle? && !IsFolderKey(a.id)
    ensures DecideFolder(Apply(w, a, now), m, name) == DecideFolder(w, m, name)
  {
    FolderKeys(name, name);
    MarkOther(w.ledger, a.m.name, a.id, Delivered, m.name, FolderKey(name));
    MarkOther(w.ledger, a.m.name, a.id, Declined, m.name, FolderKey(name));
    SameFolderDecision(w, Apply(w, a, now), m, name);
  }

  lemma DoneOverFolder(w: World, a: Action, now: int, m: Member, name: string)
    requires a.GiveFolder? && Smooth(w, a, now) && Ordinary(name)
    requires (a.m == m && a.name != name) || (a.m.name != m.name && a.m.home != m.home)
    ensures DecideFolder(Apply(w, a, now), m, name) == DecideFolder(w, m, name)
  {
    FolderKeys(name, a.name);
    MarkOther(w.ledger, a.m.name, FolderKey(a.name), Delivered, m.name, FolderKey(name));
    MarkOther(w.ledger, a.m.name, FolderKey(a.name), Declined, m.name, FolderKey(name));
    if DecideFolder(w, a.m, a.name) == Give && a.m == m {
      OtherVersion(Dirs(w.at[m.home].shared), a.name, w.store.shared[a.name], a.o, name);
    }
    SameFolderDecision(w, Apply(w, a, now), m, name);
  }

  /** After its rounds a member has nothing more to be given. */
  lemma {:induction false} AllFoldersDone(w: World, acts: seq<Action>, now: int, members: seq<Member>,
                                          homes: set<string>, m: Member, name: string)
    requires OnlyGives(acts) && Among(acts, members, homes) && Distinct(members) && m in members
    requires SmoothRun(w, acts, now)
    requires TitleIds(w) && RecordedOf(w, name) && Ordinary(name) && MeasuresOf(w, acts, now, name)
    requires FolderDone(w, m, name) || exists o :: GiveFolder(m, name, o) in acts
    ensures FolderDone(Run(w, acts, now), m, name)
    decreases |acts|
  {
    if acts != [] {
      var a := acts[0];
      assert a in acts && acts == [a] + acts[1..];
      TitleIdsAct(w, a, now);
      RecordedAct(w, a, now, name);
      if a.GiveFolder? && a.m == m && a.name == name {
        GivenFolderIsDone(w, a, now);
      } else if FolderDone(w, m, name) {
        FolderDoneStays(w, a, now, m, name);
      }
      assert forall b :: b in acts[1..] ==> b in acts;
      AllFoldersDone(Apply(w, a, now), acts[1..], now, members, homes, m, name);
    }
  }

  /** A folder that waits for its member is in the report. */
  lemma {:induction false} PendingFolderIsListed(w: World, acts: seq<Action>, now: int, members: seq<Member>,
                                                 homes: set<string>, m: Member, name: string)
    requires OnlyGives(acts) && Among(acts, members, homes) && Distinct(members) && m in members
    requires SmoothRun(w, acts, now)
    requires TitleIds(w) && RecordedOf(w, name) && Ordinary(name) && MeasuresOf(w, acts, now, name)
    requires (FolderDone(w, m, name) && !DecideFolder(w, m, name).Pend?) || exists o :: GiveFolder(m, name, o) in acts
    requires DecideFolder(Run(w, acts, now), m, name).Pend?
    ensures Move(FolderKey(name), m.name) in RunSays(w, acts, now).pending
    decreases |acts|
  {
    if acts != [] {
      var a := acts[0];
      assert a in acts && acts == [a] + acts[1..];
      TitleIdsAct(w, a, now);
      RecordedAct(w, a, now, name);
      assert forall b :: b in acts[1..] ==> b in acts;
      var here := a.GiveFolder? && a.m == m && a.name == name;
      if here {
        GivenFolderIsDone(w, a, now);
      } else if FolderDone(w, m, name) {
        FolderDoneStays(w, a, now, m, name);
      }
      if here && DecideFolder(w, m, name).Pend? {
        assert Move(FolderKey(name), m.name) in Says(w, a, now).pending;
      } else {
        PendingFolderIsListed(Apply(w, a, now), acts[1..], now, members, homes, m, name);
      }
    }
  }

  ghost predicate FolderUpToDate(w: World, m: Member, name: string, pending: seq<Move>)
  {
    name in w.ledger.folders && HasDir(w.store.shared, name) ==>
      && m.home in w.at
      && if Scanned(w, m.home, name) then
           || !NewerVersion(w.ledger.folders[name], VersionAt(Dirs(w.at[m.home].shared), name))
           || (!m.updatable && Move(FolderKey(name), m.name) in pending)
         else StatusOf(w.ledger, m.name, FolderKey(name)) == Some(Declined)
  }

  lemma FolderUpToDateWhenDone(v: World, m: Member, name: string, pending: seq<Move>)
    requires m.home in v.at && v.at[m.home].shared.Some? && FolderDone(v, m, name)
    requires DecideFolder(v, m, name).Pend? ==> Move(FolderKey(name), m.name) in pending
    ensures FolderUpToDate(v, m, name, pending)
  {
  }

  lemma {:induction false} SharedStays(w: World, acts: seq<Action>, now: int, home: string)
    requires home in w.at && w.at[home].shared.Some?
    ensures home in Run(w, acts, now).at && Run(w, acts, now).at[home].shared.Some?
    decreases |acts|
  {
    if acts != [] {
      SharedStays(Apply(w, acts[0], now), acts[1..], now, home);
    }
  }

  /** And so with every folder the pool has, at a member that takes part in that side, as long
      as its deliveries measure as what they are made of. */
  lemma FoldersConverge(w: World, harvest: seq<Action>, gives: seq<Action>, now: int,
                        members: seq<Member>, homes: set<string>, m: Member, name: string)
    requires TitleIds(w) && RecordedOf(w, name) && Ordinary(name)
    requires Distinct(members) && WholePass(w, harvest, gives, now, members, homes)
    requires MeasuresOf(Run(w, harvest, now), gives, now, name)
    requires m in members && m.home in w.at && w.at[m.home].shared.Some?
    ensures var w1 := Run(w, harvest, now);
      FolderUpToDate(Run(w1, gives, now), m, name, RunSays(w1, gives, now).pending)
  {
    var w1 := Run(w, harvest, now);
    var w2 := Run(w1, gives, now);
    TitleIdsRun(w, harvest, now);
    RecordedRun(w, harvest, now, name);
    SharedStays(w, harvest, now, m.home);
    SharedStays(w1, gives, now, m.home);
    GivesRead(w1, gives, now);
    if name in w2.ledger.folders {
      AllFoldersDone(w1, gives, now, members, homes, m, name);
      if DecideFolder(w2, m, name).Pend? {
        PendingFolderIsListed(w1, gives, now, members, homes, m, name);
      }
      FolderUpToDateWhenDone(w2, m, name, RunSays(w1, gives, now).pending);
    }
  }

  // ----------------------------------------------------- what is left to be done

  /** The harvest has nothing to do about it: it is marked, and not to be taken. */
  ghost predicate FolderHeld(w: World, m: Member, name: string, later: int)
  {
    Scanned(w, m.home, name) ==>
      StatusOf(w.ledger, m.name, FolderKey(name)).Some? && !TakesFolder(w, m.home, name, later)
  }

  /** Nothing is left to be done about the folder at this member: what it has is marked and
      is not to be taken, and what the pool has is not to be given. */
  ghost predicate FolderRests(w: World, m: Member, name: string, later: int)
  {
    && FolderHeld(w, m, name, later)
    && (name in w.ledger.folders ==> FolderDone(w, m, name))
  }

  ghost predicate FoldersRest(w: World, members: seq<Member>, later: int)
  {
    forall m, name :: m in members ==> FolderRests(w, m, name, later)
  }

  lemma RoundIsQuiescent(w: World, a: Action, now: int, members: seq<Member>, homes: set<string>)
    requires TitleQuiet(w, a, now) && Among([a], members, homes) && (a.TakeFolder? ==> There(w, a))
    requires a.TakeFolder? || a.GiveFolder? ==> FolderRests(w, a.m, a.name, now)
    ensures Quiescent(w, a, now)
  {
    match a
    case SeePresent(m, id) => MarkAgain(w.ledger, m.name, id);
    case TakeFolder(m, name, _) => MarkAgain(w.ledger, m.name, FolderKey(name));
    case _ =>
  }

  lemma RestIsQuiet(w: World, acts: seq<Action>, now: int, members: seq<Member>, homes: set<string>)
    requires Among(acts, members, homes) && FoldersRest(w, members, now)
    requires forall a :: a in acts ==> TitleQuiet(w, a, now) && (a.TakeFolder? ==> There(w, a))
    ensures Run(w, acts, now) == w && Empty(RunSays(w, acts, now))
  {
    forall a | a in acts
      ensures Quiescent(w, a, now)
    {
      RoundIsQuiescent(w, a, now, members, homes);
    }
    QuiescentRun(w, acts, now);
  }

  /** A harvest that goes well takes what is there to be taken, from this member or another. */
  lemma {:induction false} TakesIsSeen(w: World, acts: seq<Action>, now: int, m: Member, name: string)
    requires OnlyHarvest(acts) && SmoothRun(w, acts, now) && exists o :: TakeFolder(m, name, o) in acts
    requires TakesFolder(w, m.home, name, now)
    ensures RunSays(w, acts, now).harvested != []
    decreases |acts|
  {
    var a := acts[0];
    assert a in acts && acts == [a] + acts[1..];
    if Says(w, a, now).harvested == [] {
      var v := Apply(w, a, now);
      assert v.store == w.store && v.ledger.folders == w.ledger.folders && v.at == w.at && v.quiet == w.quiet;
      assert !(a.TakeFolder? && a.m == m && a.name == name);
      assert forall b :: b in acts[1..] ==> b in acts;
      TakesIsSeen(v, acts[1..], now, m, name);
    }
  }

  /** A distribution that goes well gives, or notes as declined, what is to be. */
  lemma {:induction false} OffersIsSeen(w: World, acts: seq<Action>, now: int, m: Member, name: string)
    requires OnlyGives(acts) && SmoothRun(w, acts, now) && exists o :: GiveFolder(m, name, o) in acts
    requires !FolderDone(w, m, name)
    ensures !Empty(RunSays(w, acts, now))
    decreases |acts|
  {
    var a := acts[0];
    assert a in acts && acts == [a] + acts[1..];
    if Empty(Says(w, a, now)) {
      assert Apply(w, a, now) == w;
      assert !(a.GiveFolder? && a.m == m && a.name == name);
      assert forall b :: b in acts[1..] ==> b in acts;
      OffersIsSeen(w, acts[1..], now, m, name);
    }
  }

  lemma UnmarkedIsSeen(w: World, again: seq<Action>, more: seq<Action>, later: int, a: Action)
    requires a in again && a.TakeFolder? && StatusOf(w.ledger, a.m.name, FolderKey(a.name)).None?
    ensures Run(w, again + more, later) != w
  {
    assert Sees(a, a.m, FolderKey(a.name)) && a in again + more;
    MarkedPass(w, again + more, later, a.m, FolderKey(a.name));
  }

  lemma UnheldIsSeen(w: World, again: seq<Action>, more: seq<Action>, later: int, m: Member, name: string, o: Outcome)
    requires TakeFolder(m, name, o) in again && OnlyHarvest(again) && SmoothRun(w, again, later)
    requires !FolderHeld(w, m, name, later)
    ensures Run(w, again + more, later) != w || !Empty(RunSays(w, again, later))
  {
    if StatusOf(w.ledger, m.name, FolderKey(name)).None? {
      UnmarkedIsSeen(w, again, more, later, TakeFolder(m, name, o));
    } else {
      TakesIsSeen(w, again, later, m, name);
    }
  }

  /** A whole pass changes something, or reports it, whenever anything is left to be done. */
  lemma RestlessIsSeen(w: World, again: seq<Action>, more: seq<Action>, later: int, members: seq<Member>,
                       homes: set<string>)
    requires WholePass(w, again, more, later, members, homes) && OnlyThere(w, again) && !FoldersRest(w, members, later)
    requires forall a :: a in again ==> TitleQuiet(w, a, later)
    ensures !(Run(w, again + more, later) == w && Empty(RunSays(w, again + more, later)))
  {
    SaysJoin(w, again, more, later);
    if m, name :| m in members && !FolderHeld(w, m, name, later) {
      var o :| TakeFolder(m, name, o) in again;
      UnheldIsSeen(w, again, more, later, m, name, o);
    } else {
      HarvestIsQuiet(w, again, later, members, homes);
      var m, name :| m in members && !FolderRests(w, m, name, later);
      OffersIsSeen(w, more, later, m, name);
    }
  }

  lemma HarvestIsQuiet(w: World, again: seq<Action>, later: int, members: seq<Member>, homes: set<string>)
    requires OnlyHarvest(again) && Among(again, members, homes) && OnlyThere(w, again)
    requires forall a :: a in again ==> TitleQuiet(w, a, later)
    requires forall m, name :: m in members ==> FolderHeld(w, m, name, later)
    ensures Run(w, again, later) == w
  {
    forall a | a in again
      ensures Quiescent(w, a, later)
    {
      assert There(w, a);
      match a
      case SeePresent(m, id) => MarkAgain(w.ledger, m.name, id);
      case TakeFolder(m, name, _) =>
        assert FolderHeld(w, m, name, later);
        MarkAgain(w.ledger, m.name, FolderKey(name));
      case _ =>
    }
    QuiescentRun(w, again, later);
  }

  /** Whatever the folders are and whatever their copies measure: a whole second pass reports
      nothing and changes nothing if and only if nothing is left to be done about a folder.
      Where nothing is, that is so however far the second pass gets. */
  lemma SyncIsFixpointIff(w: World, harvest: seq<Action>, gives: seq<Action>, now: int,
                          again: seq<Action>, more: seq<Action>, later: int,
                          members: seq<Member>, homes: set<string>, owner: map<string, string>)
    requires SoundTitles(w, owner) && Distinct(members) && WholePass(w, harvest, gives, now, members, homes)
    requires SameQuiet(w, now, later)
    requires var w2 := Run(Run(w, harvest, now), gives, now);
      OnlyHarvest(again) && Among(again, members, homes) && OnlyThere(w2, again) && OnlyGives(more)
        && Among(more, members, homes)
    ensures var w2 := Run(Run(w, harvest, now), gives, now);
      var quiet := Run(w2, again + more, later) == w2 && Empty(RunSays(w2, again + more, later));
      && (FoldersRest(w2, members, later) ==> quiet)
      && (WholePass(w2, again, more, later, members, homes) ==> (quiet <==> FoldersRest(w2, members, later)))
  {
    var w1 := Run(w, harvest, now);
    var w2 := Run(w1, gives, now);
    TitlesPass(w, harvest, gives, now, members, homes, owner);
    forall a | a in again + more
      ensures TitleQuiet(w2, a, later) && Among([a], members, homes)
    {
      assert a in again || a in more;
      SecondTitles(w1, w2, a, now, later, members, homes, owner);
    }
    assert Among(again + more, members, homes);
    if FoldersRest(w2, members, later) {
      RestIsQuiet(w2, again + more, later, members, homes);
    } else if WholePass(w2, again, more, later, members, homes) {
      RestlessIsSeen(w2, again, more, later, members, homes);
    }
  }

  // -------------------------------------------- where copies measure as they should

  /** Each folder a library has now it had before, or it is the pool's copy at the recorded
      version. */
  ghost predicate FolderKept(w: World, v: World, home: string, name: string)
  {
    Scanned(v, home, name) ==>
      || (Scanned(w, home, name)
          && VersionAt(Dirs(v.at[home].shared), name) == VersionAt(Dirs(w.at[home].shared), name))
      || (name in w.ledger.folders && HasDir(w.store.shared, name)
          && VersionAt(Dirs(v.at[home].shared), name) == w.ledger.folders[name])
  }

  ghost predicate FolderMarked(v: World, m: Member, name: string)
  {
    Scanned(v, m.home, name) ==> StatusOf(v.ledger, m.name, FolderKey(name)).Some?
  }

  ghost predicate FolderGiven(w: World, v: World, members: seq<Member>, name: string)
  {
    && v.store == w.store && v.ledger.folders == w.ledger.folders && v.quiet == w.quiet
    && (forall home :: FolderKept(w, v, home, name))
    && (forall m :: m in members ==> FolderMarked(v, m, name))
  }

  lemma FolderKeptAct(w: World, v: World, a: Action, now: int, home: string, name: string)
    requires (a.GiveTitle? || a.GiveFolder?) && Smooth(v, a, now) && (Concerns(a, name) ==> Measures(v, a, now))
    requires v.store == w.store && v.ledger.folders == w.ledger.folders
    requires RecordedOf(v, name) && Ordinary(name) && FolderKept(w, v, home, name)
    ensures FolderKept(w, Apply(v, a, now), home, name)
  {
    if a.GiveFolder? && DecideFolder(v, a.m, a.name) == Give && a.m.home == home {
      if a.name == name {
        GivenFolderMeasures(v, a, now);
      } else {
        OtherVersion(Dirs(v.at[home].shared), a.name, v.store.shared[a.name], a.o, name);
      }
    }
  }

  lemma FolderMarkedAct(v: World, a: Action, now: int, m: Member, name: string)
    requires (a.GiveTitle? || a.GiveFolder?) && Smooth(v, a, now)
    requires a.m == m || (a.m.name != m.name && a.m.home != m.home)
    requires Plain(name) && FolderMarked(v, m, name)
    ensures FolderMarked(Apply(v, a, now), m, name)
  {
    var u := Apply(v, a, now);
    if Scanned(u, m.home, name) {
      if Scanned(v, m.home, name) {
        MarkedAct(v, a, now, m.name, FolderKey(name));
      } else if a.GiveFolder? && a.name != name {
        OthersAreKept(Dirs(v.at[m.home].shared), a.name, v.store.shared[a.name], true, a.o, name);
      } else {
        MarkOther(v.ledger, m.name, FolderKey(name), Delivered, m.name, FolderKey(name));
      }
    }
  }

  lemma {:induction false} FolderGivenRun(w: World, v: World, acts: seq<Action>, now: int, members: seq<Member>,
                                          homes: set<string>, name: string)
    requires OnlyGives(acts) && Among(acts, members, homes) && Distinct(members) && SmoothRun(v, acts, now)
    requires RecordedOf(v, name) && Ordinary(name) && MeasuresOf(v, acts, now, name) && FolderGiven(w, v, members, name)
    ensures FolderGiven(w, Run(v, acts, now), members, name)
    decreases |acts|
  {
    if acts != [] {
      var a := acts[0];
      assert a in acts && acts == [a] + acts[1..];
      var u := Apply(v, a, now);
      forall home
        ensures FolderKept(w, u, home, name)
      {
        FolderKeptAct(w, v, a, now, home, name);
      }
      forall m | m in members
        ensures FolderMarked(u, m, name)
      {
        FolderMarkedAct(v, a, now, m, name);
      }
      RecordedAct(v, a, now, name);
      assert forall b :: b in acts[1..] ==> b in acts;
      FolderGivenRun(w, u, acts[1..], now, members, homes, name);
    }
  }

  /** The pool is behind no settled copy of the folder. */
  ghost predicate FolderReached(w1: World, now: int, members: seq<Member>, name: string)
  {
    forall m :: m in members && Scanned(w1, m.home, name)
      && Settled(VersionAt(Dirs(w1.at[m.home].shared), name), now, w1.quiet)
      ==> FolderNotBehind(w1, m.home, name)
  }

  lemma FolderHarvested(w: World, acts: seq<Action>, now: int, members: seq<Member>, homes: set<string>, name: string)
    requires FullHarvest(w, acts, members, homes) && SmoothRun(w, acts, now) && MeasuresOf(w, acts, now, name)
    requires Plain(name)
    ensures var w1 := Run(w, acts, now);
      w1.at == w.at && w1.quiet == w.quiet && FolderReached(w1, now, members, name)
        && FolderGiven(w1, w1, members, name)
  {
    var w1 := Run(w, acts, now);
    HarvestReads(w, acts, now);
    forall m | m in members && Scanned(w1, m.home, name)
      ensures StatusOf(w1.ledger, m.name, FolderKey(name)).Some?
      ensures Settled(VersionAt(Dirs(w1.at[m.home].shared), name), now, w1.quiet) ==> FolderNotBehind(w1, m.home, name)
    {
      assert Scanned(w, m.home, name);
      var o :| TakeFolder(m, name, o) in acts;
      assert Sees(TakeFolder(m, name, o), m, FolderKey(name));
      MarkedPass(w, acts, now, m, FolderKey(name));
      if Settled(VersionAt(Dirs(w1.at[m.home].shared), name), now, w1.quiet) {
        FolderHarvestReaches(w, acts, now, m, name);
      }
    }
  }

  /** No copy of the folder has settled that had not. */
  ghost predicate SameSettled(w: World, now: int, later: int, name: string)
  {
    forall home :: Scanned(w, home, name) && Settled(VersionAt(Dirs(w.at[home].shared), name), later, w.quiet) ==>
      Settled(VersionAt(Dirs(w.at[home].shared), name), now, w.quiet)
  }

  /** After a whole pass in which every copy of a folder measures as what it is made of, that
      folder rests everywhere. */
  lemma FolderRestsAfter(w: World, harvest: seq<Action>, gives: seq<Action>, now: int, later: int,
                         members: seq<Member>, homes: set<string>, m: Member, name: string)
    requires TitleIds(w) && RecordedOf(w, name) && Ordinary(name) && SameSettled(w, now, later, name)
    requires Distinct(members) && WholePass(w, harvest, gives, now, members, homes) && m in members
    requires MeasuresOf(w, harvest, now, name) && MeasuresOf(Run(w, harvest, now), gives, now, name)
    ensures FolderRests(Run(Run(w, harvest, now), gives, now), m, name, later)
  {
    var w1 := Run(w, harvest, now);
    var w2 := Run(w1, gives, now);
    TitleIdsRun(w, harvest, now);
    RecordedRun(w, harvest, now, name);
    FolderHarvested(w, harvest, now, members, homes, name);
    FolderGivenRun(w1, w1, gives, now, members, homes, name);
    if Scanned(w2, m.home, name) {
      assert FolderMarked(w2, m, name);
      SecondFolder(w1, w2, m, name, now, later, members);
    }
    if name in w2.ledger.folders {
      SameHomes(w1, gives, now);
      assert FolderDone(w1, m, name) || (m.home in w1.at && w1.at[m.home].shared.Some?);
      AllFoldersDone(w1, gives, now, members, homes, m, name);
    }
  }

  lemma SecondFolder(w1: World, w2: World, m: Member, name: string, now: int, later: int, members: seq<Member>)
    requires FolderReached(w1, now, members, name) && FolderGiven(w1, w2, members, name)
    requires SameSettled(w1, now, later, name)
    requires m in members && Scanned(w2, m.home, name)
    ensures !TakesFolder(w2, m.home, name, later)
  {
    var mine := VersionAt(Dirs(w2.at[m.home].shared), name);
    NewerTwice(mine, mine, mine);
    assert FolderKept(w1, w2, m.home, name);
    if Settled(mine, later, w2.quiet) && Scanned(w1, m.home, name)
      && VersionAt(Dirs(w1.at[m.home].shared), name) == mine {
      assert Settled(VersionAt(Dirs(w1.at[m.home].shared), name), later, w1.quiet);
      assert FolderNotBehind(w1, m.home, name);
    }
  }

  // -------------------------------------------------- and what clones leave aside

  /** No folder is called like a copy moved aside, or like the drive of a wine prefix. */
  ghost predicate OrdinaryFolders(w: World)
  {
    && (forall name :: name in w.ledger.folders ==> Ordinary(name))
    && (forall home, name :: Scanned(w, home, name) ==> Ordinary(name))
  }

  lemma {:induction false} OrdinaryRecords(w: World, acts: seq<Action>, now: int)
    requires OrdinaryFolders(w) && OnlyHarvest(acts)
    ensures OrdinaryFolders(Run(w, acts, now))
    decreases |acts|
  {
    if acts != [] {
      var v := Apply(w, acts[0], now);
      assert acts[0] in acts;
      assert forall b :: b in acts[1..] ==> b in acts;
      EligibleStays(w, acts[0], now, "", "");
      assert forall home, name :: Scanned(v, home, name) ==> Scanned(w, home, name);
      OrdinaryRecords(v, acts[1..], now);
    }
  }

  /** What the distribution brings under a plain name is what the pool has recorded. */
  lemma {:induction false} OnlyRecorded(w: World, acts: seq<Action>, now: int, home: string, name: string)
    requires OnlyGives(acts) && SmoothRun(w, acts, now) && Plain(name)
    ensures Scanned(Run(w, acts, now), home, name) ==> Scanned(w, home, name) || name in w.ledger.folders
    decreases |acts|
  {
    if acts != [] {
      var a := acts[0];
      assert a in acts;
      assert forall b :: b in acts[1..] ==> b in acts;
      if a.GiveFolder? && DecideFolder(w, a.m, a.name) == Give && a.m.home == home && a.name != name {
        OthersAreKept(Dirs(w.at[home].shared), a.name, w.store.shared[a.name], true, a.o, name);
      }
      OnlyRecorded(Apply(w, a, now), acts[1..], now, home, name);
    }
  }

  /** What clones into the members have left there of copies moved aside is marked already
      and still too new to be taken. */
  ghost predicate Resting(w: World, members: seq<Member>, later: int)
  {
    forall m, name :: m in members && Scanned(w, m.home, name) && !NotAside(name) ==>
      StatusOf(w.ledger, m.name, FolderKey(name)).Some?
        && !Settled(VersionAt(Dirs(w.at[m.home].shared), name), later, w.quiet)
  }

  /** What holds of the folders whenever a pass starts. */
  ghost predicate SoundFolders(w: World)
  {
    OrdinaryFolders(w) && TitleIds(w) && forall name :: Ordinary(name) ==> RecordedOf(w, name)
  }

  /** Every copy of every folder measures as what it is made of. */
  ghost predicate AllMeasure(w: World, harvest: seq<Action>, gives: seq<Action>, now: int)
  {
    forall name :: Ordinary(name) ==>
      MeasuresOf(w, harvest, now, name) && MeasuresOf(Run(w, harvest, now), gives, now, name)
  }

  /** Then what is left to be done is exactly what clones into the members have left aside. */
  lemma FoldersRestIff(w: World, harvest: seq<Action>, gives: seq<Action>, now: int, later: int,
                       members: seq<Member>, homes: set<string>)
    requires SoundFolders(w) && Distinct(members) && WholePass(w, harvest, gives, now, members, homes)
    requires AllMeasure(w, harvest, gives, now) && forall name :: SameSettled(w, now, later, name)
    ensures var w2 := Run(Run(w, harvest, now), gives, now);
      FoldersRest(w2, members, later) <==> Resting(w2, members, later)
  {
    var w2 := Run(Run(w, harvest, now), gives, now);
    forall m, name | m in members && Ordinary(name)
      ensures FolderRests(w2, m, name, later)
    {
      FolderRestsAfter(w, harvest, gives, now, later, members, homes, m, name);
    }
    OrdinaryAfter(w, harvest, gives, now);
    LeftIsAside(w2, members, later);
  }

  lemma OrdinaryAfter(w: World, harvest: seq<Action>, gives: seq<Action>, now: int)
    requires OrdinaryFolders(w) && OnlyHarvest(harvest) && OnlyGives(gives)
    requires SmoothRun(Run(w, harvest, now), gives, now)
    ensures var w2 := Run(Run(w, harvest, now), gives, now);
      && (forall home, name :: Scanned(w2, home, name) && NotAside(name) ==> Ordinary(name))
      && (forall name :: !Ordinary(name) ==> name !in w2.ledger.folders)
  {
    var w1 := Run(w, harvest, now);
    OrdinaryRecords(w, harvest, now);
    GivesRead(w1, gives, now);
    forall home, name | Scanned(Run(w1, gives, now), home, name) && NotAside(name)
      ensures Ordinary(name)
    {
      OnlyRecorded(w1, gives, now, home, name);
    }
  }

  lemma LeftIsAside(w: World, members: seq<Member>, later: int)
    requires forall m, name :: m in members && Ordinary(name) ==> FolderRests(w, m, name, later)
    requires forall home, name :: Scanned(w, home, name) && NotAside(name) ==> Ordinary(name)
    requires forall name :: !Ordinary(name) ==> name !in w.ledger.folders
    ensures FoldersRest(w, members, later) <==> Resting(w, members, later)
  {
    if FoldersRest(w, members, later) {
      forall m, name | m in members && Scanned(w, m.home, name) && !NotAside(name)
        ensures StatusOf(w.ledger, m.name, FolderKey(name)).Some?
        ensures !Settled(VersionAt(Dirs(w.at[m.home].shared), name), later, w.quiet)
      {
        assert FolderRests(w, m, name, later);
        assert !Ordinary(name);
      }
    }
    if Resting(w, members, later) {
      forall m, name | m in members
        ensures FolderRests(w, m, name, later)
      {
        if !Ordinary(name) {
          assert name !in w.ledger.folders;
        }
      }
    }
  }

  /** A second pass over unchanged libraries and verdicts, however far it gets, reports
      nothing and changes nothing as long as what clones left aside rests. */
  lemma SyncIsFixpoint(w: World, harvest: seq<Action>, gives: seq<Action>, now: int,
                       again: seq<Action>, more: seq<Action>, later: int,
                       members: seq<Member>, homes: set<string>, owner: map<string, string>)
    requires SoundTitles(w, owner) && SoundFolders(w)
    requires Distinct(members) && WholePass(w, harvest, gives, now, members, homes)
    requires AllMeasure(w, harvest, gives, now)
    requires SameQuiet(w, now, later) && forall name :: SameSettled(w, now, later, name)
    requires var w2 := Run(Run(w, harvest, now), gives, now);
      && Resting(w2, members, later)
      && OnlyHarvest(again) && Among(again, members, homes) && OnlyThere(w2, again) && OnlyGives(more)
        && Among(more, members, homes)
    ensures var w2 := Run(Run(w, harvest, now), gives, now);
      Run(w2, again + more, later) == w2 && Empty(RunSays(w2, again + more, later))
  {
    FoldersRestIff(w, harvest, gives, now, later, members, homes);
    SyncIsFixpointIff(w, harvest, gives, now, again, more, later, members, homes, owner);
  }

  /** A copy that a good clone into a member left aside is a folder to the next pass. */
  lemma LeftoverIsTaken(w: World, a: Action, now: int, later: int)
    requires a.GiveFolder? && Smooth(w, a, now) && DecideFolder(w, a.m, a.name) == Give && SafeName(a.name)
    requires HasDir(a.o.left, OldName(a.name)) && OldName(a.name) !in w.ledger.folders
    requires Settled(VersionAt(a.o.left, OldName(a.name)), later, w.quiet)
    ensures TakesFolder(Apply(w, a, now), a.m.home, OldName(a.name), later)
  {
    var name := a.name;
    assert OldName(name)[0] == name[0];
    assert '/' !in OLD_SUFFIX && '\\' !in OLD_SUFFIX;
  }
}
