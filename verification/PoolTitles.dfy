/** The titles of a pass: after one no loop of which stopped every member is up to date, and
    no title moves in the next, whatever becomes of the folders in either. */
module PoolTitles {
  import opened Wrappers
  import opened Titles
  import opened PoolModel
  import opened PoolSteps
  import opened PoolSafety
  import opened PoolForward
  import opened PoolPasses

  // ---------------------------------------------------------------- converging

  /** There is nothing more to do about the title at this member. */
  ghost predicate TitleDone(w: World, m: Member, id: string)
  {
    DecideTitle(w, m, id).Skip? || DecideTitle(w, m, id).Pend?
  }

  lemma GivenIsDone(w: World, a: Action, now: int)
    requires a.GiveTitle? && Smooth(w, a, now)
    ensures TitleDone(Apply(w, a, now), a.m, a.id)
    ensures DecideTitle(Apply(w, a, now), a.m, a.id).Pend? ==> DecideTitle(w, a.m, a.id).Pend?
  {
    var v := Apply(w, a, now);
    match DecideTitle(w, a.m, a.id)
    case Give =>
      assert a.id in v.at[a.m.home].apps && v.at[a.m.home].apps[a.id].build == v.store.apps[a.id].build;
    case Decline => MarkOther(w.ledger, a.m.name, a.id, Declined, a.m.name, a.id);
    case _ =>
  }

  /** What another round of the distribution leaves alone. */
  lemma TitleDoneStays(w: World, a: Action, now: int, m: Member, id: string)
    requires (a.GiveTitle? || a.GiveFolder?) && Smooth(w, a, now)
    requires a.m == m || (a.m.name != m.name && a.m.home != m.home)
    requires TitleDone(w, m, id) && !IsFolderKey(id)
    ensures DecideTitle(Apply(w, a, now), m, id) == DecideTitle(w, m, id)
  {
    var v := Apply(w, a, now);
    assert v.store == w.store;
    if a.GiveTitle? {
      if a.m == m && a.id == id {
        GivenIsDone(w, a, now);
      } else {
        MarkOther(w.ledger, a.m.name, a.id, Delivered, m.name, id);
        MarkOther(w.ledger, a.m.name, a.id, Declined, m.name, id);
        SameDecision(w, v, m, id);
      }
    } else {
      FolderKeys(a.name, a.name);
      MarkOther(w.ledger, a.m.name, FolderKey(a.name), Delivered, m.name, id);
      MarkOther(w.ledger, a.m.name, FolderKey(a.name), Declined, m.name, id);
      SameDecision(w, v, m, id);
    }
  }

  lemma SameDecision(w: World, v: World, m: Member, id: string)
    requires v.store == w.store && StatusOf(v.ledger, m.name, id) == StatusOf(w.ledger, m.name, id)
    requires m.home in v.at <==> m.home in w.at
    requires m.home in w.at ==> SameTitle(w.at[m.home], v.at[m.home], id)
    ensures DecideTitle(v, m, id) == DecideTitle(w, m, id)
  {
  }

  /** After its rounds a member has nothing more to be given. */
  lemma {:induction false} AllDone(w: World, acts: seq<Action>, now: int, members: seq<Member>, homes: set<string>,
                                   m: Member, id: string)
    requires OnlyGives(acts) && Among(acts, members, homes) && Distinct(members) && m in members
    requires SmoothRun(w, acts, now)
    requires !IsFolderKey(id)
    requires TitleDone(w, m, id) || exists o :: GiveTitle(m, id, o) in acts
    ensures TitleDone(Run(w, acts, now), m, id)
    decreases |acts|
  {
    if acts != [] {
      var a := acts[0];
      assert a in acts && acts == [a] + acts[1..];
      if a.GiveTitle? && a.m == m && a.id == id {
        GivenIsDone(w, a, now);
      } else if TitleDone(w, m, id) {
        TitleDoneStays(w, a, now, m, id);
      }
      assert forall b :: b in acts[1..] ==> b in acts;
      AllDone(Apply(w, a, now), acts[1..], now, members, homes, m, id);
    }
  }

  /** A title that waits for its member is in the report. */
  lemma {:induction false} PendingIsListed(w: World, acts: seq<Action>, now: int, members: seq<Member>,
                                           homes: set<string>, m: Member, id: string)
    requires OnlyGives(acts) && Among(acts, members, homes) && Distinct(members) && m in members
    requires SmoothRun(w, acts, now)
    requires !IsFolderKey(id)
    requires (TitleDone(w, m, id) && !DecideTitle(w, m, id).Pend?) || exists o :: GiveTitle(m, id, o) in acts
    requires DecideTitle(Run(w, acts, now), m, id).Pend?
    ensures Move(id, m.name) in RunSays(w, acts, now).pending
    decreases |acts|
  {
    if acts != [] {
      var a := acts[0];
      assert a in acts && acts == [a] + acts[1..];
      var v := Apply(w, a, now);
      assert forall b :: b in acts[1..] ==> b in acts;
      var here := a.GiveTitle? && a.m == m && a.id == id;
      if here {
        GivenIsDone(w, a, now);
      } else if TitleDone(w, m, id) {
        TitleDoneStays(w, a, now, m, id);
      }
      if here && DecideTitle(w, m, id).Pend? {
        assert Move(id, m.name) in Says(w, a, now).pending;
      } else {
        PendingIsListed(v, acts[1..], now, members, homes, m, id);
      }
    }
  }

  /** Present and not behind the pool, or waiting and listed, or declined. */
  ghost predicate UpToDate(w: World, m: Member, id: string, pending: seq<Move>)
  {
    Whole(w.store, id) && Installed(w.store.apps[id]) ==>
      && m.home in w.at
      && if id in w.at[m.home].apps then
           || !NewerBuild(w.store.apps[id].build, w.at[m.home].apps[id].build)
           || (!m.updatable && Move(id, m.name) in pending)
         else StatusOf(w.ledger, m.name, id) == Some(Declined)
  }

  lemma UpToDateWhenDone(v: World, m: Member, id: string, pending: seq<Move>)
    requires m.home in v.at && TitleDone(v, m, id)
    requires DecideTitle(v, m, id).Pend? ==> Move(id, m.name) in pending
    ensures UpToDate(v, m, id, pending)
  {
  }

  /** After a whole pass every member has each whole title at the pool's build or a later
      one, or has declined it, or is in the report as waiting for it. */
  lemma SyncConverges(w: World, harvest: seq<Action>, gives: seq<Action>, now: int,
                      members: seq<Member>, homes: set<string>, m: Member, id: string)
    requires Distinct(members) && WholePass(w, harvest, gives, now, members, homes)
    requires m in members && m.home in w.at && !IsFolderKey(id)
    ensures var w1 := Run(w, harvest, now);
      UpToDate(Run(w1, gives, now), m, id, RunSays(w1, gives, now).pending)
  {
    var w1 := Run(w, harvest, now);
    var w2 := Run(w1, gives, now);
    SameHomes(w, harvest, now);
    SameHomes(w1, gives, now);
    GivesRead(w1, gives, now);
    if id in w1.store.apps {
      AllDone(w1, gives, now, members, homes, m, id);
      if DecideTitle(w2, m, id).Pend? {
        PendingIsListed(w1, gives, now, members, homes, m, id);
      }
      UpToDateWhenDone(w2, m, id, RunSays(w1, gives, now).pending);
    }
  }

  // ------------------------------------------------------- what a pass leaves

  /** What holds of the titles whenever a pass starts. */
  ghost predicate SoundTitles(w: World, owner: map<string, string>)
  {
    Tidy(w) && DirsOwned(w, owner) && TitleIds(w)
  }

  lemma SoundTitlesAct(w: World, a: Action, now: int, owner: map<string, string>)
    requires SoundTitles(w, owner)
    ensures SoundTitles(Apply(w, a, now), owner)
  {
    ActAppsFrom(w, a, now);
    TidyKeeps(w, Apply(w, a, now), now);
    OwnedKeeps(w, Apply(w, a, now), now, owner);
    TitleIdsAct(w, a, now);
  }

  lemma {:induction false} SoundTitlesRun(w: World, acts: seq<Action>, now: int, owner: map<string, string>)
    requires SoundTitles(w, owner)
    ensures SoundTitles(Run(w, acts, now), owner)
    decreases |acts|
  {
    if acts != [] {
      SoundTitlesAct(w, acts[0], now, owner);
      SoundTitlesRun(Apply(w, acts[0], now), acts[1..], now, owner);
    }
  }

  /** Each title a library has now it had before, files and all as far as it had them, or
      it is the pool's copy of a title the pool holds whole. */
  ghost predicate TitleKept(w: World, v: World, home: string, id: string)
  {
    home in v.at && id in v.at[home].apps ==>
      || (home in w.at && id in w.at[home].apps && v.at[home].apps[id] == w.at[home].apps[id]
          && (HasDir(Dirs(v.at[home].common), v.at[home].apps[id].dir) ==>
              HasDir(Dirs(w.at[home].common), v.at[home].apps[id].dir)))
      || (Whole(w.store, id) && v.at[home].apps[id].build == w.store.apps[id].build)
  }

  ghost predicate TitlesMarked(v: World, m: Member)
  {
    m.home in v.at ==> forall id :: id in v.at[m.home].apps ==> StatusOf(v.ledger, m.name, id).Some?
  }

  /** What the distribution has not changed since `w`, and what holds of what it has. */
  ghost predicate TitlesGiven(w: World, v: World, members: seq<Member>)
  {
    && v.store == w.store && v.ledger.withheld == w.ledger.withheld && v.quiet == w.quiet
    && (forall home, id :: TitleKept(w, v, home, id))
    && (forall m :: m in members ==> TitlesMarked(v, m))
  }

  lemma TitleKeptAct(w: World, v: World, a: Action, now: int, owner: map<string, string>, home: string, id: string)
    requires (a.GiveTitle? || a.GiveFolder?) && Smooth(v, a, now) && v.store == w.store
    requires Tidy(v) && DirsOwned(v, owner) && TitleKept(w, v, home, id)
    ensures TitleKept(w, Apply(v, a, now), home, id)
  {
    var u := Apply(v, a, now);
    if home in u.at && id in u.at[home].apps && a.GiveTitle? && DecideTitle(v, a.m, a.id) == Give
      && a.m.home == home && a.id != id {
      assert u.at[home].apps[id] == v.at[home].apps[id];
      var dir := v.at[home].apps[id].dir;
      assert owner[dir] == id && owner[v.store.apps[a.id].dir] == a.id;
      AsideIsOther(dir, v.store.apps[a.id].dir);
      assert HasDir(Dirs(u.at[home].common), dir) ==> HasDir(Dirs(v.at[home].common), dir);
    }
  }

  lemma TitlesMarkedAct(v: World, a: Action, now: int, m: Member)
    requires (a.GiveTitle? || a.GiveFolder?) && (a.m == m || (a.m.name != m.name && a.m.home != m.home))
    requires TitlesMarked(v, m)
    ensures TitlesMarked(Apply(v, a, now), m)
  {
    var u := Apply(v, a, now);
    if m.home in u.at {
      assert m.home in v.at;
      forall id | id in u.at[m.home].apps
        ensures StatusOf(u.ledger, m.name, id).Some?
      {
        if id in v.at[m.home].apps {
          MarkedAct(v, a, now, m.name, id);
        } else {
          MarkOther(v.ledger, m.name, id, Delivered, m.name, id);
        }
      }
    }
  }

  lemma {:induction false} TitlesGivenRun(w: World, v: World, acts: seq<Action>, now: int, members: seq<Member>,
                                          homes: set<string>, owner: map<string, string>)
    requires OnlyGives(acts) && Among(acts, members, homes) && Distinct(members) && SmoothRun(v, acts, now)
    requires SoundTitles(v, owner) && TitlesGiven(w, v, members)
    ensures TitlesGiven(w, Run(v, acts, now), members)
    decreases |acts|
  {
    if acts != [] {
      var a := acts[0];
      assert a in acts && acts == [a] + acts[1..];
      var u := Apply(v, a, now);
      forall home, id
        ensures TitleKept(w, u, home, id)
      {
        TitleKeptAct(w, v, a, now, owner, home, id);
      }
      forall m | m in members
        ensures TitlesMarked(u, m)
      {
        TitlesMarkedAct(v, a, now, m);
      }
      SoundTitlesAct(v, a, now, owner);
      assert forall b :: b in acts[1..] ==> b in acts;
      TitlesGivenRun(w, u, acts[1..], now, members, homes, owner);
    }
  }

  /** The pool is behind no library that was read. */
  ghost predicate TitlesReached(w1: World, now: int, homes: set<string>)
  {
    forall home, id :: home in homes && Eligible(w1, home, id, now) ==> NotBehind(w1, home, id)
  }

  lemma TitlesHarvested(w: World, acts: seq<Action>, now: int, members: seq<Member>, homes: set<string>,
                        owner: map<string, string>)
    requires SoundTitles(w, owner) && FullHarvest(w, acts, members, homes) && SmoothRun(w, acts, now)
    ensures var w1 := Run(w, acts, now);
      w1.at == w.at && w1.quiet == w.quiet && TitlesReached(w1, now, homes) && TitlesGiven(w1, w1, members)
  {
    var w1 := Run(w, acts, now);
    HarvestReads(w, acts, now);
    forall home, id | home in homes && Eligible(w1, home, id, now)
      ensures NotBehind(w1, home, id)
    {
      assert Eligible(w, home, id, now);
      HarvestReaches(w, acts, now, home, id);
    }
    forall m | m in members
      ensures TitlesMarked(w1, m)
    {
      if m.home in w1.at {
        forall id | id in w1.at[m.home].apps
          ensures StatusOf(w1.ledger, m.name, id).Some?
        {
          assert Sees(SeePresent(m, id), m, id);
          MarkedPass(w, acts, now, m, id);
        }
      }
    }
  }

  lemma TitlesPass(w: World, harvest: seq<Action>, gives: seq<Action>, now: int, members: seq<Member>,
                   homes: set<string>, owner: map<string, string>)
    requires SoundTitles(w, owner) && Distinct(members) && WholePass(w, harvest, gives, now, members, homes)
    ensures var w1 := Run(w, harvest, now);
      var w2 := Run(w1, gives, now);
      && w1.at == w.at && w1.quiet == w.quiet && TitlesReached(w1, now, homes) && TitlesGiven(w1, w2, members)
      && (forall m, id :: m in members && id in w2.store.apps ==> TitleDone(w2, m, id))
      && SoundTitles(w2, owner)
  {
    var w1 := Run(w, harvest, now);
    var w2 := Run(w1, gives, now);
    SoundTitlesRun(w, harvest, now, owner);
    TitlesHarvested(w, harvest, now, members, homes, owner);
    TitlesGivenRun(w1, w1, gives, now, members, homes, owner);
    SoundTitlesRun(w1, gives, now, owner);
    GivesRead(w1, gives, now);
    SameHomes(w1, gives, now);
    forall m, id | m in members && id in w2.store.apps
      ensures TitleDone(w2, m, id)
    {
      if m.home in w1.at {
        AllDone(w1, gives, now, members, homes, m, id);
      }
    }
  }

  // ------------------------------------------------------------ the next pass

  /** Nothing has become quiet that was not. */
  ghost predicate SameQuiet(w: World, now: int, later: int)
  {
    forall home, id :: home in w.at && id in w.at[home].apps && Quiet(w.at[home].apps[id], later, w.quiet) ==>
      Quiet(w.at[home].apps[id], now, w.quiet)
  }

  /** The round does nothing about a title. */
  ghost predicate TitleQuiet(w: World, a: Action, now: int)
  {
    match a
    case SeePresent(m, id) => StatusOf(w.ledger, m.name, id).Some?
    case TakeTitle(home, _, id, _) => !Takes(w, home, id, now)
    case GiveTitle(m, id, _) => id in w.store.apps ==> TitleDone(w, m, id) && !IsFolderKey(id)
    case _ => true
  }

  lemma SecondTitles(w1: World, w2: World, a: Action, now: int, later: int, members: seq<Member>, homes: set<string>,
                     owner: map<string, string>)
    requires TitlesReached(w1, now, homes) && TitlesGiven(w1, w2, members) && SameQuiet(w1, now, later)
    requires (forall m, id :: m in members && id in w2.store.apps ==> TitleDone(w2, m, id)) && SoundTitles(w2, owner)
    requires Among([a], members, homes) && (a.SeePresent? ==> There(w2, a))
    ensures TitleQuiet(w2, a, later)
  {
    assert a in [a];
    match a
    case SeePresent(m, id) => assert TitlesMarked(w2, m);
    case TakeTitle(home, _, id, _) =>
      if Eligible(w2, home, id, later) {
        assert TitleKept(w1, w2, home, id);
        if !(Whole(w1.store, id) && w2.at[home].apps[id].build == w1.store.apps[id].build) {
          assert Eligible(w1, home, id, now);
          assert NotBehind(w1, home, id);
        }
      }
    case _ =>
  }

  /** The same titles everywhere, with the same marks. */
  ghost predicate SameTitles(w: World, v: World)
  {
    && v.store.apps == w.store.apps && v.store.common == w.store.common
    && v.ledger.withheld == w.ledger.withheld && v.quiet == w.quiet && v.at.Keys == w.at.Keys
    && (forall home :: home in w.at ==> v.at[home].apps == w.at[home].apps && v.at[home].common == w.at[home].common)
    && (forall seat, key :: !IsFolderKey(key) ==> StatusOf(v.ledger, seat, key) == StatusOf(w.ledger, seat, key))
  }

  /** Everything that moved is a folder. */
  ghost predicate OnlyFolders(r: Report)
  {
    && (forall move :: move in r.harvested ==> IsFolderKey(move.app))
    && (forall move :: move in r.delivered ==> IsFolderKey(move.app))
    && (forall move :: move in r.declined ==> IsFolderKey(move.app))
  }

  lemma TitlesStay(w: World, u: World, a: Action, now: int)
    requires SameTitles(w, u) && TitleQuiet(w, a, now) && TitleIds(w) && (a.SeePresent? ==> There(w, a))
    ensures SameTitles(w, Apply(u, a, now)) && OnlyFolders(Says(u, a, now))
  {
    match a
    case SeePresent(m, id) => MarkAgain(u.ledger, m.name, id);
    case TakeTitle(_, _, _, _) =>
    case GiveTitle(m, id, _) =>
      if id in w.store.apps {
        assert DecideTitle(u, m, id) == DecideTitle(w, m, id);
      }
    case TakeFolder(_, _, _) => FolderRoundStays(w, u, a, now);
    case GiveFolder(_, _, _) => FolderRoundStays(w, u, a, now);
  }

  lemma FolderRoundStays(w: World, u: World, a: Action, now: int)
    requires SameTitles(w, u) && (a.TakeFolder? || a.GiveFolder?)
    ensures SameTitles(w, Apply(u, a, now)) && OnlyFolders(Says(u, a, now))
  {
    var v := Apply(u, a, now);
    FolderRoundReads(u, a, now);
    FolderRoundSays(u, a, now);
    FolderRoundMarks(u, a, now);
    forall home
      ensures home in v.at <==> home in u.at
      ensures home in u.at ==> v.at[home].apps == u.at[home].apps && v.at[home].common == u.at[home].common
    {
      FolderRoundHomes(u, a, now, home);
    }
  }

  lemma FolderRoundReads(u: World, a: Action, now: int)
    requires a.TakeFolder? || a.GiveFolder?
    ensures var v := Apply(u, a, now);
      && v.store.apps == u.store.apps && v.store.common == u.store.common
      && v.ledger.withheld == u.ledger.withheld && v.quiet == u.quiet
  {
  }

  lemma FolderRoundHomes(u: World, a: Action, now: int, home: string)
    requires a.TakeFolder? || a.GiveFolder?
    ensures var v := Apply(u, a, now);
      && (home in v.at <==> home in u.at)
      && (home in u.at ==> v.at[home].apps == u.at[home].apps && v.at[home].common == u.at[home].common)
  {
  }

  lemma FolderRoundSays(u: World, a: Action, now: int)
    requires a.TakeFolder? || a.GiveFolder?
    ensures OnlyFolders(Says(u, a, now))
  {
    FolderKeys(a.name, a.name);
  }

  lemma FolderRoundMarks(u: World, a: Action, now: int)
    requires a.TakeFolder? || a.GiveFolder?
    ensures forall seat, key :: !IsFolderKey(key) ==>
      StatusOf(Apply(u, a, now).ledger, seat, key) == StatusOf(u.ledger, seat, key)
  {
    FolderKeys(a.name, a.name);
    forall seat, key | !IsFolderKey(key)
      ensures StatusOf(Apply(u, a, now).ledger, seat, key) == StatusOf(u.ledger, seat, key)
    {
      MarkOther(u.ledger, a.m.name, FolderKey(a.name), Delivered, seat, key);
      MarkOther(u.ledger, a.m.name, FolderKey(a.name), Declined, seat, key);
    }
  }

  lemma {:induction false} TitlesStayRun(w: World, u: World, acts: seq<Action>, now: int)
    requires SameTitles(w, u) && TitleIds(w)
    requires forall a :: a in acts ==> TitleQuiet(w, a, now) && (a.SeePresent? ==> There(w, a))
    ensures SameTitles(w, Run(u, acts, now)) && OnlyFolders(RunSays(u, acts, now))
    decreases |acts|
  {
    if acts != [] {
      assert acts[0] in acts;
      assert forall b :: b in acts[1..] ==> b in acts;
      TitlesStay(w, u, acts[0], now);
      TitlesStayRun(w, Apply(u, acts[0], now), acts[1..], now);
    }
  }

  /** A second pass over unchanged libraries and verdicts moves no title and leaves every
      title and its marks as they were, however far it gets, whatever fails in it and
      whatever becomes of the folders. */
  lemma TitlesAreFixpoint(w: World, harvest: seq<Action>, gives: seq<Action>, now: int,
                          again: seq<Action>, later: int,
                          members: seq<Member>, homes: set<string>, owner: map<string, string>)
    requires SoundTitles(w, owner) && Distinct(members) && WholePass(w, harvest, gives, now, members, homes)
    requires SameQuiet(w, now, later) && Among(again, members, homes)
    requires var w2 := Run(Run(w, harvest, now), gives, now); forall a :: a in again && a.SeePresent? ==> There(w2, a)
    ensures var w2 := Run(Run(w, harvest, now), gives, now);
      SameTitles(w2, Run(w2, again, later)) && OnlyFolders(RunSays(w2, again, later))
  {
    var w1 := Run(w, harvest, now);
    var w2 := Run(w1, gives, now);
    TitlesPass(w, harvest, gives, now, members, homes, owner);
    forall a | a in again
      ensures TitleQuiet(w2, a, later)
    {
      SecondTitles(w1, w2, a, now, later, members, homes, owner);
    }
    TitlesStayRun(w2, w2, again, later);
  }
}
