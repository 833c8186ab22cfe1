/** The pool only goes forward: a whole title is only replaced by a later build, a folder's
    recorded version never falls, and after a harvest the pool holds of each title the
    latest build any library had to give, in whatever order they were read. */
module PoolForward {
  import opened Titles
  import opened PoolModel
  import opened PoolSteps
  import opened PoolSafety

  // ------------------------------------------------------------------- builds

  predicate SameOrLater(a: App, b: App)
  {
    a == b || NewerBuild(a.build, b.build)
  }

  /** Whatever fails, at every single step a title the pool holds whole is left as it is or
      replaced by a strictly later build. */
  ghost predicate OnlyForward(w: World, acts: seq<Action>, now: int, id: string)
    decreases |acts|
  {
    acts != [] ==>
      var v := Apply(w, acts[0], now);
      && (Whole(w.store, id) ==> id in v.store.apps && SameOrLater(v.store.apps[id], w.store.apps[id]))
      && OnlyForward(v, acts[1..], now, id)
  }

  lemma {:induction false} PassOnlyForward(w: World, acts: seq<Action>, now: int, id: string)
    ensures OnlyForward(w, acts, now, id)
    decreases |acts|
  {
    if acts != [] {
      PassOnlyForward(Apply(w, acts[0], now), acts[1..], now, id);
    }
  }

  /** A step that puts an older build over a title whose files the pool has lost. */
  predicate StoresOlderBuild(w: World, a: Action, now: int, id: string)
  {
    && a.TakeTitle? && a.id == id && Eligible(w, a.home, id, now) && a.o.ok && a.o.after
    && id in w.store.apps && !HasDir(w.store.common, w.store.apps[id].dir)
    && NewerBuild(w.store.apps[id].build, w.at[a.home].apps[id].build)
  }

  /** Whatever fails, the pool's build of a title falls at just such a step. */
  lemma BuildFallsIff(w: World, a: Action, now: int, id: string)
    requires id in w.store.apps
    ensures var v := Apply(w, a, now);
      id in v.store.apps
        && (NewerBuild(w.store.apps[id].build, v.store.apps[id].build) <==> StoresOlderBuild(w, a, now, id))
  {
  }

  /** No title names a directory like a copy moved aside, and every manifest is filed under its id. */
  ghost predicate Tidy(w: World)
  {
    && AllFiled(w)
    && (forall id :: id in w.store.apps ==> NotAside(w.store.apps[id].dir))
    && (forall home, id :: home in w.at && id in w.at[home].apps ==> NotAside(w.at[home].apps[id].dir))
  }

  lemma TidyKeeps(w: World, v: World, now: int)
    requires Tidy(w) && AppsFrom(w, v, now)
    ensures Tidy(v)
  {
    FiledKeeps(w, v, now);
    forall id | id in v.store.apps
      ensures NotAside(v.store.apps[id].dir)
    {
      var home := FromStore(w, v, now, id);
    }
    forall home, id | home in v.at && id in v.at[home].apps
      ensures NotAside(v.at[home].apps[id].dir)
    {
      FromLibrary(w, v, now, home, id);
    }
  }

  lemma TidyAct(w: World, a: Action, now: int)
    requires Tidy(w)
    ensures Tidy(Apply(w, a, now))
  {
    ActAppsFrom(w, a, now);
    TidyKeeps(w, Apply(w, a, now), now);
  }

  /** A round that goes well: a whole title stays whole and goes only forward. */
  lemma WholeAct(w: World, a: Action, now: int, id: string)
    requires Tidy(w) && Smooth(w, a, now) && Whole(w.store, id)
    ensures var v := Apply(w, a, now);
      Whole(v.store, id)
        && (v.store.apps[id] == w.store.apps[id] || NewerBuild(v.store.apps[id].build, w.store.apps[id].build))
  {
    if a.TakeTitle? && Takes(w, a.home, a.id, now) {
      AsideIsOther(w.store.apps[id].dir, w.at[a.home].apps[a.id].dir);
    }
  }

  /** Over any pass without a stopped loop a whole title stays whole, at the same build or
      a later one. */
  lemma {:induction false} BuildNeverFalls(w: World, acts: seq<Action>, now: int, id: string)
    requires Tidy(w) && SmoothRun(w, acts, now) && Whole(w.store, id)
    ensures var v := Run(w, acts, now);
      Whole(v.store, id)
        && (v.store.apps[id] == w.store.apps[id] || NewerBuild(v.store.apps[id].build, w.store.apps[id].build))
    decreases |acts|
  {
    if acts != [] {
      TidyAct(w, acts[0], now);
      WholeAct(w, acts[0], now, id);
      BuildNeverFalls(Apply(w, acts[0], now), acts[1..], now, id);
    }
  }

  // ------------------------------------------------------------------ maximum

  /** The first half of a pass: libraries are only read. */
  ghost predicate OnlyHarvest(acts: seq<Action>)
  {
    forall a :: a in acts ==> !a.GiveTitle? && !a.GiveFolder?
  }

  /** The pool holds the title whole and is not behind this library. */
  ghost predicate NotBehind(w: World, home: string, id: string)
  {
    && home in w.at && id in w.at[home].apps
    && Whole(w.store, id) && !NewerBuild(w.at[home].apps[id].build, w.store.apps[id].build)
  }

  lemma TakenIsNotBehind(w: World, a: Action, now: int, home: string, id: string)
    requires Tidy(w) && Smooth(w, a, now) && Eligible(w, home, id, now)
    requires a.TakeTitle? && a.home == home && a.id == id
    ensures NotBehind(Apply(w, a, now), home, id)
  {
  }

  lemma NotBehindStays(w: World, a: Action, now: int, home: string, id: string)
    requires Tidy(w) && Smooth(w, a, now) && NotBehind(w, home, id) && !a.GiveTitle? && !a.GiveFolder?
    ensures NotBehind(Apply(w, a, now), home, id)
  {
    WholeAct(w, a, now, id);
  }

  lemma EligibleStays(w: World, a: Action, now: int, home: string, id: string)
    requires !a.GiveTitle? && !a.GiveFolder?
    ensures Eligible(Apply(w, a, now), home, id, now) <==> Eligible(w, home, id, now)
    ensures Apply(w, a, now).at == w.at
  {
  }

  lemma {:induction false} HarvestReaches(w: World, acts: seq<Action>, now: int, home: string, id: string)
    requires Tidy(w) && OnlyHarvest(acts) && SmoothRun(w, acts, now)
    requires NotBehind(w, home, id)
      || (Eligible(w, home, id, now) && exists from, o :: TakeTitle(home, from, id, o) in acts)
    ensures NotBehind(Run(w, acts, now), home, id)
    decreases |acts|
  {
    if acts != [] {
      var a := acts[0];
      assert a in acts && acts == [a] + acts[1..];
      TidyAct(w, a, now);
      if NotBehind(w, home, id) {
        NotBehindStays(w, a, now, home, id);
      } else if a.TakeTitle? && a.home == home && a.id == id {
        TakenIsNotBehind(w, a, now, home, id);
      } else {
        EligibleStays(w, a, now, home, id);
      }
      assert forall b :: b in acts[1..] ==> b in acts;
      HarvestReaches(Apply(w, a, now), acts[1..], now, home, id);
    }
  }

  /** The libraries read by a harvest. */
  ghost predicate ReadsOnly(acts: seq<Action>, homes: set<string>)
  {
    OnlyHarvest(acts) && forall a :: a in acts && a.TakeTitle? ==> a.home in homes
  }

  /** Some library of those had exactly this build to give. */
  ghost predicate Given(w: World, homes: set<string>, id: string, build: string, now: int)
  {
    exists home :: home in homes && Eligible(w, home, id, now) && w.at[home].apps[id].build == build
  }

  lemma {:induction false} HarvestGives(w: World, acts: seq<Action>, now: int, homes: set<string>, id: string)
    requires ReadsOnly(acts, homes)
    ensures var v := Run(w, acts, now);
      if id in v.store.apps then
        (id in w.store.apps && v.store.apps[id] == w.store.apps[id]) || Given(w, homes, id, v.store.apps[id].build, now)
      else id !in w.store.apps
    decreases |acts|
  {
    if acts != [] {
      var a := acts[0];
      assert a in acts && acts == [a] + acts[1..];
      GivenStays(w, a, now, homes, id);
      assert forall b :: b in acts[1..] ==> b in acts;
      HarvestGives(Apply(w, a, now), acts[1..], now, homes, id);
    }
  }

  lemma GivenStays(w: World, a: Action, now: int, homes: set<string>, id: string)
    requires !a.GiveTitle? && !a.GiveFolder?
    ensures Apply(w, a, now).at == w.at
    ensures forall build :: Given(Apply(w, a, now), homes, id, build, now) <==> Given(w, homes, id, build, now)
  {
    var v := Apply(w, a, now);
    EligibleStays(w, a, now, "", id);
    forall home
      ensures Eligible(v, home, id, now) <==> Eligible(w, home, id, now)
    {
      EligibleStays(w, a, now, home, id);
    }
  }

  /** No two titles name one directory: `owner` says whose each is. */
  ghost predicate DirsOwned(w: World, owner: map<string, string>)
  {
    && (forall id :: id in w.store.apps ==> w.store.apps[id].dir in owner && owner[w.store.apps[id].dir] == id)
    && (forall home, id :: home in w.at && id in w.at[home].apps ==>
          w.at[home].apps[id].dir in owner && owner[w.at[home].apps[id].dir] == id)
  }

  /** A title without files gets them only by being taken. */
  lemma {:induction false} NotWholeUntilTaken(w: World, acts: seq<Action>, now: int, homes: set<string>, id: string,
                                              owner: map<string, string>)
    requires Tidy(w) && DirsOwned(w, owner) && ReadsOnly(acts, homes) && SmoothRun(w, acts, now)
    requires id in w.store.apps && !Whole(w.store, id)
    ensures var v := Run(w, acts, now);
      id in v.store.apps && (Whole(v.store, id) ==> Given(w, homes, id, v.store.apps[id].build, now))
    decreases |acts|
  {
    if acts != [] {
      var a := acts[0];
      assert a in acts && acts == [a] + acts[1..];
      var v := Apply(w, a, now);
      TidyAct(w, a, now);
      GivenStays(w, a, now, homes, id);
      assert forall b :: b in acts[1..] ==> b in acts;
      if a.TakeTitle? && a.id == id && Takes(w, a.home, id, now) {
        HarvestGives(v, acts[1..], now, homes, id);
        assert Given(w, homes, id, v.store.apps[id].build, now);
      } else {
        OtherTaken(w, a, now, id, owner);
        NotWholeUntilTaken(v, acts[1..], now, homes, id, owner);
      }
    }
  }

  /** Taking another title brings this one no files. */
  lemma OtherTaken(w: World, a: Action, now: int, id: string, owner: map<string, string>)
    requires Tidy(w) && DirsOwned(w, owner) && !a.GiveTitle? && !a.GiveFolder? && Smooth(w, a, now)
    requires id in w.store.apps && !Whole(w.store, id) && !(a.TakeTitle? && a.id == id && Takes(w, a.home, id, now))
    ensures var v := Apply(w, a, now);
      id in v.store.apps && v.store.apps[id] == w.store.apps[id] && !Whole(v.store, id) && DirsOwned(v, owner)
  {
    ActAppsFrom(w, a, now);
    OwnedKeeps(w, Apply(w, a, now), now, owner);
    if a.TakeTitle? && Takes(w, a.home, a.id, now) {
      AsideIsOther(w.store.apps[id].dir, w.at[a.home].apps[a.id].dir);
    }
  }

  lemma OwnedKeeps(w: World, v: World, now: int, owner: map<string, string>)
    requires DirsOwned(w, owner) && AppsFrom(w, v, now)
    ensures DirsOwned(v, owner)
  {
    forall id | id in v.store.apps
      ensures v.store.apps[id].dir in owner && owner[v.store.apps[id].dir] == id
    {
      var home := FromStore(w, v, now, id);
    }
    forall home, id | home in v.at && id in v.at[home].apps
      ensures v.at[home].apps[id].dir in owner && owner[v.at[home].apps[id].dir] == id
    {
      FromLibrary(w, v, now, home, id);
    }
  }

  /** The libraries read by a harvest: every title of every one of them has its round. */
  ghost predicate HarvestsAll(w: World, acts: seq<Action>, homes: set<string>)
  {
    && ReadsOnly(acts, homes)
    && forall home, id :: home in homes && home in w.at && id in w.at[home].apps ==>
         exists from, o :: TakeTitle(home, from, id, o) in acts
  }

  /** After a harvest no loop of which stopped the pool's build of a title somebody had to
      give is the latest of what it held whole and what the libraries it read had, whatever
      the order. */
  lemma HarvestIsMaximum(w: World, acts: seq<Action>, now: int, homes: set<string>, owner: map<string, string>,
                         home: string, id: string)
    requires Tidy(w) && DirsOwned(w, owner) && HarvestsAll(w, acts, homes) && SmoothRun(w, acts, now)
    requires home in homes && Eligible(w, home, id, now)
    ensures var v := Run(w, acts, now);
      && Whole(v.store, id)
      && (forall other :: other in homes && Eligible(w, other, id, now) ==>
            !NewerBuild(w.at[other].apps[id].build, v.store.apps[id].build))
      && (Whole(w.store, id) ==> !NewerBuild(w.store.apps[id].build, v.store.apps[id].build))
      && (Given(w, homes, id, v.store.apps[id].build, now)
          || (Whole(w.store, id) && v.store.apps[id] == w.store.apps[id]))
  {
    var v := Run(w, acts, now);
    forall other | other in homes && Eligible(w, other, id, now)
      ensures NotBehind(v, other, id)
    {
      HarvestReaches(w, acts, now, other, id);
    }
    HarvestReads(w, acts, now);
    HarvestGives(w, acts, now, homes, id);
    if Whole(w.store, id) {
      BuildNeverFalls(w, acts, now, id);
    } else if id in w.store.apps {
      NotWholeUntilTaken(w, acts, now, homes, id, owner);
    }
  }

  /** The build is this number of 64 bits. */
  ghost predicate IsBuild(build: string, n: int)
  {
    Denotes(build, n) && -0x8000_0000_0000_0000 <= n <= 0x7fff_ffff_ffff_ffff
  }

  lemma NotNewer(a: string, b: string, n: int, m: int)
    requires IsBuild(a, n) && IsBuild(b, m) && !NewerBuild(a, b)
    ensures n <= m
  {
    NewerBuildIff(a, b);
  }

  /** As numbers: the build of a title that the pool has after such a harvest is at least the
      build of every copy there was to take and of what it held whole; and it is a number
      when all of those were. */
  lemma HarvestIsLatest(w: World, acts: seq<Action>, now: int, homes: set<string>, owner: map<string, string>,
                        home: string, id: string)
    requires Tidy(w) && DirsOwned(w, owner) && HarvestsAll(w, acts, homes) && SmoothRun(w, acts, now)
    requires home in homes && Eligible(w, home, id, now)
    ensures var v := Run(w, acts, now);
      && Whole(v.store, id)
      && (forall n :: IsBuild(v.store.apps[id].build, n) ==> AtLeast(w, homes, id, n, now))
      && (AllNumbers(w, homes, id, now) ==> exists n :: IsBuild(v.store.apps[id].build, n))
  {
    var v := Run(w, acts, now);
    HarvestIsMaximum(w, acts, now, homes, owner, home, id);
    forall n | IsBuild(v.store.apps[id].build, n)
      ensures AtLeast(w, homes, id, n, now)
    {
      forall other, m | other in homes && Eligible(w, other, id, now) && IsBuild(w.at[other].apps[id].build, m)
        ensures n >= m
      {
        NotNewer(w.at[other].apps[id].build, v.store.apps[id].build, m, n);
      }
      forall m | Whole(w.store, id) && IsBuild(w.store.apps[id].build, m)
        ensures n >= m
      {
        NotNewer(w.store.apps[id].build, v.store.apps[id].build, m, n);
      }
    }
  }

  /** Every build there is of the title, in the pool whole or to be taken, is a number. */
  ghost predicate AllNumbers(w: World, homes: set<string>, id: string, now: int)
  {
    && (forall other :: other in homes && Eligible(w, other, id, now) ==>
          exists n :: IsBuild(w.at[other].apps[id].build, n))
    && (Whole(w.store, id) ==> exists n :: IsBuild(w.store.apps[id].build, n))
  }

  /** None of those that are is greater. */
  ghost predicate AtLeast(w: World, homes: set<string>, id: string, n: int, now: int)
  {
    && (forall other, m :: other in homes && Eligible(w, other, id, now) && IsBuild(w.at[other].apps[id].build, m) ==>
          n >= m)
    && (forall m :: Whole(w.store, id) && IsBuild(w.store.apps[id].build, m) ==> n >= m)
  }
}
