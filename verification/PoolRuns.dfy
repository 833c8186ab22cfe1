/** Whole runs: passes and added sources, with the members changing their libraries in
    between as they like. */
module PoolRuns {
  import opened Titles
  import opened PoolModel
  import opened PoolSteps
  import opened PoolSafety
  import opened PoolForward
  import opened PoolFolders

  // ------------------------------------------------------------ whatever fails

  /** Every step of the run leaves a title held whole at its build, or replaces it by a
      strictly later one, or is its removal. */
  ghost predicate RunOnlyForward(w: World, steps: seq<Step>, id: string)
    decreases |steps|
  {
    steps != [] ==>
      var s, v := steps[0], After(w, steps[0]);
      && (match s
          case Pass(acts, now) => OnlyForward(w, acts, now, id)
          case _ => id in w.store.apps ==>
            RemovesTitle(s, id) || (id in v.store.apps && v.store.apps[id] == w.store.apps[id]))
      && RunOnlyForward(v, steps[1..], id)
  }

  predicate RemovesTitle(s: Step, key: string)
  {
    (s.UninstallStep? || s.RemoveStep?) && s.key == key
  }

  lemma {:induction false} RunsOnlyForward(w: World, steps: seq<Step>, id: string)
    ensures RunOnlyForward(w, steps, id)
    decreases |steps|
  {
    if steps != [] {
      match steps[0] {
        case Pass(acts, now) => PassOnlyForward(w, acts, now, id);
        case UninstallStep(key, members, d) => UninstallOfOther(w, key, members, d);
        case _ =>
      }
      RunsOnlyForward(After(w, steps[0]), steps[1..], id);
    }
  }

  /** The pool's other titles are filed, and its other folders recorded, as they were. */
  ghost predicate OthersStay(w: World, v: World, key: string)
  {
    && (forall id :: id in w.store.apps && id != key ==> id in v.store.apps && v.store.apps[id] == w.store.apps[id])
    && (forall name :: name in w.ledger.folders && key != FolderKey(name) ==> name in v.ledger.folders)
    && (forall name :: name in v.ledger.folders ==>
        name in w.ledger.folders && v.ledger.folders[name] == w.ledger.folders[name])
  }

  lemma RemoveOfOther(w: World, key: string, d: Drops)
    ensures OthersStay(w, RemoveFromPool(w, key, d).0, key)
  {
    assert IsFolderKey(key) ==> FolderKey(FolderOf(key)) == key;
  }

  lemma UninstallOfOther(w: World, key: string, members: seq<Member>, d: Drops)
    ensures OthersStay(w, Uninstall(w, key, members, d).0, key)
  {
    var holders := Holders(w, key, members);
    if !Refuses(w, key, members) && NotUpdatable(holders) == [] {
      DropAllKeeps(w, key, holders, d);
      var dropped := DropAll(w, key, holders, d).0;
      RemoveOfOther(dropped, key, d);
      TakenAway(w, key, holders, d);
    }
  }

  lemma TakenAway(w: World, key: string, holders: seq<Member>, d: Drops)
    requires forall m :: m in holders ==> m.home in w.at
    requires !IsFolderKey(key) ==> forall m :: m in holders ==> m.home in w.at && key in w.at[m.home].apps
    ensures var (v, dropped) := (TakeAway(w, key, holders, d).0, DropAll(w, key, holders, d).0);
      || (v.store == dropped.store && v.ledger.folders == dropped.ledger.folders)
      || (v.store == RemoveFromPool(dropped, key, d).0.store
          && v.ledger.folders == RemoveFromPool(dropped, key, d).0.ledger.folders)
  {
  }

  ghost predicate RunFalls(w: World, steps: seq<Step>, name: string)
    decreases |steps|
  {
    && steps != []
    && (Fell(w, After(w, steps[0]), name)
        || (steps[0].Pass? && EverFalls(w, steps[0].acts, steps[0].now, name))
        || RunFalls(After(w, steps[0]), steps[1..], name))
  }

  ghost predicate RunStoresLower(w: World, steps: seq<Step>, name: string)
    decreases |steps|
  {
    && steps != []
    && ((steps[0].Pass? && EverStoresLower(w, steps[0].acts, steps[0].now, name))
        || RunStoresLower(After(w, steps[0]), steps[1..], name))
  }

  ghost predicate RunStoresOlder(w: World, steps: seq<Step>, name: string)
    decreases |steps|
  {
    && steps != []
    && ((steps[0].Pass? && EverStoresOlder(w, steps[0].acts, steps[0].now, name))
        || RunStoresOlder(After(w, steps[0]), steps[1..], name))
  }

  lemma StepFalls(w: World, s: Step, name: string)
    requires s.Pass? ==> PlausibleRun(w, s.acts, s.now)
    ensures s.Pass? ==> (EverFalls(w, s.acts, s.now, name) <==> EverStoresLower(w, s.acts, s.now, name))
    ensures Fell(w, After(w, s), name) ==> s.Pass? && EverStoresLower(w, s.acts, s.now, name)
    ensures name in w.ledger.folders && !RemovesTitle(s, FolderKey(name)) ==> name in After(w, s).ledger.folders
  {
    match s
    case Pass(acts, now) => RecordsFallIff(w, acts, now, name);
    case UninstallStep(key, members, d) => UninstallOfOther(w, key, members, d);
    case RemoveStep(key, d) => RemoveOfOther(w, key, d);
    case _ =>
  }

  /** Over any run, whatever clones fail in it and whatever the members do to their copies:
      the record of a folder falls at some point exactly when some step stores a copy that
      measures older than it.  Without that, and as long as it is not removed, the record at
      the end is not behind the one at the start. */
  lemma {:induction false} RecordFallsInARunIff(w: World, steps: seq<Step>, name: string)
    requires AllPlausible(w, steps)
    ensures RunFalls(w, steps, name) <==> RunStoresLower(w, steps, name)
    ensures
      name in w.ledger.folders && !RunStoresLower(w, steps, name)
        && (forall s :: s in steps ==> !RemovesTitle(s, FolderKey(name)))
      ==> name in AfterAll(w, steps).ledger.folders && !Fell(w, AfterAll(w, steps), name)
    decreases |steps|
  {
    if steps != [] {
      var v := After(w, steps[0]);
      assert steps[0] in steps && forall s :: s in steps[1..] ==> s in steps;
      StepFalls(w, steps[0], name);
      RecordFallsInARunIff(v, steps[1..], name);
      var u := AfterAll(v, steps[1..]);
      if name in w.ledger.folders && name in v.ledger.folders && name in u.ledger.folders && !Fell(w, v, name)
        && !Fell(v, u, name) {
        NeverFallsTwice(w.ledger.folders[name], v.ledger.folders[name], u.ledger.folders[name]);
      }
    } else if name in w.ledger.folders {
      NewerTwice(w.ledger.folders[name], w.ledger.folders[name], w.ledger.folders[name]);
    }
  }

  /** In the passes of the run every copy of the folder measures as what it is made of. */
  ghost predicate RunMeasures(w: World, steps: seq<Step>, name: string)
    decreases |steps|
  {
    steps != [] ==>
      && (steps[0].Pass? ==> MeasuresOf(w, steps[0].acts, steps[0].now, name))
      && RunMeasures(After(w, steps[0]), steps[1..], name)
  }

  /** Then those steps are the ones that store an older copy of what the pool has lost. */
  lemma {:induction false} RunLowerIsOlder(w: World, steps: seq<Step>, name: string)
    requires RunMeasures(w, steps, name)
    ensures RunStoresLower(w, steps, name) <==> RunStoresOlder(w, steps, name)
    decreases |steps|
  {
    if steps != [] {
      if steps[0].Pass? {
        EverLowerIsOlder(w, steps[0].acts, steps[0].now, name);
      }
      RunLowerIsOlder(After(w, steps[0]), steps[1..], name);
    }
  }

  // --------------------------------------------------- when no loop is stopped

  /** A step that takes no title out of the pool: a pass no loop of which stopped, a change of
      sources or marks, or what the members do themselves, as long as what they then have is
      filed and named as Steam does. */
  ghost predicate KeepsTitles(w: World, s: Step)
  {
    match s
    case Pass(acts, now) => SmoothRun(w, acts, now)
    case OutsideStep(at) => Tidy(w.(at := at))
    case UninstallStep(_, _, _) => false
    case RemoveStep(_, _) => false
    case _ => true
  }

  ghost predicate AllKeepTitles(w: World, steps: seq<Step>)
    decreases |steps|
  {
    steps != [] ==> KeepsTitles(w, steps[0]) && AllKeepTitles(After(w, steps[0]), steps[1..])
  }

  lemma {:induction false} TidyRun(w: World, acts: seq<Action>, now: int)
    requires Tidy(w)
    ensures Tidy(Run(w, acts, now))
    decreases |acts|
  {
    if acts != [] {
      TidyAct(w, acts[0], now);
      TidyRun(Apply(w, acts[0], now), acts[1..], now);
    }
  }

  /** Over any such run a title the pool holds whole stays whole, at the same build or a
      later one. */
  lemma {:induction false} BuildNeverFallsInARun(w: World, steps: seq<Step>, id: string)
    requires Tidy(w) && AllKeepTitles(w, steps) && Whole(w.store, id)
    ensures var v := AfterAll(w, steps);
      Whole(v.store, id)
        && (v.store.apps[id] == w.store.apps[id] || NewerBuild(v.store.apps[id].build, w.store.apps[id].build))
    decreases |steps|
  {
    if steps != [] {
      var s := steps[0];
      if s.Pass? {
        TidyRun(w, s.acts, s.now);
        BuildNeverFalls(w, s.acts, s.now, id);
      }
      BuildNeverFallsInARun(After(w, s), steps[1..], id);
    }
  }

  /** A step that takes no folder out of the pool: the members may do what they like. */
  ghost predicate KeepsFolder(w: World, s: Step, name: string)
  {
    match s
    case Pass(acts, now) => SmoothRun(w, acts, now) && MeasuresOf(w, acts, now, name)
    case UninstallStep(key, _, _) => !IsFolderKey(key)
    case RemoveStep(key, _) => !IsFolderKey(key)
    case _ => true
  }

  ghost predicate AllKeepFolder(w: World, steps: seq<Step>, name: string)
    decreases |steps|
  {
    steps != [] ==> KeepsFolder(w, steps[0], name) && AllKeepFolder(After(w, steps[0]), steps[1..], name)
  }

  lemma TitleRemoved(w: World, key: string, members: seq<Member>, d: Drops)
    requires !IsFolderKey(key)
    ensures var v := Uninstall(w, key, members, d).0;
      v.store.shared == w.store.shared && v.ledger.folders == w.ledger.folders
  {
    var holders := Holders(w, key, members);
    if !Refuses(w, key, members) && NotUpdatable(holders) == [] {
      DropAllKeeps(w, key, holders, d);
      TakenAway(w, key, holders, d);
    }
  }

  lemma FolderStep(w: World, s: Step, name: string)
    requires KeepsFolder(w, s, name) && Ordinary(name)
    requires name in w.ledger.folders && HasDir(w.store.shared, name)
    ensures var v := After(w, s);
      && name in v.ledger.folders && HasDir(v.store.shared, name) && !Fell(w, v, name)
      && (RecordedOf(w, name) ==> RecordedOf(v, name))
  {
    NewerTwice(w.ledger.folders[name], w.ledger.folders[name], w.ledger.folders[name]);
    match s
    case Pass(acts, now) =>
      RecordNeverFalls(w, acts, now, name);
      if RecordedOf(w, name) {
        RecordedRun(w, acts, now, name);
      }
    case UninstallStep(key, members, d) => TitleRemoved(w, key, members, d);
    case _ =>
  }

  /** Over any such run the pool keeps the folder, its recorded time and size do not fall,
      and they always say what the pool's copy measures. */
  lemma {:induction false} RecordNeverFallsInARun(w: World, steps: seq<Step>, name: string)
    requires AllKeepFolder(w, steps, name) && Ordinary(name) && RecordedOf(w, name)
    requires name in w.ledger.folders && HasDir(w.store.shared, name)
    ensures var v := AfterAll(w, steps);
      && name in v.ledger.folders && HasDir(v.store.shared, name) && !Fell(w, v, name)
      && v.ledger.folders[name] == VersionAt(v.store.shared, name)
    decreases |steps|
  {
    if steps == [] {
      NewerTwice(w.ledger.folders[name], w.ledger.folders[name], w.ledger.folders[name]);
    } else {
      var v := After(w, steps[0]);
      FolderStep(w, steps[0], name);
      RecordNeverFallsInARun(v, steps[1..], name);
      NeverFallsTwice(w.ledger.folders[name], v.ledger.folders[name], AfterAll(v, steps[1..]).ledger.folders[name]);
    }
  }
}
