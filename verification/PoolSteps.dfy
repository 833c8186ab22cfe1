/** Everything that can happen to the shared library between two looks at it, and what no
    run of it ever does: a withheld title does not come back, a declined one is not given
    again, a whole title only goes forward (internal/library/pool.go). */
module PoolSteps {
  import opened Wrappers
  import opened FileTree
  import opened Titles
  import opened PoolModel

  // ---------------------------------------------------------------- uninstall

  predicate IsFolderKey(key: string)
  {
    FOLDER_PREFIX <= key
  }

  function FolderOf(key: string): string
    requires IsFolderKey(key)
  {
    key[|FOLDER_PREFIX|..]
  }

  /** How the removal went where it can fail: the libraries it got stuck in, and the pool. */
  datatype Drops = Drops(stuck: map<string, Library>, pool: Option<map<string, Node>>)

  datatype Answer = Refused | Busy(names: seq<string>) | Stuck | Done(gone: seq<string>)

  predicate Holds(w: World, m: Member, key: string)
  {
    m.home in w.at &&
    if IsFolderKey(key) then HasDir(Dirs(w.at[m.home].shared), FolderOf(key)) else key in w.at[m.home].apps
  }

  predicate Joined(members: seq<Member>, source: string)
  {
    exists m :: m in members && m.external && m.home == source
  }

  /** A watched library the pool only reads from has the title. */
  predicate HeldBySource(w: World, key: string, members: seq<Member>)
  {
    && !IsFolderKey(key)
    && exists source ::
         source in w.ledger.sources && !Joined(members, source) && source in w.at && key in w.at[source].apps
  }

  /** A member's library cannot be looked at, or its copy names no usable directory. */
  predicate Unusable(w: World, m: Member, key: string)
  {
    m.home !in w.at || (!IsFolderKey(key) && key in w.at[m.home].apps && !SafeName(w.at[m.home].apps[key].dir))
  }

  predicate Refuses(w: World, key: string, members: seq<Member>)
  {
    || !SafeName(if IsFolderKey(key) then FolderOf(key) else ManifestName(key))
    || HeldBySource(w, key, members)
    || exists m :: m in members && Unusable(w, m, key)
  }

  /** The members holding the title, and those of them that are using it. */
  function Holders(w: World, key: string, members: seq<Member>): (r: seq<Member>)
    ensures forall m :: m in r <==> m in members && Holds(w, m, key)
  {
    if members == [] then []
    else (if Holds(w, members[0], key) then [members[0]] else []) + Holders(w, key, members[1..])
  }

  function NotUpdatable(members: seq<Member>): seq<string>
  {
    if members == [] then []
    else (if !members[0].updatable then [members[0].name] else []) + NotUpdatable(members[1..])
  }

  /** dropApp and dropFolder. */
  function DropFrom(l: Library, key: string): Library
  {
    if IsFolderKey(key) then
      if l.shared.Some? then l.(shared := Some(l.shared.value - {FolderOf(key)})) else l
    else if key !in l.apps then l
    else Library(l.apps - {key}, if l.common.Some? then Some(l.common.value - {l.apps[key].dir}) else None, l.shared)
  }

  /** Taking the title from its holders, as far as that goes. */
  function DropAll(w: World, key: string, holders: seq<Member>, d: Drops): (World, bool)
    requires forall m :: m in holders ==> m.home in w.at
    decreases |holders|
  {
    if holders == [] then (w, true)
    else
      var home := holders[0].home;
      if home in d.stuck then (w.(at := w.at[home := d.stuck[home]]), false)
      else DropAll(w.(at := w.at[home := DropFrom(w.at[home], key)]), key, holders[1..], d)
  }

  /** removeLocked: the pool's copy, and whether it is gone. */
  function RemoveFromPool(w: World, key: string, d: Drops): (World, bool)
  {
    if IsFolderKey(key) then
      var name := FolderOf(key);
      if d.pool.Some? then (w.(store := w.store.(shared := d.pool.value)), false)
      else (w.(store := w.store.(shared := w.store.shared - {name}),
               ledger := w.ledger.(folders := w.ledger.folders - {name})), true)
    else if key !in w.store.apps then (w, true)
    else if !SafeName(w.store.apps[key].dir) then (w, false)
    else if d.pool.Some? then (w.(store := w.store.(common := d.pool.value)), false)
    else (w.(store := w.store.(apps := w.store.apps - {key}, common := w.store.common - {w.store.apps[key].dir})), true)
  }

  /** What a title is called: by the pool, or else by the last of its holders. */
  function TitleOf(w: World, key: string, holders: seq<Member>): string
    requires forall m :: m in holders ==> m.home in w.at && key in w.at[m.home].apps
  {
    if key in w.store.apps && w.store.apps[key].name != "" then w.store.apps[key].name
    else if holders != [] then w.at[holders[|holders| - 1].home].apps[key].name
    else key
  }

  function Unmark(l: Ledger, key: string): Ledger
  {
    l.(delivered := map seat | seat in l.delivered :: l.delivered[seat] - {key})
  }

  function Withhold(w: World, key: string, holders: seq<Member>, l: Ledger): Ledger
    requires !IsFolderKey(key) ==> forall m :: m in holders ==> m.home in w.at && key in w.at[m.home].apps
  {
    if IsFolderKey(key) || TitleOf(w, key, holders) == key || key in l.withheld then l
    else l.(withheld := l.withheld[key := TitleOf(w, key, holders)])
  }

  function Names(members: seq<Member>): seq<string>
  {
    seq(|members|, i requires 0 <= i < |members| => members[i].name)
  }

  /** The title is taken from its holders and then from the pool; the pool keeps its copy
      when a holder's could not be removed. */
  function TakeAway(w: World, key: string, holders: seq<Member>, d: Drops): (World, Answer)
    requires forall m :: m in holders ==> m.home in w.at
    requires !IsFolderKey(key) ==> forall m :: m in holders ==> m.home in w.at && key in w.at[m.home].apps
  {
    var (dropped, all) := DropAll(w, key, holders, d);
    if !all then (dropped, Stuck)
    else
      var (removed, gone) := RemoveFromPool(dropped, key, d);
      if !gone then (removed, Stuck)
      else (removed.(ledger := Withhold(w, key, holders, Unmark(removed.ledger, key))), Done(Names(holders)))
  }

  function Uninstall(w: World, key: string, members: seq<Member>, d: Drops): (World, Answer)
  {
    var holders := Holders(w, key, members);
    if Refuses(w, key, members) then (w, Refused)
    else if NotUpdatable(holders) != [] then (w, Busy(NotUpdatable(holders)))
    else TakeAway(w, key, holders, d)
  }

  // -------------------------------------------------------------------- steps

  datatype Step =
    | Pass(acts: seq<Action>, now: int)
    | UninstallStep(key: string, members: seq<Member>, d: Drops)
    | RemoveStep(key: string, d: Drops)
    | ReadmitStep(id: string)
    | OfferStep(seat: string, key: string)
    | ForgetStep(seat: string)
    | SourcesStep(sources: seq<string>, unwatched: seq<string>)
    | OutsideStep(at: map<string, Library>)

  function Offer(l: Ledger, seat: string, key: string): Ledger
  {
    if seat in l.delivered then l.(delivered := l.delivered[seat := l.delivered[seat] - {key}]) else l
  }

  ghost function After(w: World, s: Step): World
  {
    match s
    case Pass(acts, now) => Run(w, acts, now)
    case UninstallStep(key, members, d) => Uninstall(w, key, members, d).0
    case RemoveStep(key, d) => RemoveFromPool(w, key, d).0
    case ReadmitStep(id) => w.(ledger := w.ledger.(withheld := w.ledger.withheld - {id}))
    case OfferStep(seat, key) => w.(ledger := Offer(w.ledger, seat, key))
    case ForgetStep(seat) => w.(ledger := w.ledger.(delivered := w.ledger.delivered - {seat}))
    case SourcesStep(sources, unwatched) => w.(ledger := w.ledger.(sources := sources, unwatched := unwatched))
    case OutsideStep(at) => w.(at := at)
  }

  ghost function AfterAll(w: World, steps: seq<Step>): World
    decreases |steps|
  {
    if steps == [] then w else AfterAll(After(w, steps[0]), steps[1..])
  }

  /** Every manifest is filed under the id it declares. */
  ghost predicate Filed(apps: map<string, App>)
  {
    forall id :: id in apps ==> apps[id].id == id
  }

  ghost predicate AllFiled(w: World)
  {
    Filed(w.store.apps) && forall home :: home in w.at ==> Filed(w.at[home].apps)
  }

  /** Members change their libraries as they like, but Steam files what it writes. */
  ghost predicate Allowed(s: Step)
  {
    match s
    case OutsideStep(at) => forall home :: home in at ==> Filed(at[home].apps)
    case UninstallStep(_, _, d) => forall home :: home in d.stuck ==> Filed(d.stuck[home].apps)
    case _ => true
  }

  // --------------------------------------------------------- withheld stays out

  ghost predicate WithheldOut(w: World)
  {
    AllFiled(w) && forall id :: id in w.ledger.withheld ==> id !in w.store.apps
  }

  lemma FiledKeeps(w: World, v: World, now: int)
    requires AllFiled(w) && AppsFrom(w, v, now)
    ensures AllFiled(v)
  {
    forall id | id in v.store.apps
      ensures v.store.apps[id].id == id
    {
      var home := FromStore(w, v, now, id);
      assert home in w.at ==> Filed(w.at[home].apps);
    }
    forall home, id | home in v.at && id in v.at[home].apps
      ensures v.at[home].apps[id].id == id
    {
      FromLibrary(w, v, now, home, id);
      assert Filed(w.at[home].apps);
    }
  }

  /** Only taking a title brings a manifest into the pool. */
  lemma OnlyTaken(w: World, a: Action, now: int, id: string)
    ensures id in Apply(w, a, now).store.apps ==>
      id in w.store.apps || (a.TakeTitle? && a.id == id && Takes(w, a.home, id, now))
  {
  }

  lemma SameWithheld(w: World, a: Action, now: int)
    ensures Apply(w, a, now).ledger.withheld == w.ledger.withheld
  {
  }

  lemma WithheldOutAct(w: World, a: Action, now: int)
    requires WithheldOut(w)
    ensures WithheldOut(Apply(w, a, now))
    ensures Apply(w, a, now).ledger.withheld == w.ledger.withheld
  {
    var v := Apply(w, a, now);
    ActAppsFrom(w, a, now);
    FiledKeeps(w, v, now);
    SameWithheld(w, a, now);
    forall id | id in v.ledger.withheld
      ensures id !in v.store.apps
    {
      OnlyTaken(w, a, now, id);
      assert a.TakeTitle? && a.home in w.at ==> Filed(w.at[a.home].apps);
    }
  }

  lemma {:induction false} WithheldOutPass(w: World, acts: seq<Action>, now: int)
    requires WithheldOut(w)
    ensures WithheldOut(Run(w, acts, now))
    ensures Run(w, acts, now).ledger.withheld == w.ledger.withheld
    decreases |acts|
  {
    if acts != [] {
      WithheldOutAct(w, acts[0], now);
      WithheldOutPass(Apply(w, acts[0], now), acts[1..], now);
    }
  }

  lemma {:induction false} DropAllKeeps(w: World, key: string, holders: seq<Member>, d: Drops)
    requires forall m :: m in holders ==> m.home in w.at
    ensures var v := DropAll(w, key, holders, d).0;
      && v.ledger == w.ledger && v.store == w.store && v.quiet == w.quiet && v.at.Keys == w.at.Keys
      && (forall home :: home in w.at && (forall m :: m in holders ==> m.home != home) ==> v.at[home] == w.at[home])
    ensures AllFiled(w) && (forall home :: home in d.stuck ==> Filed(d.stuck[home].apps)) ==>
      AllFiled(DropAll(w, key, holders, d).0)
    decreases |holders|
  {
    if holders != [] && holders[0].home !in d.stuck {
      var home := holders[0].home;
      var u := w.(at := w.at[home := DropFrom(w.at[home], key)]);
      DropAllKeeps(u, key, holders[1..], d);
      assert AllFiled(w) ==> AllFiled(u);
    }
  }

  lemma RemoveKeeps(w: World, key: string, d: Drops)
    ensures var (v, gone) := RemoveFromPool(w, key, d);
      && v.at == w.at && v.ledger.withheld == w.ledger.withheld && v.ledger.delivered == w.ledger.delivered
      && v.store.apps.Keys <= w.store.apps.Keys
      && (forall id :: id in v.store.apps ==> v.store.apps[id] == w.store.apps[id])
      && (gone && !IsFolderKey(key) ==> key !in v.store.apps)
  {
  }

  lemma WithheldOutUninstall(w: World, key: string, members: seq<Member>, d: Drops)
    requires WithheldOut(w) && forall home :: home in d.stuck ==> Filed(d.stuck[home].apps)
    ensures WithheldOut(Uninstall(w, key, members, d).0)
    ensures w.ledger.withheld.Keys <= Uninstall(w, key, members, d).0.ledger.withheld.Keys
  {
    var holders := Holders(w, key, members);
    if !Refuses(w, key, members) && NotUpdatable(holders) == [] {
      DropAllKeeps(w, key, holders, d);
      var (dropped, all) := DropAll(w, key, holders, d);
      if all {
        RemoveKeeps(dropped, key, d);
      }
    }
  }

  lemma WithheldOutStep(w: World, s: Step)
    requires WithheldOut(w) && Allowed(s)
    ensures WithheldOut(After(w, s))
    ensures forall id :: id in w.ledger.withheld && s != ReadmitStep(id) ==> id in After(w, s).ledger.withheld
  {
    match s
    case Pass(acts, now) => WithheldOutPass(w, acts, now);
    case UninstallStep(key, members, d) => WithheldOutUninstall(w, key, members, d);
    case RemoveStep(key, d) => RemoveKeeps(w, key, d);
    case _ =>
  }

  /** No pass hands the title over, and no library that has not got it gets it. */
  ghost predicate NotHandedOver(w: World, acts: seq<Action>, now: int, id: string)
  {
    var v, r := Run(w, acts, now), RunSays(w, acts, now);
    && (forall move :: move in r.harvested || move in r.delivered ==> move.app != id)
    && (forall home :: home in v.at ==> home in w.at && (id in v.at[home].apps ==> id in w.at[home].apps))
  }

  lemma {:induction false} WithheldNotHandedOver(w: World, acts: seq<Action>, now: int, id: string)
    requires WithheldOut(w) && id in w.ledger.withheld && !IsFolderKey(id)
    ensures NotHandedOver(w, acts, now, id)
    decreases |acts|
  {
    if acts != [] {
      var v := Apply(w, acts[0], now);
      WithheldOutAct(w, acts[0], now);
      WithheldNotHandedOver(v, acts[1..], now, id);
      NotHandedOverAct(w, acts[0], now, id);
    }
  }

  lemma NotHandedOverAct(w: World, a: Action, now: int, id: string)
    requires WithheldOut(w) && id in w.ledger.withheld && !IsFolderKey(id)
    ensures var v, r := Apply(w, a, now), Says(w, a, now);
      && (forall move :: move in r.harvested || move in r.delivered ==> move.app != id)
      && (forall home :: home in v.at ==> home in w.at && (id in v.at[home].apps ==> id in w.at[home].apps))
  {
    assert forall name :: IsFolderKey(FolderKey(name));
  }

  /** In no run of steps, however the members' libraries change, is a withheld title handed
      to anybody before it is readmitted. */
  ghost predicate NeverHandedOver(w: World, steps: seq<Step>, id: string)
    decreases |steps|
  {
    steps != [] ==>
      && (steps[0].Pass? ==> NotHandedOver(w, steps[0].acts, steps[0].now, id))
      && NeverHandedOver(After(w, steps[0]), steps[1..], id)
  }

  lemma {:induction false} WithheldStaysOut(w: World, steps: seq<Step>, id: string)
    requires WithheldOut(w) && id in w.ledger.withheld && !IsFolderKey(id)
    requires forall s :: s in steps ==> Allowed(s) && s != ReadmitStep(id)
    ensures NeverHandedOver(w, steps, id)
    ensures var v := AfterAll(w, steps); WithheldOut(v) && id in v.ledger.withheld && id !in v.store.apps
    decreases |steps|
  {
    if steps != [] {
      var s := steps[0];
      assert s in steps;
      WithheldOutStep(w, s);
      if s.Pass? {
        WithheldNotHandedOver(w, s.acts, s.now, id);
      }
      WithheldStaysOut(After(w, s), steps[1..], id);
    }
  }
}
