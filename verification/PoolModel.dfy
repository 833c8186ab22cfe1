/** The shared game library as a replicated store: the pool, the member libraries and the
    ledger of what was handed to whom, and every single thing a pass does to them
    (internal/library/pool.go).

    A pass is a sequence of actions, one for each round of one of its loops.  What a
    clone leaves in the directory it writes to is part of the action, because any step
    of it may fail: `Plausible` is what a clone can leave, `Smooth` that it went well. */
module PoolModel {
  import opened Wrappers
  import opened FileTree
  import opened Clone
  import opened Titles

  datatype Status = Delivered | Declined

  /** What the daemon remembers. */
  datatype Ledger = Ledger(
    delivered: map<string, map<string, Status>>,
    folders: map<string, Version>,
    withheld: map<string, string>,
    sources: seq<string>,
    unwatched: seq<string>)

  /** What the pool holds: manifests by the id they are filed under, game directories,
      shared folders. */
  datatype Store = Store(apps: map<string, App>, common: map<string, Node>, shared: map<string, Node>)

  /** One library outside the pool.  It may have no common directory yet, and it may take
      no part in the folder side. */
  datatype Library = Library(apps: map<string, App>, common: Option<map<string, Node>>,
                             shared: Option<map<string, Node>>)

  datatype World = World(ledger: Ledger, store: Store, at: map<string, Library>, quiet: int)

  /** A library the pool keeps in step, and where it is. */
  datatype Member = Member(name: string, updatable: bool, external: bool, home: string)

  datatype Move = Move(app: string, seat: string)

  datatype Report = Report(harvested: seq<Move>, delivered: seq<Move>, declined: seq<Move>, pending: seq<Move>)

  const NOTHING := Report([], [], [], [])

  /** Whether a pass changed nothing; what is waiting does not count. */
  predicate Empty(r: Report)
  {
    r.harvested == [] && r.delivered == [] && r.declined == []
  }

  function Both(a: Report, b: Report): Report
  {
    Report(a.harvested + b.harvested, a.delivered + b.delivered, a.declined + b.declined, a.pending + b.pending)
  }

  /** What became of one clone: the entries of the directory it wrote to, whether it
      succeeded, and whether what follows it (the manifest, or measuring the copy) did. */
  datatype Outcome = Outcome(left: map<string, Node>, ok: bool, after: bool)

  datatype Action =
    | SeePresent(m: Member, id: string)
    | TakeTitle(home: string, from: string, id: string, o: Outcome)
    | TakeFolder(m: Member, name: string, o: Outcome)
    | GiveTitle(m: Member, id: string, o: Outcome)
    | GiveFolder(m: Member, name: string, o: Outcome)

  // ------------------------------------------------------------------- ledger

  const FOLDER_PREFIX := "folder:"

  function FolderKey(name: string): string
  {
    FOLDER_PREFIX + name
  }

  function StatusOf(l: Ledger, seat: string, key: string): Option<Status>
  {
    if seat in l.delivered && key in l.delivered[seat] then Some(l.delivered[seat][key]) else None
  }

  /** mark: a declined title stays declined even though the seat now has it. */
  function Mark(l: Ledger, seat: string, key: string, s: Status): Ledger
  {
    if StatusOf(l, seat, key) == Some(Declined) && s == Delivered then l
    else
      var marks := if seat in l.delivered then l.delivered[seat] else map[];
      l.(delivered := l.delivered[seat := marks[key := s]])
  }

  // ------------------------------------------------------------------- titles

  function Dirs(f: Option<map<string, Node>>): map<string, Node>
  {
    if f.Some? then f.value else map[]
  }

  predicate HasDir(e: map<string, Node>, name: string)
  {
    name in e && e[name].Dir?
  }

  /** The pool holds the title's manifest and its files. */
  predicate Whole(s: Store, id: string)
  {
    id in s.apps && HasDir(s.common, s.apps[id].dir)
  }

  predicate Quiet(a: App, now: int, quiet: int)
  {
    now - a.modTime >= quiet
  }

  /** A library's copy that may be taken: finished, quiet, not withheld, with its files. */
  predicate Eligible(w: World, home: string, id: string, now: int)
  {
    && home in w.at && id in w.at[home].apps
    && var app := w.at[home].apps[id];
    && Installed(app) && Quiet(app, now, w.quiet) && app.id !in w.ledger.withheld
    && HasDir(Dirs(w.at[home].common), app.dir)
  }

  /** Only ever forward: when the pool has none, or an older build. */
  predicate Takes(w: World, home: string, id: string, now: int)
  {
    && Eligible(w, home, id, now)
    && (Whole(w.store, id) ==> NewerBuild(w.at[home].apps[id].build, w.store.apps[id].build))
  }

  datatype Decision = Skip | Pend | Decline | Give

  /** The switch of distribute. */
  function DecideTitle(w: World, m: Member, id: string): Decision
  {
    if m.home !in w.at || id !in w.store.apps || !Installed(w.store.apps[id]) then Skip
    else
      var app, here := w.store.apps[id], w.at[m.home].apps;
      var give := if HasDir(w.store.common, app.dir) then Give else Skip;
      if id in here && !NewerBuild(app.build, here[id].build) then Skip
      else if id in here && !m.updatable then Pend
      else if id in here then give
      else match StatusOf(w.ledger, m.name, id)
        case Some(Declined) => Skip
        case Some(Delivered) => Decline
        case None => give
  }

  // ------------------------------------------------------------------ folders

  /** The version of the folder `name` among the entries of a directory. */
  ghost function VersionAt(e: map<string, Node>, name: string): Version
    requires HasDir(e, name)
  {
    Measure(e[name], IsDrive(Dir(0, e), name))
  }

  /** The folder is found by a scan of the library's folder directory. */
  predicate Scanned(w: World, home: string, name: string)
  {
    home in w.at && HasDir(Dirs(w.at[home].shared), name) && SafeName(name)
  }

  ghost predicate TakesFolder(w: World, home: string, name: string, now: int)
  {
    && Scanned(w, home, name)
    && var mine := VersionAt(Dirs(w.at[home].shared), name);
    && Settled(mine, now, w.quiet)
    && !(name in w.ledger.folders && HasDir(w.store.shared, name) && !NewerVersion(mine, w.ledger.folders[name]))
  }

  ghost function DecideFolder(w: World, m: Member, name: string): Decision
  {
    if m.home !in w.at || w.at[m.home].shared.None? || name !in w.ledger.folders || !HasDir(w.store.shared, name) then
      Skip
    else
      var pooled, here := w.ledger.folders[name], Dirs(w.at[m.home].shared);
      if Scanned(w, m.home, name) && !NewerVersion(pooled, VersionAt(here, name)) then Skip
      else if Scanned(w, m.home, name) then (if m.updatable then Give else Pend)
      else match StatusOf(w.ledger, m.name, FolderKey(name))
        case Some(Declined) => Skip
        case Some(Delivered) => Decline
        case None => Give
  }

  // ------------------------------------------------------------------ actions

  /** The folder was copied, and the copy measured. */
  predicate Stored(o: Outcome, name: string)
  {
    o.ok && o.after && HasDir(o.left, name)
  }

  /** What one action does. */
  ghost function Apply(w: World, a: Action, now: int): World
  {
    match a
    case SeePresent(m, id) => w.(ledger := Mark(w.ledger, m.name, id, Delivered))
    case TakeTitle(home, _, id, o) =>
      if !Takes(w, home, id, now) then w
      else
        var s := w.store.(common := o.left);
        if o.ok && o.after then w.(store := s.(apps := s.apps[id := w.at[home].apps[id].(modTime := now)]))
        else w.(store := s)
    case TakeFolder(m, name, o) =>
      var l := Mark(w.ledger, m.name, FolderKey(name), Delivered);
      if !TakesFolder(w, m.home, name, now) then w.(ledger := l)
      else
        var s := w.store.(shared := o.left);
        if Stored(o, name) then
          w.(ledger := l.(folders := l.folders[name := VersionAt(o.left, name)]), store := s)
        else w.(ledger := l, store := s)
    case GiveTitle(m, id, o) =>
      (match DecideTitle(w, m, id)
       case Give =>
         var lib := w.at[m.home].(common := Some(o.left));
         if o.ok && o.after then
           w.(ledger := Mark(w.ledger, m.name, id, Delivered),
              at := w.at[m.home := lib.(apps := lib.apps[id := w.store.apps[id].(modTime := now)])])
         else w.(at := w.at[m.home := lib])
       case Decline => w.(ledger := Mark(w.ledger, m.name, id, Declined))
       case _ => w)
    case GiveFolder(m, name, o) =>
      (match DecideFolder(w, m, name)
       case Give =>
         var lib := w.at[m.home].(shared := Some(o.left));
         if o.ok then
           w.(ledger := Mark(w.ledger, m.name, FolderKey(name), Delivered), at := w.at[m.home := lib])
         else w.(at := w.at[m.home := lib])
       case Decline => w.(ledger := Mark(w.ledger, m.name, FolderKey(name), Declined))
       case _ => w)
  }

  /** What one action puts into the report. */
  ghost function Says(w: World, a: Action, now: int): Report
  {
    match a
    case SeePresent(_, _) => NOTHING
    case TakeTitle(home, from, id, o) =>
      if Takes(w, home, id, now) && o.ok && o.after then NOTHING.(harvested := [Move(id, from)]) else NOTHING
    case TakeFolder(m, name, o) =>
      if TakesFolder(w, m.home, name, now) && Stored(o, name) then
        NOTHING.(harvested := [Move(FolderKey(name), m.name)])
      else NOTHING
    case GiveTitle(m, id, o) => DecisionSays(DecideTitle(w, m, id), Move(id, m.name), o.ok && o.after)
    case GiveFolder(m, name, o) => DecisionSays(DecideFolder(w, m, name), Move(FolderKey(name), m.name), o.ok)
  }

  function DecisionSays(d: Decision, move: Move, ok: bool): Report
  {
    match d
    case Give => if ok then NOTHING.(delivered := [move]) else NOTHING
    case Decline => NOTHING.(declined := [move])
    case Pend => NOTHING.(pending := [move])
    case Skip => NOTHING
  }

  /** Whether the action ends the loop it is a round of. */
  ghost predicate Stops(w: World, a: Action, now: int)
  {
    match a
    case SeePresent(_, _) => false
    case TakeTitle(home, _, id, o) => Takes(w, home, id, now) && !(o.ok && o.after)
    case TakeFolder(m, name, o) => TakesFolder(w, m.home, name, now) && !Stored(o, name)
    case GiveTitle(m, id, o) => DecideTitle(w, m, id) == Give && !(o.ok && o.after)
    case GiveFolder(m, name, o) => DecideFolder(w, m, name) == Give && !o.ok
  }

  ghost function Run(w: World, acts: seq<Action>, now: int): World
    decreases |acts|
  {
    if acts == [] then w else Run(Apply(w, acts[0], now), acts[1..], now)
  }

  ghost function RunSays(w: World, acts: seq<Action>, now: int): Report
    decreases |acts|
  {
    if acts == [] then NOTHING
    else Both(Says(w, acts[0], now), RunSays(Apply(w, acts[0], now), acts[1..], now))
  }

  lemma {:induction false} RunJoin(w: World, a: seq<Action>, b: seq<Action>, now: int)
    ensures Run(w, a + b, now) == Run(Run(w, a, now), b, now)
    decreases |a|
  {
    if a == [] {
      assert [] + b == b;
    } else {
      assert (a + b)[0] == a[0] && (a + b)[1..] == a[1..] + b;
      RunJoin(Apply(w, a[0], now), a[1..], b, now);
    }
  }

  lemma {:induction false} SaysJoin(w: World, a: seq<Action>, b: seq<Action>, now: int)
    ensures RunSays(w, a + b, now) == Both(RunSays(w, a, now), RunSays(Run(w, a, now), b, now))
    decreases |a|
  {
    if a == [] {
      assert [] + b == b;
      BothNothing(RunSays(w, b, now));
    } else {
      var x, v := Says(w, a[0], now), Apply(w, a[0], now);
      assert (a + b)[0] == a[0] && (a + b)[1..] == a[1..] + b;
      SaysJoin(v, a[1..], b, now);
      BothJoin(x, RunSays(v, a[1..], now), RunSays(Run(v, a[1..], now), b, now));
    }
  }

  lemma BothNothing(r: Report)
    ensures Both(NOTHING, r) == r && Both(r, NOTHING) == r
  {
  }

  lemma BothJoin(a: Report, b: Report, c: Report)
    ensures Both(Both(a, b), c) == Both(a, Both(b, c))
  {
  }

  // ------------------------------------------------------------------- clones

  /** A name no clone uses for the copy it moves aside. */
  predicate NotAside(name: string)
  {
    !(|name| >= |OLD_SUFFIX| && name[|name| - |OLD_SUFFIX|..] == OLD_SUFFIX)
  }

  lemma AsideIsOther(name: string, other: string)
    requires NotAside(name)
    ensures name != OldName(other)
  {
    assert OldName(other)[|OldName(other)| - |OLD_SUFFIX|..] == OLD_SUFFIX;
  }

  /** A usable name that a clone of something else does not touch. */
  predicate Plain(name: string)
  {
    SafeName(name) && NotAside(name)
  }

  /** The copy is in place.  What was moved aside for it may be there still, in part or
      whole: whether it could be removed is not looked at. */
  ghost predicate InPlace(e: map<string, Node>, name: string, src: Node, private: bool, left: map<string, Node>)
  {
    && name in left && left[name] == CloneOver(src, e, name, private)
    && OnlyThese(e, left, {name, OldName(name)})
    && (forall p :: p in ToCarry(e, name, private) ==> name in e && Get(left[name], p) == Get(e[name], p))
  }

  ghost predicate TakenBack(e: map<string, Node>, name: string, private: bool, left: map<string, Node>,
                            staging: string, exact: bool)
  {
    var carry := ToCarry(e, name, private);
    && STAGING_PREFIX <= staging && OnlyThese(e, left, {name, OldName(name), staging})
    && (Restored(e, left, name, carry, exact) || Split(e, left, name, staging, carry))
  }

  /** What a clone, failed or not, leaves of the directory it wrote to. */
  ghost predicate Leaves(e: map<string, Node>, name: string, src: Node, private: bool, o: Outcome)
  {
    if o.ok then InPlace(e, name, src, private, o.left)
    else exists staging, exact :: TakenBack(e, name, private, o.left, staging, exact)
  }

  lemma OthersAreKept(e: map<string, Node>, name: string, src: Node, private: bool, o: Outcome, other: string)
    requires Leaves(e, name, src, private, o) && Plain(other) && other != name
    ensures other in e <==> other in o.left
    ensures other in e ==> o.left[other] == e[other]
  {
    AsideIsOther(other, name);
    if !o.ok {
      var staging, exact :| TakenBack(e, name, private, o.left, staging, exact);
      assert other[0] != '.' && staging[0] == '.';
    }
  }

  /** The action's clone did what clones do. */
  ghost predicate Plausible(w: World, a: Action, now: int)
  {
    match a
    case SeePresent(_, _) => true
    case TakeTitle(home, _, id, o) => Takes(w, home, id, now) ==>
      var dir := w.at[home].apps[id].dir;
      Leaves(w.store.common, dir, Dirs(w.at[home].common)[dir], false, o)
    case TakeFolder(m, name, o) => TakesFolder(w, m.home, name, now) ==>
      Leaves(w.store.shared, name, Dirs(w.at[m.home].shared)[name], true, o)
    case GiveTitle(m, id, o) => DecideTitle(w, m, id) == Give ==>
      var dir := w.store.apps[id].dir;
      Leaves(Dirs(w.at[m.home].common), dir, w.store.common[dir], false, o)
    case GiveFolder(m, name, o) => DecideFolder(w, m, name) == Give ==>
      Leaves(Dirs(w.at[m.home].shared), name, w.store.shared[name], true, o)
  }

  ghost predicate PlausibleRun(w: World, acts: seq<Action>, now: int)
    decreases |acts|
  {
    acts != [] ==> Plausible(w, acts[0], now) && PlausibleRun(Apply(w, acts[0], now), acts[1..], now)
  }

  /** A round that did not end its loop. */
  ghost predicate Smooth(w: World, a: Action, now: int)
  {
    Plausible(w, a, now) && !Stops(w, a, now)
  }

  ghost predicate SmoothRun(w: World, acts: seq<Action>, now: int)
    decreases |acts|
  {
    acts != [] ==> Smooth(w, acts[0], now) && SmoothRun(Apply(w, acts[0], now), acts[1..], now)
  }

  lemma {:induction false} PlausibleJoin(w: World, a: seq<Action>, b: seq<Action>, now: int)
    requires PlausibleRun(w, a, now) && PlausibleRun(Run(w, a, now), b, now)
    ensures PlausibleRun(w, a + b, now)
    decreases |a|
  {
    if a == [] {
      assert [] + b == b;
    } else {
      assert (a + b)[0] == a[0] && (a + b)[1..] == a[1..] + b;
      PlausibleJoin(Apply(w, a[0], now), a[1..], b, now);
    }
  }

  lemma {:induction false} SmoothJoin(w: World, a: seq<Action>, b: seq<Action>, now: int)
    ensures SmoothRun(w, a + b, now) <==> SmoothRun(w, a, now) && SmoothRun(Run(w, a, now), b, now)
    decreases |a|
  {
    if a == [] {
      assert [] + b == b;
    } else {
      assert (a + b)[0] == a[0] && (a + b)[1..] == a[1..] + b;
      SmoothJoin(Apply(w, a[0], now), a[1..], b, now);
    }
  }

  lemma {:induction false} SmoothIsPlausible(w: World, acts: seq<Action>, now: int)
    requires SmoothRun(w, acts, now)
    ensures PlausibleRun(w, acts, now)
    decreases |acts|
  {
    if acts != [] {
      SmoothIsPlausible(Apply(w, acts[0], now), acts[1..], now);
    }
  }

  // ------------------------------------------------------ where manifests come from

  /** Every manifest there is after an action was there before it, or is a fresh copy of
      one that was: a library's in the pool, or the pool's in a library. */
  ghost predicate AppsFrom(w: World, v: World, now: int)
  {
    && (forall home :: home in v.at <==> home in w.at)
    && (forall id :: id in v.store.apps ==>
          || (id in w.store.apps && v.store.apps[id] == w.store.apps[id])
          || (exists home ::
                home in w.at && id in w.at[home].apps && v.store.apps[id] == w.at[home].apps[id].(modTime := now)))
    && (forall home, id :: home in v.at && id in v.at[home].apps ==>
          || (id in w.at[home].apps && v.at[home].apps[id] == w.at[home].apps[id])
          || (id in w.store.apps && v.at[home].apps[id] == w.store.apps[id].(modTime := now)))
  }

  lemma FromLibrary(w: World, v: World, now: int, home: string, id: string)
    requires AppsFrom(w, v, now) && home in v.at && id in v.at[home].apps
    ensures home in w.at
    ensures (id in w.at[home].apps && v.at[home].apps[id] == w.at[home].apps[id])
      || (id in w.store.apps && v.at[home].apps[id] == w.store.apps[id].(modTime := now))
  {
  }

  lemma FromStore(w: World, v: World, now: int, id: string) returns (home: string)
    requires AppsFrom(w, v, now) && id in v.store.apps
    ensures (id in w.store.apps && v.store.apps[id] == w.store.apps[id])
      || (home in w.at && id in w.at[home].apps && v.store.apps[id] == w.at[home].apps[id].(modTime := now))
  {
    home := "";
    if !(id in w.store.apps && v.store.apps[id] == w.store.apps[id]) {
      home :| home in w.at && id in w.at[home].apps && v.store.apps[id] == w.at[home].apps[id].(modTime := now);
    }
  }

  lemma ActAppsFrom(w: World, a: Action, now: int)
    ensures AppsFrom(w, Apply(w, a, now), now)
  {
    match a
    case SeePresent(_, _) =>
    case TakeTitle(home, _, id, _) => TakeAppsFrom(w, a, now);
    case TakeFolder(_, _, _) =>
    case GiveTitle(_, _, _) => GiveAppsFrom(w, a, now);
    case GiveFolder(_, _, _) =>
  }

  lemma TakeAppsFrom(w: World, a: Action, now: int)
    requires a.TakeTitle?
    ensures AppsFrom(w, Apply(w, a, now), now)
  {
    if Takes(w, a.home, a.id, now) {
      assert a.home in w.at && a.id in w.at[a.home].apps;
    }
  }

  lemma GiveAppsFrom(w: World, a: Action, now: int)
    requires a.GiveTitle?
    ensures AppsFrom(w, Apply(w, a, now), now)
  {
  }
}
