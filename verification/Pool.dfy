/** The pool as the daemon runs it: loops over members and titles that update the ledger,
    the pool's own directories and the members' libraries in place, each proved to do what
    the actions of PoolModel say (internal/library/pool.go). */
module Pools {
  import opened Wrappers
  import opened FileTree
  import opened CloneTrees
  import opened Clone
  import opened Titles
  import opened PoolModel
  import opened PoolSteps
  import opened PoolSafety
  import opened PoolForward
  import opened PoolFolders
  import opened PoolPasses
  import opened PoolTitles
  import opened PoolFixpoint
  import opened PoolShapes
  import opened PoolClear

  /** The members' disks. */
  class Libraries {
    var at: map<string, Library>

    constructor (libraries: map<string, Library>)
      ensures at == libraries
    {
      at := libraries;
    }
  }

  /** A run of rounds with its report, every clone of it plausible, and, when it went well,
      none of them the end of its loop. */
  ghost predicate Ran(w: World, v: World, acts: seq<Action>, r: Report, now: int, well: bool)
  {
    && v == Run(w, acts, now) && r == RunSays(w, acts, now)
    && PlausibleRun(w, acts, now) && (well ==> SmoothRun(w, acts, now))
  }

  /** A run of rounds that went well only if every copy it made could be made, and that did
      go well if there was nothing in its way: no step failed and no library was missing
      (`clear`), and none of its rounds ended its loop; of which each that could make its
      copy went well. */
  ghost predicate Went(w: World, v: World, acts: seq<Action>, r: Report, now: int, well: bool, clear: bool)
  {
    && Ran(w, v, acts, r, now, well)
    && (well ==> AbleRun(w, acts, now))
    && (clear ==> ClearRun(w, acts, now) && (SmoothRun(w, acts, now) ==> well))
  }

  lemma WentNothing(w: World, now: int)
    ensures Went(w, w, [], NOTHING, now, true, true)
  {
  }

  lemma WentMore(w: World, v: World, u: World, a: seq<Action>, b: seq<Action>, r: Report, s: Report, now: int,
                 p: bool, q: bool, c: bool, d: bool)
    requires Went(w, v, a, r, now, p, c) && Went(v, u, b, s, now, q, d)
    ensures Went(w, u, a + b, Both(r, s), now, p && q, c && d)
  {
    RunJoin(w, a, b, now);
    SaysJoin(w, a, b, now);
    PlausibleJoin(w, a, b, now);
    SmoothJoin(w, a, b, now);
    AbleJoin(w, a, b, now);
    ClearJoin(w, a, b, now);
  }

  lemma WentOne(w: World, a: Action, now: int, clear: bool)
    requires Plausible(w, a, now) && (!Stops(w, a, now) ==> Able(w, a, now))
    requires clear && Able(w, a, now) ==> !Stops(w, a, now)
    ensures Went(w, Apply(w, a, now), [a], Says(w, a, now), now, !Stops(w, a, now), clear)
  {
    var v := Apply(w, a, now);
    assert [a][1..] == [];
    assert Run(v, [], now) == v && RunSays(v, [], now) == NOTHING;
    assert PlausibleRun(v, [], now) && SmoothRun(v, [], now) && AbleRun(v, [], now) && ClearRun(v, [], now);
    BothNothing(Says(w, a, now));
  }

  ghost predicate SourcesThere(at: map<string, Library>, sources: seq<string>, members: seq<Member>)
  {
    forall s :: s in sources && !Joined(members, s) ==> s in at
  }

  ghost predicate MembersThere(at: map<string, Library>, members: seq<Member>)
  {
    forall m :: m in members ==> m.home in at
  }

  /** The member's library is there, and the folder side of it if that was read. */
  predicate TakesPart(at: map<string, Library>, m: Member, scanned: bool)
  {
    m.home in at && (scanned ==> at[m.home].shared.Some?)
  }

  ghost predicate AllTakePart(at: map<string, Library>, members: seq<Member>, scans: set<Member>)
  {
    forall m :: m in members ==> TakesPart(at, m, m in scans)
  }

  lemma SharedHere(w: World, acts: seq<Action>, now: int, home: string)
    ensures var v := Run(w, acts, now);
      && (home in v.at <==> home in w.at)
      && (home in w.at && w.at[home].shared.Some? ==> v.at[home].shared.Some?)
  {
    SameHomes(w, acts, now);
    if home in w.at && w.at[home].shared.Some? {
      SharedStays(w, acts, now, home);
    }
  }

  ghost predicate LibrariesThere(w: World, members: seq<Member>)
  {
    SourcesThere(w.at, w.ledger.sources, members) && MembersThere(w.at, members)
  }

  lemma HarvestKeepsHomes(w: World, v: World, acts: seq<Action>, now: int, members: seq<Member>, ready: seq<Member>,
                          scans: set<Member>)
    requires v == Run(w, acts, now) && (forall m :: m in scans ==> TakesPart(v.at, m, true))
    requires forall m :: m in ready ==> m in members
    ensures MembersThere(w.at, members) ==> AllTakePart(v.at, ready, scans)
  {
    SameHomes(w, acts, now);
  }

  lemma PassIsWhole(w: World, w1: World, v: World, harvest: seq<Action>, gives: seq<Action>, r: Report, s: Report,
                    now: int, members: seq<Member>)
    requires Ran(w, w1, harvest, r, now, true) && Ran(w1, v, gives, s, now, true)
    requires FullHarvest(w, harvest, members, Homes(w.ledger.sources, members))
    requires FullGives(w1, gives, members, Homes(w.ledger.sources, members))
    ensures WholePass(w, harvest, gives, now, members, Homes(w.ledger.sources, members))
  {
  }

  /** What a Sync in which this many steps failed says of its problems.  Without problems
      every copy it made could be made.  If none failed and every library was there, each
      round that could make its copy went well, and it met no problem exactly when all
      could. */
  ghost predicate Unhindered(w: World, problems: nat, acts: seq<Action>, members: seq<Member>, now: int, failed: int)
  {
    && (problems == 0 ==> AbleRun(w, acts, now))
    && (failed == 0 && LibrariesThere(w, members) ==>
          ClearRun(w, acts, now) && (problems == 0 <==> AbleRun(w, acts, now)))
  }

  lemma WentIsUnhindered(w: World, v: World, acts: seq<Action>, r: Report, now: int, problems: nat,
                         members: seq<Member>, failed: int, well: bool, clear: bool)
    requires Went(w, v, acts, r, now, well, clear) && (problems == 0 ==> well)
    requires failed == 0 && LibrariesThere(w, members) ==>
      clear && (well ==> problems == 0)
    ensures Unhindered(w, problems, acts, members, now, failed)
  {
    if clear && AbleRun(w, acts, now) {
      AbleIsSmooth(w, acts, now);
    }
  }

  /** The title has had its round. */
  ghost predicate Taken(acts: seq<Action>, home: string, from: string, id: string)
  {
    exists o :: PoolModel.TakeTitle(home, from, id, o) in acts
  }

  ghost predicate TakenFolder(acts: seq<Action>, m: Member, name: string)
  {
    exists o :: PoolModel.TakeFolder(m, name, o) in acts
  }

  ghost predicate GivenTitle(acts: seq<Action>, m: Member, id: string)
  {
    exists o :: PoolModel.GiveTitle(m, id, o) in acts
  }

  ghost predicate GivenFolder(acts: seq<Action>, m: Member, name: string)
  {
    exists o :: PoolModel.GiveFolder(m, name, o) in acts
  }

  /** Every title of the library has had its round. */
  ghost predicate LibraryTaken(at: map<string, Library>, acts: seq<Action>, home: string)
  {
    home in at && forall id :: id in at[home].apps ==> exists from :: Taken(acts, home, from, id)
  }

  ghost predicate MemberSeen(at: map<string, Library>, acts: seq<Action>, m: Member)
  {
    m.home in at && forall id :: id in at[m.home].apps ==> SeePresent(m, id) in acts
  }

  ghost predicate OnlyFrom(acts: seq<Action>, home: string)
  {
    forall a :: a in acts ==> a.TakeTitle? && a.home == home
  }

  ghost predicate TakenUpTo(acts: seq<Action>, home: string, from: string, ids: seq<string>, i: nat)
    requires i <= |ids|
  {
    forall k :: 0 <= k < i ==> Taken(acts, home, from, ids[k])
  }

  lemma TakenMore(acts: seq<Action>, a: Action, home: string, from: string, ids: seq<string>, i: nat)
    requires i < |ids| && OnlyFrom(acts, home) && TakenUpTo(acts, home, from, ids, i)
    requires a.TakeTitle? && a.home == home && a.from == from && a.id == ids[i]
    ensures OnlyFrom(acts + [a], home) && TakenUpTo(acts + [a], home, from, ids, i + 1)
  {
    StillHarvested(acts, acts + [a]);
    assert PoolModel.TakeTitle(home, from, ids[i], a.o) == a && a in acts + [a];
    assert Taken(acts + [a], home, from, ids[i]);
  }

  lemma TakenToEnd(acts: seq<Action>, home: string, from: string, ids: seq<string>)
    requires TakenUpTo(acts, home, from, ids, |ids|)
    ensures forall id :: id in ids ==> Taken(acts, home, from, id)
  {
  }

  ghost predicate OfMember(at: map<string, Library>, acts: seq<Action>, m: Member)
  {
    && m.home in at
    && forall a :: a in acts ==>
         (a.TakeTitle? && a.home == m.home) || (a.SeePresent? && a.m == m && a.id in at[m.home].apps)
  }

  ghost predicate OfMembers(w: World, acts: seq<Action>, members: seq<Member>)
  {
    forall a :: a in acts ==>
      || (a.TakeTitle? && exists m :: m in members && m.home == a.home)
      || (a.SeePresent? && a.m in members && There(w, a))
  }

  ghost predicate HarvestedUpTo(at: map<string, Library>, acts: seq<Action>, members: seq<Member>, i: nat)
    requires i <= |members|
  {
    forall k :: 0 <= k < i ==> LibraryTaken(at, acts, members[k].home) && MemberSeen(at, acts, members[k])
  }

  lemma HarvestedMore(w: World, acts: seq<Action>, more: seq<Action>, members: seq<Member>, i: nat, before: bool,
                      now: bool)
    requires i < |members| && OfMembers(w, acts, members) && OfMember(w.at, more, members[i])
    requires before ==> HarvestedUpTo(w.at, acts, members, i)
    requires now ==> LibraryTaken(w.at, more, members[i].home) && MemberSeen(w.at, more, members[i])
    ensures OfMembers(w, acts + more, members)
    ensures before && now ==> HarvestedUpTo(w.at, acts + more, members, i + 1)
  {
    StillHarvested(acts, acts + more);
    StillHarvested(more, acts + more);
  }

  ghost predicate FoldersTaken(w: World, acts: seq<Action>, m: Member)
  {
    forall name :: Scanned(w, m.home, name) ==> TakenFolder(acts, m, name)
  }

  ghost predicate FoldersOf(w: World, acts: seq<Action>, m: Member)
  {
    forall a :: a in acts ==> a.TakeFolder? && a.m == m && There(w, a)
  }

  ghost predicate FoldersUpTo(w: World, acts: seq<Action>, m: Member, names: seq<string>, i: nat)
    requires i <= |names|
  {
    forall k :: 0 <= k < i && Scanned(w, m.home, names[k]) ==> TakenFolder(acts, m, names[k])
  }

  lemma FolderMore(w: World, acts: seq<Action>, a: Action, m: Member, names: seq<string>, i: nat)
    requires i < |names| && FoldersOf(w, acts, m) && FoldersUpTo(w, acts, m, names, i)
    requires a.TakeFolder? && a.m == m && a.name == names[i] && There(w, a)
    ensures FoldersOf(w, acts + [a], m) && FoldersUpTo(w, acts + [a], m, names, i + 1)
  {
    StillHarvestedFolders(acts, acts + [a]);
    assert PoolModel.TakeFolder(m, names[i], a.o) == a && a in acts + [a];
    assert TakenFolder(acts + [a], m, names[i]);
  }

  lemma FoldersToEnd(w: World, acts: seq<Action>, m: Member, names: seq<string>)
    requires FoldersUpTo(w, acts, m, names, |names|) && forall name :: Scanned(w, m.home, name) ==> name in names
    ensures FoldersTaken(w, acts, m)
  {
  }

  ghost predicate FoldersOfAll(w: World, acts: seq<Action>, members: seq<Member>)
  {
    forall a :: a in acts ==> a.TakeFolder? && a.m in members && There(w, a)
  }

  /** The first members' folders have had their rounds, and those that take part are among
      the scanned ones. */
  ghost predicate ScannedUpTo(w: World, acts: seq<Action>, scans: set<Member>, members: seq<Member>, i: nat)
    requires i <= |members|
  {
    forall k :: 0 <= k < i ==>
      && FoldersTaken(w, acts, members[k])
      && (members[k].home in w.at && w.at[members[k].home].shared.Some? ==> members[k] in scans)
  }

  lemma ScannedMore(w: World, acts: seq<Action>, more: seq<Action>, scans: set<Member>, scanned: bool,
                    members: seq<Member>, i: nat, before: bool, now: bool)
    requires i < |members| && FoldersOfAll(w, acts, members) && FoldersOf(w, more, members[i])
    requires before ==> ScannedUpTo(w, acts, scans, members, i)
    requires now ==> FoldersTaken(w, more, members[i])
    requires now && members[i].home in w.at && w.at[members[i].home].shared.Some? ==> scanned
    ensures FoldersOfAll(w, acts + more, members)
    ensures before && now ==>
      ScannedUpTo(w, acts + more, if scanned then scans + {members[i]} else scans, members, i + 1)
  {
    StillHarvestedFolders(acts, acts + more);
    StillHarvestedFolders(more, acts + more);
  }

  ghost predicate MemberGiven(acts: seq<Action>, m: Member, ids: set<string>)
  {
    forall id :: id in ids ==> GivenTitle(acts, m, id)
  }

  ghost predicate FoldersGiven(acts: seq<Action>, m: Member, names: set<string>)
  {
    forall name :: name in names ==> GivenFolder(acts, m, name)
  }

  /** What is harvested in a part of a pass is harvested in the whole of it. */
  lemma StillHarvested(part: seq<Action>, acts: seq<Action>)
    requires forall a :: a in part ==> a in acts
    ensures forall home, from, id :: Taken(part, home, from, id) ==> Taken(acts, home, from, id)
    ensures forall at, home :: LibraryTaken(at, part, home) ==> LibraryTaken(at, acts, home)
    ensures forall at, m :: MemberSeen(at, part, m) ==> MemberSeen(at, acts, m)
  {
    forall home, from, id | Taken(part, home, from, id)
      ensures Taken(acts, home, from, id)
    {
      var o :| PoolModel.TakeTitle(home, from, id, o) in part;
      assert PoolModel.TakeTitle(home, from, id, o) in acts;
    }
    forall at: map<string, Library>, home | LibraryTaken(at, part, home)
      ensures LibraryTaken(at, acts, home)
    {
      forall id | id in at[home].apps
        ensures exists from :: Taken(acts, home, from, id)
      {
        var from :| Taken(part, home, from, id);
        assert Taken(acts, home, from, id);
      }
    }
  }

  lemma StillHarvestedFolders(part: seq<Action>, acts: seq<Action>)
    requires forall a :: a in part ==> a in acts
    ensures forall m, name :: TakenFolder(part, m, name) ==> TakenFolder(acts, m, name)
    ensures forall w, m :: FoldersTaken(w, part, m) ==> FoldersTaken(w, acts, m)
  {
    forall m, name | TakenFolder(part, m, name)
      ensures TakenFolder(acts, m, name)
    {
      var o :| PoolModel.TakeFolder(m, name, o) in part;
      assert PoolModel.TakeFolder(m, name, o) in acts;
    }
  }

  lemma StillGiven(part: seq<Action>, acts: seq<Action>)
    requires forall a :: a in part ==> a in acts
    ensures forall m, id :: GivenTitle(part, m, id) ==> GivenTitle(acts, m, id)
    ensures forall m, ids :: MemberGiven(part, m, ids) ==> MemberGiven(acts, m, ids)
  {
    forall m, id | GivenTitle(part, m, id)
      ensures GivenTitle(acts, m, id)
    {
      var o :| PoolModel.GiveTitle(m, id, o) in part;
      assert PoolModel.GiveTitle(m, id, o) in acts;
    }
  }

  ghost predicate TitlesFor(acts: seq<Action>, m: Member, pool: seq<string>)
  {
    forall a :: a in acts ==> a.GiveTitle? && a.m == m && a.id in pool
  }

  ghost predicate GivenUpTo(acts: seq<Action>, m: Member, pool: seq<string>, i: nat)
    requires i <= |pool|
  {
    forall k :: 0 <= k < i ==> GivenTitle(acts, m, pool[k])
  }

  lemma GivenMore(acts: seq<Action>, a: Action, m: Member, pool: seq<string>, i: nat)
    requires i < |pool| && TitlesFor(acts, m, pool) && GivenUpTo(acts, m, pool, i)
    requires a.GiveTitle? && a.m == m && a.id == pool[i]
    ensures TitlesFor(acts + [a], m, pool) && GivenUpTo(acts + [a], m, pool, i + 1)
  {
    StillGiven(acts, acts + [a]);
    assert PoolModel.GiveTitle(m, pool[i], a.o) == a && a in acts + [a];
    assert GivenTitle(acts + [a], m, pool[i]);
  }

  lemma GivenToEnd(acts: seq<Action>, m: Member, pool: seq<string>)
    requires GivenUpTo(acts, m, pool, |pool|)
    ensures forall id :: id in pool ==> GivenTitle(acts, m, id)
  {
  }

  ghost predicate FoldersFor(acts: seq<Action>, m: Member)
  {
    forall a :: a in acts ==> a.GiveFolder? && a.m == m
  }

  ghost predicate FoldersGivenUpTo(acts: seq<Action>, m: Member, names: seq<string>, i: nat)
    requires i <= |names|
  {
    forall k :: 0 <= k < i ==> GivenFolder(acts, m, names[k])
  }

  lemma FolderGivenMore(acts: seq<Action>, a: Action, m: Member, names: seq<string>, i: nat)
    requires i < |names| && FoldersFor(acts, m) && FoldersGivenUpTo(acts, m, names, i)
    requires a.GiveFolder? && a.m == m && a.name == names[i]
    ensures FoldersFor(acts + [a], m) && FoldersGivenUpTo(acts + [a], m, names, i + 1)
  {
    StillGivenFolders(acts, acts + [a]);
    assert PoolModel.GiveFolder(m, names[i], a.o) == a && a in acts + [a];
    assert GivenFolder(acts + [a], m, names[i]);
  }

  lemma FoldersGivenToEnd(acts: seq<Action>, m: Member, names: seq<string>, all: set<string>)
    requires FoldersGivenUpTo(acts, m, names, |names|) && forall name :: name in all ==> name in names
    ensures FoldersGiven(acts, m, all)
  {
  }

  /** Both halves of the distribution have been gone through for the member. */
  ghost predicate Offered(acts: seq<Action>, m: Member, scans: set<Member>, ids: set<string>, names: set<string>)
  {
    MemberGiven(acts, m, ids) && (m in scans ==> FoldersGiven(acts, m, names))
  }

  lemma StillOffered(part: seq<Action>, acts: seq<Action>, scans: set<Member>, ids: set<string>, names: set<string>)
    requires forall a :: a in part ==> a in acts
    ensures forall m :: Offered(part, m, scans, ids, names) ==> Offered(acts, m, scans, ids, names)
  {
    StillGiven(part, acts);
    StillGivenFolders(part, acts);
  }

  lemma OfferedMore(acts: seq<Action>, more: seq<Action>, members: seq<Member>, i: nat, scans: set<Member>,
                    ids: set<string>, names: set<string>, before: bool, now: bool)
    requires i < |members|
    requires before ==> forall k :: 0 <= k < i ==> Offered(acts, members[k], scans, ids, names)
    requires now ==> Offered(more, members[i], scans, ids, names)
    ensures before && now ==> forall k :: 0 <= k < i + 1 ==> Offered(acts + more, members[k], scans, ids, names)
  {
    StillOffered(acts, acts + more, scans, ids, names);
    StillOffered(more, acts + more, scans, ids, names);
  }

  lemma StillGivenFolders(part: seq<Action>, acts: seq<Action>)
    requires forall a :: a in part ==> a in acts
    ensures forall m, name :: GivenFolder(part, m, name) ==> GivenFolder(acts, m, name)
    ensures forall m, names :: FoldersGiven(part, m, names) ==> FoldersGiven(acts, m, names)
  {
    forall m, name | GivenFolder(part, m, name)
      ensures GivenFolder(acts, m, name)
    {
      var o :| PoolModel.GiveFolder(m, name, o) in part;
      assert PoolModel.GiveFolder(m, name, o) in acts;
    }
  }

  /** The libraries a pass reads: the watched ones no member stands for, and the members'. */
  ghost function Homes(sources: seq<string>, members: seq<Member>): set<string>
  {
    (set s | s in sources && !Joined(members, s)) + (set m | m in members :: m.home)
  }

  /** What one call of Sync comes to: a harvest of what is there followed by a distribution,
      and, when it met no problem, all of both, with no loop stopped. */
  ghost predicate Synced(w: World, v: World, problems: nat, report: Report, harvest: seq<Action>, gives: seq<Action>,
                         members: seq<Member>, now: int)
  {
    var homes := Homes(w.ledger.sources, members);
    && Ran(w, v, harvest + gives, report, now, problems == 0)
    && OnlyHarvest(harvest) && Among(harvest, members, homes) && OnlyThere(w, harvest)
    && OnlyGives(gives) && Among(gives, members, homes)
    && (problems == 0 ==> WholePass(w, harvest, gives, now, members, homes))
  }

  /** The keys of a map, in whatever order they are read. */
  method Listed<T>(m: map<string, T>) returns (keys: seq<string>)
    ensures forall k :: k in keys <==> k in m
  {
    keys := [];
    var rest := m.Keys;
    while rest != {}
      invariant rest <= m.Keys
      invariant forall k :: k in keys <==> k in m && k !in rest
    {
      var k :| k in rest;
      keys := keys + [k];
      rest := rest - {k};
    }
  }

  /** Every name a manifest or the ledger gives for a directory is a usable one, as
      parseManifest and the scans see to. */
  ghost predicate Usable(w: World)
  {
    && (forall id :: id in w.store.apps ==> w.store.apps[id].dir == "" || SafeName(w.store.apps[id].dir))
    && (forall home, id :: home in w.at && id in w.at[home].apps ==>
          w.at[home].apps[id].dir == "" || SafeName(w.at[home].apps[id].dir))
    && (forall name :: name in w.ledger.folders ==> SafeName(name))
  }

  lemma UsableKeeps(w: World, v: World, now: int)
    requires Usable(w) && AppsFrom(w, v, now)
    requires forall name :: name in v.ledger.folders ==> name in w.ledger.folders || SafeName(name)
    ensures Usable(v)
  {
    forall id | id in v.store.apps
      ensures v.store.apps[id].dir == "" || SafeName(v.store.apps[id].dir)
    {
      var home := FromStore(w, v, now, id);
    }
    forall home, id | home in v.at && id in v.at[home].apps
      ensures v.at[home].apps[id].dir == "" || SafeName(v.at[home].apps[id].dir)
    {
      FromLibrary(w, v, now, home, id);
    }
  }

  lemma UsableAct(w: World, a: Action, now: int)
    requires Usable(w)
    ensures Usable(Apply(w, a, now))
  {
    ActAppsFrom(w, a, now);
    var v := Apply(w, a, now);
    assert forall name :: name in v.ledger.folders ==> name in w.ledger.folders || SafeName(name);
    UsableKeeps(w, v, now);
  }

  /** A round that did what the model says. */
  lemma DidRound(w: World, v: World, a: Action, r: Report, now: int, clear: bool)
    requires Usable(w) && v == Apply(w, a, now) && r == Says(w, a, now)
    requires Plausible(w, a, now) && (!Stops(w, a, now) ==> Able(w, a, now))
    requires clear && Able(w, a, now) ==> !Stops(w, a, now)
    ensures Went(w, v, [a], r, now, !Stops(w, a, now), clear) && Usable(v)
  {
    WentOne(w, a, now, clear);
    UsableAct(w, a, now);
  }

  class Pool {
    var ledger: Ledger
    var store: Store
    const quiet: int
    const disk: Disk

    constructor (l: Ledger, s: Store, q: int, disk: Disk)
      ensures ledger == l && store == s && quiet == q && this.disk == disk
    {
      ledger, store, quiet := l, s, q;
      this.disk := disk;
    }

    ghost function State(libs: Libraries): World
      reads this, libs
    {
      World(ledger, store, libs.at, quiet)
    }

    /** cloneAt on a copy of a directory's entries: what it leaves, and whether what follows
        a clone works as well. */
    method CloneTo(e: map<string, Node>, name: string, src: Node, private: bool) returns (o: PoolModel.Outcome)
      requires SafeName(name)
      modifies disk
      ensures disk.faults >= old(disk.faults)
      ensures Leaves(e, name, src, private, o)
      ensures o.ok ==> CanClone(Present(src), e, name, private)
      ensures disk.faults == old(disk.faults) && CanClone(Present(src), e, name, private) ==> o.ok && o.after
    {
      var dir := new Directory(e, disk);
      var ok, staging := dir.CloneAt(Present(src), name, private);
      var after := disk.Attempt();
      o := PoolModel.Outcome(dir.entries, ok, after);
      if ok {
        OwnedIsThere(e, name);
        assert OnlyThese(e, o.left, {name, OldName(name), staging});
      } else {
        assert TakenBack(e, name, private, o.left, staging, OldName(name) !in dir.unstamped);
      }
    }

    /** mark. */
    method MarkTitle(seat: string, key: string, status: Status)
      modifies this`ledger
      ensures ledger == Mark(old(ledger), seat, key, status)
    {
      if StatusOf(ledger, seat, key) == Some(Declined) && status == Delivered {
        return;
      }
      var marks := if seat in ledger.delivered then ledger.delivered[seat] else map[];
      ledger := ledger.(delivered := ledger.delivered[seat := marks[key := status]]);
    }

    // -------------------------------------------------------------- harvesting

    /** Whether a library's copy of a title is one to take. */
    method TitleWanted(libs: Libraries, home: string, id: string, now: int) returns (take: bool)
      requires Usable(State(libs)) && home in libs.at && id in libs.at[home].apps
      ensures take == Takes(State(libs), home, id, now)
    {
      var lib := libs.at[home];
      var app := lib.apps[id];
      take := Installed(app) && Quiet(app, now, quiet) && app.id !in ledger.withheld;
      if take && Whole(store, id) && !NewerBuild(app.build, store.apps[id].build) {
        take := false;
      }
      take := take && HasDir(Dirs(lib.common), app.dir);
    }

    /** One round of harvestFrom. */
    method TakeTitle(libs: Libraries, home: string, from: string, id: string, now: int)
      returns (stop: bool, r: Report, ghost a: Action)
      requires Usable(State(libs)) && home in libs.at && id in libs.at[home].apps
      modifies this`store, disk
      ensures disk.faults >= old(disk.faults)
      ensures var w := old(State(libs));
        && a.TakeTitle? && a.home == home && a.from == from && a.id == id
        && Went(w, State(libs), [a], r, now, !stop, disk.faults == old(disk.faults))
        && stop == Stops(w, a, now)
        && Usable(State(libs))
    {
      ghost var w := State(libs);
      var o := PoolModel.Outcome(map[], true, true);
      stop, r := false, NOTHING;
      var take := TitleWanted(libs, home, id, now);
      if take {
        var app := libs.at[home].apps[id];
        o := CloneTo(store.common, app.dir, Dirs(libs.at[home].common)[app.dir], false);
        store := store.(common := o.left);
        stop := !o.ok || !o.after;
        if !stop {
          store := store.(apps := store.apps[id := app.(modTime := now)]);
          r := NOTHING.(harvested := [Move(id, from)]);
        }
      }
      a := PoolModel.TakeTitle(home, from, id, o);
      DidRound(w, State(libs), a, r, now, disk.faults == old(disk.faults));
    }

    /** harvestFrom: takes what is finished and newer out of one library. */
    method HarvestFrom(libs: Libraries, home: string, from: string, now: int)
      returns (ok: bool, r: Report, ghost acts: seq<Action>)
      requires Usable(State(libs)) && home in libs.at
      modifies this`store, disk
      ensures disk.faults >= old(disk.faults)
      ensures Went(old(State(libs)), State(libs), acts, r, now, ok, disk.faults == old(disk.faults))
      ensures Usable(State(libs))
      ensures OnlyFrom(acts, home)
      ensures ok ==> forall id :: id in libs.at[home].apps ==> Taken(acts, home, from, id)
    {
      ghost var w := State(libs);
      r, acts := NOTHING, [];
      ok := disk.Attempt(); // the opens of the common directories
      WentNothing(w, now);
      if !ok {
        return;
      }
      var ids := Listed(libs.at[home].apps);
      for i := 0 to |ids|
        invariant disk.faults >= old(disk.faults)
        invariant Went(w, State(libs), acts, r, now, true, disk.faults == old(disk.faults)) && Usable(State(libs))
        invariant OnlyFrom(acts, home) && TakenUpTo(acts, home, from, ids, i)
      {
        ghost var v, was := State(libs), disk.faults;
        ghost var a;
        var stop, s;
        stop, s, a := TakeTitle(libs, home, from, ids[i], now);
        WentMore(w, v, State(libs), acts, [a], r, s, now, true, !stop, was == old(disk.faults), disk.faults == was);
        TakenMore(acts, a, home, from, ids, i);
        acts, r := acts + [a], Both(r, s);
        if stop {
          ok := false;
          return;
        }
      }
      TakenToEnd(acts, home, from, ids);
    }

    /** harvest: everything present is marked, then taken where it is newer. */
    method Harvest(libs: Libraries, m: Member, now: int) returns (ok: bool, r: Report, ghost acts: seq<Action>)
      requires Usable(State(libs)) && m.home in libs.at
      modifies this, disk
      ensures disk.faults >= old(disk.faults)
      ensures Went(old(State(libs)), State(libs), acts, r, now, ok, disk.faults == old(disk.faults))
      ensures Usable(State(libs))
      ensures OfMember(libs.at, acts, m)
      ensures ok ==> LibraryTaken(libs.at, acts, m.home) && MemberSeen(libs.at, acts, m)
    {
      ghost var w := State(libs);
      r, acts := NOTHING, [];
      WentNothing(w, now);
      var ids := Listed(libs.at[m.home].apps);
      for i := 0 to |ids|
        invariant disk.faults >= old(disk.faults)
        invariant Went(w, State(libs), acts, r, now, true, disk.faults == old(disk.faults)) && Usable(State(libs))
        invariant r == NOTHING
        invariant forall a :: a in acts ==> a.SeePresent? && a.m == m && a.id in libs.at[m.home].apps
        invariant forall k :: 0 <= k < i ==> SeePresent(m, ids[k]) in acts
      {
        ghost var v, was := State(libs), disk.faults;
        ghost var a := SeePresent(m, ids[i]);
        MarkTitle(m.name, ids[i], Delivered);
        WentOne(v, a, now, true);
        WentMore(w, v, State(libs), acts, [a], r, NOTHING, now, true, true, was == old(disk.faults),
                 disk.faults == was);
        BothNothing(NOTHING);
        acts := acts + [a];
      }
      ghost var v, was := State(libs), disk.faults;
      var s;
      ghost var more;
      ok, s, more := HarvestFrom(libs, m.home, m.name, now);
      WentMore(w, v, State(libs), acts, more, r, s, now, true, ok, was == old(disk.faults), disk.faults == was);
      BothNothing(s);
      acts, r := acts + more, s;
      StillHarvested(more, acts);
    }

    /** The copy of a folder, and the record of it. */
    method StoreFolder(src: Node, name: string) returns (o: PoolModel.Outcome)
      requires SafeName(name)
      modifies this`ledger, this`store, disk
      ensures disk.faults >= old(disk.faults)
      ensures Leaves(old(store).shared, name, src, true, o)
      ensures o.ok ==> CanClone(Present(src), old(store).shared, name, true)
      ensures disk.faults == old(disk.faults) && CanClone(Present(src), old(store).shared, name, true)
        ==> o.ok && o.after
      ensures store == old(store).(shared := o.left)
      ensures ledger == if !Stored(o, name) then old(ledger)
                        else old(ledger).(folders := old(ledger).folders[name := VersionAt(o.left, name)])
    {
      o := CloneTo(store.shared, name, src, true);
      store := store.(shared := o.left);
      if Stored(o, name) {
        var stored := MeasureAt(Dir(0, store.shared), name);
        ledger := ledger.(folders := ledger.folders[name := stored]);
      }
    }

    /** One round of harvestFolders. */
    method TakeFolder(libs: Libraries, m: Member, name: string, now: int)
      returns (stop: bool, r: Report, ghost a: Action)
      requires Usable(State(libs)) && Scanned(State(libs), m.home, name)
      modifies this, disk
      ensures disk.faults >= old(disk.faults)
      ensures var w := old(State(libs));
        && a.TakeFolder? && a.m == m && a.name == name
        && Went(w, State(libs), [a], r, now, !stop, disk.faults == old(disk.faults))
        && stop == Stops(w, a, now)
        && Usable(State(libs)) && store.apps == old(store).apps
    {
      ghost var w := State(libs);
      var o := PoolModel.Outcome(map[], true, true);
      stop, r := false, NOTHING;
      MarkTitle(m.name, FolderKey(name), Delivered);
      var here := Dirs(libs.at[m.home].shared);
      var mine := MeasureAt(Dir(0, here), name);
      if Settled(mine, now, quiet)
        && !(name in ledger.folders && HasDir(store.shared, name) && !NewerVersion(mine, ledger.folders[name])) {
        o := StoreFolder(here[name], name);
        stop := !Stored(o, name);
        if !stop {
          r := NOTHING.(harvested := [Move(FolderKey(name), m.name)]);
        }
      }
      a := PoolModel.TakeFolder(m, name, o);
      DidRound(w, State(libs), a, r, now, disk.faults == old(disk.faults));
    }

    /** harvestFolders: the folders of a member that takes part in this side. */
    method HarvestFolders(libs: Libraries, m: Member, now: int) returns (ok: bool, r: Report, ghost acts: seq<Action>)
      requires Usable(State(libs)) && m.home in libs.at
      modifies this, disk
      ensures disk.faults >= old(disk.faults)
      ensures Went(old(State(libs)), State(libs), acts, r, now, ok, disk.faults == old(disk.faults))
      ensures Usable(State(libs))
      ensures store.apps == old(store).apps
      ensures FoldersOf(old(State(libs)), acts, m)
      ensures ok ==> FoldersTaken(old(State(libs)), acts, m)
    {
      ghost var w := State(libs);
      r, acts := NOTHING, [];
      ok := disk.Attempt(); // the open of the pool's folders
      WentNothing(w, now);
      if !ok {
        return;
      }
      var here := Dirs(libs.at[m.home].shared);
      var names := Listed(here);
      for i := 0 to |names|
        invariant disk.faults >= old(disk.faults)
        invariant Went(w, State(libs), acts, r, now, true, disk.faults == old(disk.faults)) && Usable(State(libs))
        invariant store.apps == old(store).apps
        invariant FoldersOf(w, acts, m) && FoldersUpTo(w, acts, m, names, i)
      {
        if HasDir(here, names[i]) && SafeName(names[i]) {
          ghost var v, was := State(libs), disk.faults;
          ghost var a;
          var stop, s;
          stop, s, a := TakeFolder(libs, m, names[i], now);
          WentMore(w, v, State(libs), acts, [a], r, s, now, true, !stop, was == old(disk.faults), disk.faults == was);
          FolderMore(w, acts, a, m, names, i);
          acts, r := acts + [a], Both(r, s);
          if stop {
            ok := false;
            return;
          }
        }
      }
      FoldersToEnd(w, acts, m, names);
    }

    // ------------------------------------------------------------- distributing

    /** The switch of distribute. */
    method TitleVerdict(libs: Libraries, m: Member, id: string) returns (d: Decision)
      requires m.home in libs.at && id in store.apps
      ensures d == DecideTitle(State(libs), m, id)
    {
      var app, here := store.apps[id], libs.at[m.home];
      d := Skip;
      if Installed(app) {
        if id in here.apps && !NewerBuild(app.build, here.apps[id].build) {
          // current, or ahead of the pool
        } else if id in here.apps && !m.updatable {
          d := Pend;
        } else if id in here.apps {
          d := Give;
        } else if StatusOf(ledger, m.name, id) == Some(Declined) {
          // turned down before
        } else if StatusOf(ledger, m.name, id) == Some(Delivered) {
          d := Decline;
        } else {
          d := Give;
        }
      }
      if d == Give && !HasDir(store.common, app.dir) {
        d := Skip;
      }
    }

    /** One round of distribute. */
    method GiveTitle(libs: Libraries, m: Member, id: string, now: int) returns (stop: bool, r: Report, ghost a: Action)
      requires Usable(State(libs)) && m.home in libs.at && id in store.apps
      modifies this`ledger, libs, disk
      ensures disk.faults >= old(disk.faults)
      ensures var w := old(State(libs));
        && a.GiveTitle? && a.m == m && a.id == id
        && Went(w, State(libs), [a], r, now, !stop, disk.faults == old(disk.faults))
        && stop == Stops(w, a, now)
        && Usable(State(libs)) && libs.at.Keys == old(libs.at).Keys
        && ledger.folders == old(ledger).folders
    {
      ghost var w := State(libs);
      var o := PoolModel.Outcome(map[], true, true);
      stop, r := false, NOTHING;
      var d := TitleVerdict(libs, m, id);
      if d == Pend {
        r := NOTHING.(pending := [Move(id, m.name)]);
      } else if d == Decline {
        MarkTitle(m.name, id, Declined);
        r := NOTHING.(declined := [Move(id, m.name)]);
      } else if d == Give {
        var app, here := store.apps[id], libs.at[m.home];
        o := CloneTo(Dirs(here.common), app.dir, store.common[app.dir], false);
        here := here.(common := Some(o.left));
        stop := !o.ok || !o.after;
        if !stop {
          here := here.(apps := here.apps[id := app.(modTime := now)]);
          MarkTitle(m.name, id, Delivered);
          r := NOTHING.(delivered := [Move(id, m.name)]);
        }
        libs.at := libs.at[m.home := here];
      }
      a := PoolModel.GiveTitle(m, id, o);
      DidRound(w, State(libs), a, r, now, disk.faults == old(disk.faults));
    }

    /** The switch of distributeFolders. */
    method FolderVerdict(libs: Libraries, m: Member, name: string) returns (d: Decision)
      requires m.home in libs.at && libs.at[m.home].shared.Some? && name in ledger.folders
      ensures d == DecideFolder(State(libs), m, name)
    {
      d := Skip;
      if HasDir(store.shared, name) {
        var pooled, here := ledger.folders[name], Dirs(libs.at[m.home].shared);
        var have := HasDir(here, name) && SafeName(name);
        var current := false;
        if have {
          var mine := MeasureAt(Dir(0, here), name);
          current := !NewerVersion(pooled, mine);
        }
        if current {
          // nothing to send
        } else if have && !m.updatable {
          d := Pend;
        } else if have {
          d := Give;
        } else if StatusOf(ledger, m.name, FolderKey(name)) == Some(Declined) {
          // turned down before
        } else if StatusOf(ledger, m.name, FolderKey(name)) == Some(Delivered) {
          d := Decline;
        } else {
          d := Give;
        }
      }
    }

    /** The copy of a folder for a member, and the mark. */
    method HandFolder(libs: Libraries, m: Member, name: string) returns (o: PoolModel.Outcome)
      requires m.home in libs.at && SafeName(name) && name in store.shared
      modifies this`ledger, libs, disk
      ensures disk.faults >= old(disk.faults)
      ensures var e := Dirs(old(libs.at)[m.home].shared);
        && Leaves(e, name, store.shared[name], true, o)
        && (o.ok ==> CanClone(Present(store.shared[name]), e, name, true))
        && (disk.faults == old(disk.faults) && CanClone(Present(store.shared[name]), e, name, true) ==> o.ok && o.after)
      ensures libs.at == old(libs.at)[m.home := old(libs.at)[m.home].(shared := Some(o.left))]
      ensures ledger == if o.ok then Mark(old(ledger), m.name, FolderKey(name), Delivered) else old(ledger)
    {
      var here := libs.at[m.home];
      o := CloneTo(Dirs(here.shared), name, store.shared[name], true);
      if o.ok {
        MarkTitle(m.name, FolderKey(name), Delivered);
      }
      libs.at := libs.at[m.home := here.(shared := Some(o.left))];
    }

    /** One round of distributeFolders. */
    method GiveFolder(libs: Libraries, m: Member, name: string, now: int)
      returns (stop: bool, r: Report, ghost a: Action)
      requires Usable(State(libs)) && m.home in libs.at && libs.at[m.home].shared.Some? && name in ledger.folders
      modifies this`ledger, libs, disk
      ensures disk.faults >= old(disk.faults)
      ensures var w := old(State(libs));
        && a.GiveFolder? && a.m == m && a.name == name
        && Went(w, State(libs), [a], r, now, !stop, disk.faults == old(disk.faults))
        && stop == Stops(w, a, now)
        && Usable(State(libs)) && libs.at.Keys == old(libs.at).Keys && libs.at[m.home].shared.Some?
        && ledger.folders == old(ledger).folders
    {
      ghost var w := State(libs);
      var o := PoolModel.Outcome(map[], true, true);
      stop, r := false, NOTHING;
      var d := FolderVerdict(libs, m, name);
      if d == Pend {
        r := NOTHING.(pending := [Move(FolderKey(name), m.name)]);
      } else if d == Decline {
        MarkTitle(m.name, FolderKey(name), Declined);
        r := NOTHING.(declined := [Move(FolderKey(name), m.name)]);
      } else if d == Give {
        o := HandFolder(libs, m, name);
        stop := !o.ok;
        if o.ok {
          r := NOTHING.(delivered := [Move(FolderKey(name), m.name)]);
        }
      }
      a := PoolModel.GiveFolder(m, name, o);
      DidRound(w, State(libs), a, r, now, disk.faults == old(disk.faults));
    }

    /** distribute: everything in the pool is offered to one member. */
    method Distribute(libs: Libraries, m: Member, pool: seq<string>, now: int)
      returns (ok: bool, r: Report, ghost acts: seq<Action>)
      requires Usable(State(libs)) && m.home in libs.at && forall id :: id in pool ==> id in store.apps
      modifies this`ledger, libs, disk
      ensures disk.faults >= old(disk.faults)
      ensures Went(old(State(libs)), State(libs), acts, r, now, ok, disk.faults == old(disk.faults))
      ensures Usable(State(libs))
      ensures libs.at.Keys == old(libs.at).Keys && ledger.folders == old(ledger).folders
      ensures TitlesFor(acts, m, pool)
      ensures ok ==> forall id :: id in pool ==> GivenTitle(acts, m, id)
    {
      ghost var w := State(libs);
      ok, r, acts := true, NOTHING, [];
      WentNothing(w, now);
      for i := 0 to |pool|
        invariant disk.faults >= old(disk.faults)
        invariant Went(w, State(libs), acts, r, now, true, disk.faults == old(disk.faults)) && Usable(State(libs))
        invariant libs.at.Keys == old(libs.at).Keys && ledger.folders == old(ledger).folders
        invariant TitlesFor(acts, m, pool) && GivenUpTo(acts, m, pool, i)
      {
        ghost var v, was := State(libs), disk.faults;
        ghost var a;
        var stop, s;
        stop, s, a := GiveTitle(libs, m, pool[i], now);
        WentMore(w, v, State(libs), acts, [a], r, s, now, true, !stop, was == old(disk.faults), disk.faults == was);
        GivenMore(acts, a, m, pool, i);
        acts, r := acts + [a], Both(r, s);
        if stop {
          ok := false;
          return;
        }
      }
      GivenToEnd(acts, m, pool);
    }

    /** distributeFolders: every recorded folder is offered to one member. */
    method DistributeFolders(libs: Libraries, m: Member, now: int)
      returns (ok: bool, r: Report, ghost acts: seq<Action>)
      requires Usable(State(libs)) && m.home in libs.at && libs.at[m.home].shared.Some?
      modifies this`ledger, libs, disk
      ensures disk.faults >= old(disk.faults)
      ensures Went(old(State(libs)), State(libs), acts, r, now, ok, disk.faults == old(disk.faults))
      ensures Usable(State(libs))
      ensures libs.at.Keys == old(libs.at).Keys && ledger.folders == old(ledger).folders
      ensures FoldersFor(acts, m)
      ensures ok ==> FoldersGiven(acts, m, ledger.folders.Keys)
    {
      ghost var w := State(libs);
      ok, r, acts := true, NOTHING, [];
      WentNothing(w, now);
      var names := Listed(ledger.folders);
      for i := 0 to |names|
        invariant disk.faults >= old(disk.faults)
        invariant Went(w, State(libs), acts, r, now, true, disk.faults == old(disk.faults)) && Usable(State(libs))
        invariant libs.at.Keys == old(libs.at).Keys && libs.at[m.home].shared.Some?
        invariant ledger.folders == old(ledger).folders
        invariant FoldersFor(acts, m) && FoldersGivenUpTo(acts, m, names, i)
      {
        ghost var v, was := State(libs), disk.faults;
        ghost var a;
        var stop, s;
        stop, s, a := GiveFolder(libs, m, names[i], now);
        WentMore(w, v, State(libs), acts, [a], r, s, now, true, !stop, was == old(disk.faults), disk.faults == was);
        FolderGivenMore(acts, a, m, names, i);
        acts, r := acts + [a], Both(r, s);
        if stop {
          ok := false;
          return;
        }
      }
      FoldersGivenToEnd(acts, m, names, ledger.folders.Keys);
    }

    // ------------------------------------------------------------------ syncing

    /** The first loop of Sync: outside libraries, so that what the host updated is in the
        pool by the time the members are looked at. */
    method HarvestSources(libs: Libraries, members: seq<Member>, now: int)
      returns (problems: nat, r: Report, ghost acts: seq<Action>)
      requires Usable(State(libs))
      modifies this`store, disk
      ensures disk.faults >= old(disk.faults)
      ensures Went(old(State(libs)), State(libs), acts, r, now, problems == 0,
                   disk.faults == old(disk.faults)
                     && SourcesThere(libs.at, ledger.sources, members)) && Usable(State(libs))
      ensures forall a :: a in acts ==> a.TakeTitle? && a.home in Homes(ledger.sources, members)
      ensures problems == 0 ==>
        forall s :: s in ledger.sources && !Joined(members, s) ==> LibraryTaken(libs.at, acts, s)
    {
      ghost var w := State(libs);
      problems, r, acts := 0, NOTHING, [];
      WentNothing(w, now);
      for i := 0 to |ledger.sources|
        invariant disk.faults >= old(disk.faults)
        invariant Went(w, State(libs), acts, r, now, problems == 0,
                       disk.faults == old(disk.faults)
                         && SourcesThere(libs.at, ledger.sources, members)) && Usable(State(libs))
        invariant forall a :: a in acts ==> a.TakeTitle? && a.home in Homes(ledger.sources, members)
        invariant problems == 0 ==>
          forall k :: 0 <= k < i && !Joined(members, ledger.sources[k]) ==>
            LibraryTaken(libs.at, acts, ledger.sources[k])
      {
        var source := ledger.sources[i];
        if !Joined(members, source) {
          var ok := disk.Attempt();
          if ok && source in libs.at {
            ghost var v, was := State(libs), disk.faults;
            ghost var more;
            var s;
            ok, s, more := HarvestFrom(libs, source, "host", now);
            WentMore(w, v, State(libs), acts, more, r, s, now, problems == 0, ok,
                     was == old(disk.faults) && SourcesThere(libs.at, ledger.sources, members), disk.faults == was);
            StillHarvested(acts, acts + more);
            StillHarvested(more, acts + more);
            acts, r := acts + more, Both(r, s);
          } else {
            ok := false;
          }
          problems := if ok then problems else problems + 1;
        }
      }
    }

    /** The members whose library could be prepared. */
    method Ready(members: seq<Member>) returns (problems: nat, ready: seq<Member>)
      modifies disk
      ensures disk.faults >= old(disk.faults) && (disk.faults == old(disk.faults) ==> problems == 0)
      ensures forall m :: m in ready ==> m in members
      ensures problems == 0 ==> ready == members
    {
      problems, ready := 0, [];
      for i := 0 to |members|
        invariant disk.faults >= old(disk.faults) && (disk.faults == old(disk.faults) ==> problems == 0)
        invariant forall m :: m in ready ==> m in members
        invariant problems == 0 ==> ready == members[..i]
      {
        var ok := disk.Attempt();
        if ok {
          ready := ready + [members[i]];
        } else {
          problems := problems + 1;
        }
      }
    }

    method HarvestMembers(libs: Libraries, members: seq<Member>, now: int)
      returns (problems: nat, r: Report, ghost acts: seq<Action>)
      requires Usable(State(libs))
      modifies this, disk
      ensures disk.faults >= old(disk.faults)
      ensures Went(old(State(libs)), State(libs), acts, r, now, problems == 0,
                   disk.faults == old(disk.faults) && MembersThere(libs.at, members)) && Usable(State(libs))
      ensures OfMembers(old(State(libs)), acts, members)
      ensures problems == 0 ==> HarvestedUpTo(libs.at, acts, members, |members|)
    {
      ghost var w := State(libs);
      problems, r, acts := 0, NOTHING, [];
      WentNothing(w, now);
      for i := 0 to |members|
        invariant disk.faults >= old(disk.faults)
        invariant Went(w, State(libs), acts, r, now, problems == 0,
                       disk.faults == old(disk.faults) && MembersThere(libs.at, members)) && Usable(State(libs))
        invariant OfMembers(w, acts, members)
        invariant problems == 0 ==> HarvestedUpTo(libs.at, acts, members, i)
      {
        var m := members[i];
        var ok := disk.Attempt();
        if ok && m.home in libs.at {
          ghost var v, was := State(libs), disk.faults;
          ghost var more;
          var s;
          ok, s, more := Harvest(libs, m, now);
          WentMore(w, v, State(libs), acts, more, r, s, now, problems == 0, ok,
                   was == old(disk.faults) && MembersThere(libs.at, members), disk.faults == was);
          HarvestedMore(w, acts, more, members, i, problems == 0, ok);
          acts, r := acts + more, Both(r, s);
        } else {
          ok := false;
        }
        problems := if ok then problems else problems + 1;
      }
    }

    /** The folder half of the harvest for one member, and whether it got as far as reading
        its folders. */
    method HarvestFoldersOf(libs: Libraries, m: Member, now: int)
      returns (ok: bool, scanned: bool, r: Report, ghost acts: seq<Action>)
      requires Usable(State(libs))
      modifies this, disk
      ensures disk.faults >= old(disk.faults)
      ensures Went(old(State(libs)), State(libs), acts, r, now, ok, disk.faults == old(disk.faults))
      ensures Usable(State(libs))
      ensures store.apps == old(store).apps
      ensures FoldersOf(old(State(libs)), acts, m)
      ensures scanned ==> m.home in libs.at && libs.at[m.home].shared.Some?
      ensures ok ==> FoldersTaken(old(State(libs)), acts, m)
      ensures ok && m.home in libs.at && libs.at[m.home].shared.Some? ==> scanned
    {
      ghost var w := State(libs);
      scanned, r, acts := false, NOTHING, [];
      WentNothing(w, now);
      ok := disk.Attempt();
      if ok && m.home in libs.at && libs.at[m.home].shared.Some? {
        ok, r, acts := HarvestFolders(libs, m, now);
        scanned := true;
      }
    }

    /** The folder half of the harvest; answers with the members whose folders were read. */
    method HarvestAllFolders(libs: Libraries, members: seq<Member>, now: int)
      returns (problems: nat, r: Report, scans: set<Member>, ghost acts: seq<Action>)
      requires Usable(State(libs))
      modifies this, disk
      ensures disk.faults >= old(disk.faults)
      ensures Went(old(State(libs)), State(libs), acts, r, now, problems == 0, disk.faults == old(disk.faults))
      ensures Usable(State(libs))
      ensures store.apps == old(store).apps
      ensures FoldersOfAll(old(State(libs)), acts, members)
      ensures problems == 0 ==> ScannedUpTo(old(State(libs)), acts, scans, members, |members|)
      ensures forall m :: m in scans ==> m.home in libs.at && libs.at[m.home].shared.Some?
    {
      ghost var w := State(libs);
      problems, r, scans, acts := 0, NOTHING, {}, [];
      WentNothing(w, now);
      for i := 0 to |members|
        invariant disk.faults >= old(disk.faults)
        invariant Went(w, State(libs), acts, r, now, problems == 0, disk.faults == old(disk.faults))
        invariant Usable(State(libs))
        invariant store.apps == old(store).apps
        invariant FoldersOfAll(w, acts, members)
        invariant problems == 0 ==> ScannedUpTo(w, acts, scans, members, i)
        invariant forall m :: m in scans ==> m.home in libs.at && libs.at[m.home].shared.Some?
      {
        ghost var v, was := State(libs), disk.faults;
        ghost var more;
        var ok, scanned, s;
        ok, scanned, s, more := HarvestFoldersOf(libs, members[i], now);
        SameScan(v, w);
        WentMore(w, v, State(libs), acts, more, r, s, now, problems == 0, ok, was == old(disk.faults),
                 disk.faults == was);
        ScannedMore(w, acts, more, scans, scanned, members, i, problems == 0, ok);
        acts, r := acts + more, Both(r, s);
        scans := if scanned then scans + {members[i]} else scans;
        problems := if ok then problems else problems + 1;
      }
    }

    /** Both halves of the distribution for one member. */
    method OfferTo(libs: Libraries, m: Member, scanned: bool, pool: seq<string>, now: int)
      returns (problems: nat, r: Report, ghost acts: seq<Action>)
      requires Usable(State(libs)) && forall id :: id in pool ==> id in store.apps
      modifies this`ledger, libs, disk
      ensures disk.faults >= old(disk.faults)
      ensures Went(old(State(libs)), State(libs), acts, r, now, problems == 0,
                   disk.faults == old(disk.faults) && TakesPart(old(libs.at), m, scanned)) && Usable(State(libs))
      ensures libs.at.Keys == old(libs.at).Keys && ledger.folders == old(ledger).folders
      ensures forall a :: a in acts ==> ((a.GiveTitle? && a.id in pool) || a.GiveFolder?) && a.m == m
      ensures problems == 0 ==>
        MemberGiven(acts, m, set id | id in pool) && (scanned ==> FoldersGiven(acts, m, ledger.folders.Keys))
    {
      ghost var w := State(libs);
      problems, r, acts := 0, NOTHING, [];
      WentNothing(w, now);
      var ok := disk.Attempt();
      if ok && m.home in libs.at {
        ok, r, acts := Distribute(libs, m, pool, now);
      } else {
        ok := false;
      }
      problems := if ok then 0 else 1;
      ghost var mid := disk.faults == old(disk.faults) && TakesPart(w.at, m, scanned);
      SharedHere(w, acts, now, m.home);
      if scanned {
        ok := disk.Attempt();
        if ok && m.home in libs.at && libs.at[m.home].shared.Some? {
          ghost var v, was := State(libs), disk.faults;
          ghost var more;
          var s;
          ok, s, more := DistributeFolders(libs, m, now);
          WentMore(w, v, State(libs), acts, more, r, s, now, problems == 0, ok, mid, disk.faults == was);
          StillGiven(acts, acts + more);
          StillGivenFolders(acts, acts + more);
          StillGiven(more, acts + more);
          StillGivenFolders(more, acts + more);
          acts, r := acts + more, Both(r, s);
        } else {
          ok := false;
        }
        problems := if ok then problems else problems + 1;
      }
    }

    method DistributeAll(libs: Libraries, members: seq<Member>, scans: set<Member>, pool: seq<string>, now: int)
      returns (problems: nat, r: Report, ghost acts: seq<Action>)
      requires Usable(State(libs)) && forall id :: id in pool ==> id in store.apps
      modifies this`ledger, libs, disk
      ensures disk.faults >= old(disk.faults)
      ensures Went(old(State(libs)), State(libs), acts, r, now, problems == 0,
                   disk.faults == old(disk.faults) && AllTakePart(old(libs.at), members, scans)) && Usable(State(libs))
      ensures forall a :: a in acts ==> ((a.GiveTitle? && a.id in pool) || a.GiveFolder?) && a.m in members
      ensures problems == 0 ==>
        forall m :: m in members ==> Offered(acts, m, scans, (set id | id in pool), old(ledger).folders.Keys)
    {
      ghost var w, ids, names := State(libs), (set id | id in pool), ledger.folders.Keys;
      problems, r, acts := 0, NOTHING, [];
      WentNothing(w, now);
      for i := 0 to |members|
        invariant disk.faults >= old(disk.faults)
        invariant Went(w, State(libs), acts, r, now, problems == 0,
                       disk.faults == old(disk.faults) && AllTakePart(w.at, members, scans)) && Usable(State(libs))
        invariant ledger.folders.Keys == names
        invariant forall a :: a in acts ==> ((a.GiveTitle? && a.id in pool) || a.GiveFolder?) && a.m in members
        invariant problems == 0 ==> forall k :: 0 <= k < i ==> Offered(acts, members[k], scans, ids, names)
      {
        ghost var v, was := State(libs), disk.faults;
        ghost var more;
        SharedHere(w, acts, now, members[i].home);
        var p, s;
        p, s, more := OfferTo(libs, members[i], members[i] in scans, pool, now);
        WentMore(w, v, State(libs), acts, more, r, s, now, problems == 0, p == 0,
                 was == old(disk.faults) && AllTakePart(w.at, members, scans),
                 disk.faults == was && TakesPart(v.at, members[i], members[i] in scans));
        OfferedMore(acts, more, members, i, scans, ids, names, problems == 0, p == 0);
        acts, r, problems := acts + more, Both(r, s), problems + p;
      }
    }

    /** The first two loops of Sync: the outside libraries, then the members' titles. */
    method HarvestTitles(libs: Libraries, members: seq<Member>, now: int)
      returns (problems: nat, r: Report, ready: seq<Member>, ghost a1: seq<Action>, ghost a2: seq<Action>)
      requires Usable(State(libs))
      modifies this, disk
      ensures disk.faults >= old(disk.faults)
      ensures Went(old(State(libs)), State(libs), a1 + a2, r, now, problems == 0,
                   disk.faults == old(disk.faults) && LibrariesThere(old(State(libs)), members))
      ensures Usable(State(libs))
      ensures forall a :: a in a1 ==> a.TakeTitle? && a.home in Homes(old(ledger).sources, members)
      ensures OfMembers(old(State(libs)), a2, ready)
      ensures forall m :: m in ready ==> m in members
      ensures disk.faults == old(disk.faults) || problems == 0 ==> ready == members
      ensures problems == 0 ==>
        && (forall s :: s in old(ledger).sources && !Joined(members, s) ==> LibraryTaken(libs.at, a1, s))
        && HarvestedUpTo(libs.at, a2, members, |members|)
    {
      ghost var w, f0 := State(libs), disk.faults;
      var p0, p1, p2, r1, r2;
      p1, r1, a1 := HarvestSources(libs, members, now);
      ghost var w1, c1 := State(libs), disk.faults == f0 && SourcesThere(w.at, w.ledger.sources, members);
      p0, ready := Ready(members);
      ghost var f2 := disk.faults;
      p2, r2, a2 := HarvestMembers(libs, ready, now);
      ghost var c2 := disk.faults == f2 && MembersThere(w.at, ready);
      WentMore(w, w1, State(libs), a1, a2, r1, r2, now, p1 == 0, p2 == 0, c1, c2);
      r, problems := Both(r1, r2), p0 + p1 + p2;
    }

    /** The first half of Sync: the titles, then the members' folders. */
    method HarvestAll(libs: Libraries, members: seq<Member>, now: int)
      returns (problems: nat, r: Report, ready: seq<Member>, scans: set<Member>, pool: seq<string>,
               ghost acts: seq<Action>)
      requires Usable(State(libs)) && Distinct(members)
      modifies this, disk
      ensures disk.faults >= old(disk.faults)
      ensures Went(old(State(libs)), State(libs), acts, r, now, problems == 0,
                   disk.faults == old(disk.faults) && LibrariesThere(old(State(libs)), members))
      ensures Usable(State(libs)) && (forall id :: id in pool <==> id in store.apps)
      ensures ReadsOnly(acts, Homes(old(ledger).sources, members))
      ensures Among(acts, members, Homes(old(ledger).sources, members)) && OnlyThere(old(State(libs)), acts)
      ensures forall m :: m in ready ==> m in members
      ensures forall m :: m in scans ==> TakesPart(libs.at, m, true)
      ensures disk.faults == old(disk.faults) || problems == 0 ==> ready == members
      ensures problems == 0 ==>
        && FullHarvest(old(State(libs)), acts, members, Homes(old(ledger).sources, members))
        && forall m :: m in members && m.home in libs.at && libs.at[m.home].shared.Some? ==> m in scans
    {
      ghost var w, f0 := State(libs), disk.faults;
      ghost var a1, a2, a3;
      var p1, p2, r1, r2;
      p1, r1, ready, a1, a2 := HarvestTitles(libs, members, now);
      ghost var w1, c1 := State(libs), disk.faults == f0 && LibrariesThere(w, members);
      pool := Listed(store.apps);
      ghost var f1 := disk.faults;
      p2, r2, scans, a3 := HarvestAllFolders(libs, ready, now);
      WentMore(w, w1, State(libs), a1 + a2, a3, r1, r2, now, p1 == 0, p2 == 0, c1, disk.faults == f1);
      acts, r, problems := (a1 + a2) + a3, Both(r1, r2), p1 + p2;
      HarvestAmong(w, members, ready, a1, a2, a3);
      if problems == 0 {
        HarvestIsWhole(w, w1, members, scans, a1, a2, a3);
      }
    }

    /** Sync: everything newly installed is taken into the pool, and everything in the pool
        is offered to every member that has not turned it down.  With no problem met it is
        a whole pass. */
    method Sync(libs: Libraries, members: seq<Member>, now: int)
      returns (problems: nat, report: Report, ghost harvest: seq<Action>, ghost gives: seq<Action>)
      requires Usable(State(libs)) && Distinct(members)
      modifies this, libs, disk
      ensures disk.faults >= old(disk.faults)
      ensures Synced(old(State(libs)), State(libs), problems, report, harvest, gives, members, now)
      ensures Usable(State(libs))
      ensures Unhindered(old(State(libs)), problems, harvest + gives, members, now, disk.faults - old(disk.faults))
    {
      ghost var w, f0 := State(libs), disk.faults;
      var p1, p2, r1, r2, ready, scans, pool;
      p1, r1, ready, scans, pool, harvest := HarvestAll(libs, members, now);
      ghost var w1, f1 := State(libs), disk.faults;
      p2, r2, gives := DistributeAll(libs, ready, scans, pool, now);
      report, problems := Both(r1, r2), p1 + p2;
      ghost var c1 := f1 == f0 && LibrariesThere(w, members);
      ghost var c2 := disk.faults == f1 && AllTakePart(w1.at, ready, scans);
      WentMore(w, w1, State(libs), harvest, gives, r1, r2, now, p1 == 0, p2 == 0, c1, c2);
      HarvestKeepsHomes(w, w1, harvest, now, members, ready, scans);
      WentIsUnhindered(w, State(libs), harvest + gives, report, now, problems, members, disk.faults - f0,
                       p1 == 0 && p2 == 0, c1 && c2);
      GivesAmong(members, ready, gives, Homes(w.ledger.sources, members));
      if problems == 0 {
        GivesAreFull(w1, members, gives, pool, scans, Homes(w.ledger.sources, members));
        PassIsWhole(w, w1, State(libs), harvest, gives, r1, r2, now, members);
      }
    }

    // ----------------------------------------------------- uninstall and ledger

    /** dropApp and dropFolder on one library; stopped part of the way it leaves anything. */
    method DropFromMember(libs: Libraries, m: Member, key: string) returns (ok: bool, ghost left: Library)
      requires m.home in libs.at
      modifies libs, disk
      ensures disk.faults >= old(disk.faults)
      ensures libs.at == old(libs.at)[m.home := left]
      ensures ok ==> left == DropFrom(old(libs.at)[m.home], key)
      ensures disk.faults == old(disk.faults) ==> ok
    {
      ok := disk.Attempt();
      var l := libs.at[m.home];
      if !ok {
        l := *;
      } else if IsFolderKey(key) {
        if l.shared.Some? {
          l := l.(shared := Some(l.shared.value - {FolderOf(key)}));
        }
      } else if key in l.apps {
        // the manifest goes first, so that files left over are not taken for a game
        var dir := l.apps[key].dir;
        l := l.(apps := l.apps - {key});
        if l.common.Some? {
          l := l.(common := Some(l.common.value - {dir}));
        }
      }
      left := l;
      libs.at := libs.at[m.home := l];
    }

    /** removeLocked. */
    method RemoveLocked(libs: Libraries, key: string) returns (ok: bool, ghost left: Option<map<string, Node>>)
      modifies this, disk
      ensures disk.faults >= old(disk.faults)
      ensures forall stuck :: (State(libs), ok) == RemoveFromPool(old(State(libs)), key, Drops(stuck, left))
      ensures disk.faults == old(disk.faults) ==> left == None
    {
      left := None;
      ok := disk.Attempt();
      if !ok {
        var rest: map<string, Node> := *;
        left := Some(rest);
        if IsFolderKey(key) {
          store := store.(shared := rest);
        } else if key !in store.apps {
          ok := true;
        } else if SafeName(store.apps[key].dir) {
          store := store.(common := rest);
        }
      } else if IsFolderKey(key) {
        var name := FolderOf(key);
        store := store.(shared := store.shared - {name});
        ledger := ledger.(folders := ledger.folders - {name});
      } else if key in store.apps {
        ok := SafeName(store.apps[key].dir);
        if ok {
          store := store.(apps := store.apps - {key}, common := store.common - {store.apps[key].dir});
        }
      }
    }

    /** Looks at one member's library: whether it can be, and whether it has the title. */
    method LookAt(libs: Libraries, m: Member, key: string) returns (ok: bool, has: bool)
      ensures ok == !Unusable(State(libs), m, key)
      ensures ok ==> has == Holds(State(libs), m, key)
    {
      ok, has := m.home in libs.at, false;
      if ok {
        var l := libs.at[m.home];
        has := if IsFolderKey(key) then HasDir(Dirs(l.shared), FolderOf(key)) else key in l.apps;
        ok := !has || IsFolderKey(key) || SafeName(l.apps[key].dir);
      }
    }

    /** The members holding the title and those using it, or that a library cannot be
        looked at or names no usable directory. */
    method FindHolders(libs: Libraries, key: string, members: seq<Member>)
      returns (ok: bool, have: seq<Member>, busy: seq<string>)
      ensures ok == !(exists m :: m in members && Unusable(State(libs), m, key))
      ensures ok ==> have == Holders(State(libs), key, members) && busy == NotUpdatable(have)
    {
      ghost var w := State(libs);
      have, busy := [], [];
      HoldersToEnd(w, key, members);
      for i := 0 to |members|
        invariant forall k :: 0 <= k < i ==> !Unusable(w, members[k], key)
        invariant have == Holders(w, key, members[..i])
        invariant busy == NotUpdatable(have)
      {
        var m := members[i];
        var has;
        ok, has := LookAt(libs, m, key);
        if !ok {
          assert m in members;
          return;
        }
        HoldersUpTo(w, key, members, i);
        if has {
          NotUpdatableMore(have, m);
          if !m.updatable {
            busy := busy + [m.name];
          }
          have := have + [m];
        }
      }
      ok := true;
      HoldersToEnd(w, key, members);
    }

    /** Whether a watched library the pool only reads from has the title. */
    method WatchedHas(libs: Libraries, key: string, members: seq<Member>) returns (held: bool)
      ensures held == HeldBySource(State(libs), key, members)
    {
      held := false;
      if !IsFolderKey(key) {
        for i := 0 to |ledger.sources|
          invariant forall k :: 0 <= k < i ==>
            !(!Joined(members, ledger.sources[k]) && ledger.sources[k] in libs.at
                && key in libs.at[ledger.sources[k]].apps)
        {
          var source := ledger.sources[i];
          if !Joined(members, source) && source in libs.at && key in libs.at[source].apps {
            held := true;
            return;
          }
        }
      }
    }

    /** The title is taken from its holders one after the other, until one fails. */
    method DropFromHolders(libs: Libraries, key: string, have: seq<Member>)
      returns (ok: bool, ghost stuck: map<string, Library>)
      requires forall m :: m in have ==> m.home in libs.at
      requires HomesOnce(have)
      modifies libs, disk
      ensures disk.faults >= old(disk.faults)
      ensures forall pool :: (State(libs), ok) == DropAll(old(State(libs)), key, have, Drops(stuck, pool))
      ensures disk.faults == old(disk.faults) ==> stuck == map[]
    {
      ghost var w := State(libs);
      ok, stuck := true, map[];
      var i := 0;
      while i < |have|
        invariant i <= |have| && disk.faults >= old(disk.faults) && stuck == map[] && ok
        invariant forall m :: m in have ==> m.home in libs.at
        invariant forall e: Drops :: (forall k :: 0 <= k < i ==> have[k].home !in e.stuck) ==>
          DropAll(w, key, have, e) == DropAll(State(libs), key, have[i..], e)
      {
        ghost var v, was := State(libs), disk.faults;
        ghost var left;
        ok, left := DropFromMember(libs, have[i], key);
        assert have[i..][0] == have[i] && have[i..][1..] == have[i + 1..];
        if !ok {
          stuck := map[have[i].home := left];
          assert forall pool :: DropAll(v, key, have[i..], Drops(stuck, pool)) == (State(libs), false);
          return;
        }
        assert forall e: Drops :: have[i].home !in e.stuck ==>
          DropAll(v, key, have[i..], e) == DropAll(State(libs), key, have[i + 1..], e);
        i := i + 1;
      }
      assert have[|have|..] == [];
    }

    /** The removal itself: from the holders, from the pool, from the ledger. */
    method TakeAway(libs: Libraries, key: string, have: seq<Member>) returns (answer: Answer, ghost d: Drops)
      requires HomesOnce(have) && forall m :: m in have ==> m.home in libs.at
      requires !IsFolderKey(key) ==> forall m :: m in have ==> m.home in libs.at && key in libs.at[m.home].apps
      modifies this, libs, disk
      ensures disk.faults >= old(disk.faults)
      ensures (State(libs), answer) == PoolSteps.TakeAway(old(State(libs)), key, have, d)
      ensures disk.faults == old(disk.faults) ==> d == Drops(map[], None)
    {
      ghost var w := State(libs);
      var title := key;
      if !IsFolderKey(key) {
        if have != [] {
          assert have[|have| - 1] in have;
          title := libs.at[have[|have| - 1].home].apps[key].name;
        }
        if key in store.apps && store.apps[key].name != "" {
          title := store.apps[key].name;
        }
        assert title == TitleOf(w, key, have);
      }
      ghost var stuck;
      var ok;
      ok, stuck := DropFromHolders(libs, key, have);
      d := Drops(stuck, None);
      if !ok {
        answer := Stuck;
        return;
      }
      ghost var left;
      ok, left := RemoveLocked(libs, key);
      d := Drops(stuck, left);
      if !ok {
        answer := Stuck;
        return;
      }
      ledger := Unmark(ledger, key);
      if !IsFolderKey(key) && title != key && key !in ledger.withheld {
        ledger := ledger.(withheld := ledger.withheld[key := title]);
      }
      answer := Done(Names(have));
    }

    /** Uninstall: out of the pool and out of every member that has it, unless somebody is
        using it or a watched library would give it back.  `d` is what steps that failed have
        left; without such a step there is nothing (PoolSafety.UninstallGoesThrough). */
    method Uninstall(libs: Libraries, key: string, members: seq<Member>) returns (answer: Answer, ghost d: Drops)
      requires HomesOnce(members)
      modifies this, libs, disk
      ensures disk.faults >= old(disk.faults)
      ensures (State(libs), answer) == PoolSteps.Uninstall(old(State(libs)), key, members, d)
      ensures disk.faults == old(disk.faults) ==> d == Drops(map[], None)
    {
      ghost var w := State(libs);
      d := Drops(map[], None);
      answer := Refused;
      if !SafeName(if IsFolderKey(key) then FolderOf(key) else ManifestName(key)) {
        return;
      }
      var held := WatchedHas(libs, key, members);
      if held {
        return;
      }
      var ok, have, busy := FindHolders(libs, key, members);
      if !ok {
        return;
      }
      assert !Refuses(w, key, members);
      if busy != [] {
        answer := Busy(busy);
        return;
      }
      HoldersOnce(w, key, members);
      answer, d := TakeAway(libs, key, have);
    }

    /** Readmit: lets a withheld title in again, when there is such a one; no other title is
        let in, and nothing else changes. */
    method Readmit(id: string) returns (ok: bool)
      modifies this`ledger
      ensures ok <==> id in old(ledger).withheld
      ensures id !in ledger.withheld
      ensures forall other :: other in ledger.withheld <==> other != id && other in old(ledger).withheld
      ensures forall other :: other in ledger.withheld ==> ledger.withheld[other] == old(ledger).withheld[other]
      ensures ledger.(withheld := old(ledger).withheld) == old(ledger)
      ensures forall w: World :: w.ledger == old(ledger) ==> After(w, ReadmitStep(id)).ledger == ledger
    {
      ok := id in ledger.withheld;
      ledger := ledger.(withheld := ledger.withheld - {id});
    }

    /** Offer: clears one mark of one member, so that the next pass hands the title over
        again (PoolSafety.OfferedIsGiven). */
    method OfferAgain(seat: string, key: string)
      modifies this`ledger
      ensures StatusOf(ledger, seat, key) == None
      ensures forall s, k :: s != seat || k != key ==> StatusOf(ledger, s, k) == StatusOf(old(ledger), s, k)
      ensures ledger.(delivered := old(ledger).delivered) == old(ledger)
      ensures forall w: World :: w.ledger == old(ledger) ==> After(w, OfferStep(seat, key)).ledger == ledger
    {
      if seat in ledger.delivered {
        ledger := ledger.(delivered := ledger.delivered[seat := ledger.delivered[seat] - {key}]);
      }
    }

    /** Forget: drops every mark of one member. */
    method Forget(seat: string)
      modifies this`ledger
      ensures forall k :: StatusOf(ledger, seat, k) == None
      ensures forall s, k :: s != seat ==> StatusOf(ledger, s, k) == StatusOf(old(ledger), s, k)
      ensures ledger.(delivered := old(ledger).delivered) == old(ledger)
      ensures forall w: World :: w.ledger == old(ledger) ==> After(w, ForgetStep(seat)).ledger == ledger
    {
      ledger := ledger.(delivered := ledger.delivered - {seat});
    }
  }

  // --------------------------------------------------------- nothing in its way

  /** A call of Sync in which no step fails meets no problem, and so is a whole pass, when all
      the libraries are there, hold nothing that cannot be copied, are named plainly, and all
      copies of one folder have their wine prefixes in the same places. */
  lemma SyncGoesWell(w: World, v: World, problems: nat, report: Report, harvest: seq<Action>, gives: seq<Action>,
                     members: seq<Member>, now: int, places: Places)
    requires Synced(w, v, problems, report, harvest, gives, members, now)
    requires Unhindered(w, problems, harvest + gives, members, now, 0) && LibrariesThere(w, members)
    requires Regular(w, places) && forall home, name :: Scanned(w, home, name) ==> Plain(name)
    ensures problems == 0 && WholePass(w, harvest, gives, now, members, Homes(w.ledger.sources, members))
  {
    forall a | a in harvest + gives && a.TakeFolder?
      ensures Plain(a.name)
    {
      assert a in harvest && There(w, a);
    }
    RegularIsSmooth(w, harvest + gives, now, places);
  }

  // ---------------------------------------------------------- two calls of Sync

  lemma {:induction false} SameSources(w: World, acts: seq<Action>, now: int)
    ensures Run(w, acts, now).ledger.sources == w.ledger.sources
    decreases |acts|
  {
    if acts != [] {
      assert Apply(w, acts[0], now).ledger.sources == w.ledger.sources;
      SameSources(Apply(w, acts[0], now), acts[1..], now);
    }
  }

  /** Sync after a Sync that met no problem, on unchanged libraries and verdicts: whatever
      problems it meets itself, it moves no title; it reports and changes nothing as long as
      nothing is left to be done about a folder, and if it meets none, only then. */
  lemma SyncTwice(w: World, v: World, u: World, r1: Report, h1: seq<Action>, g1: seq<Action>, now: int,
                  problems: nat, r2: Report, h2: seq<Action>, g2: seq<Action>, later: int,
                  members: seq<Member>, owner: map<string, string>)
    requires Synced(w, v, 0, r1, h1, g1, members, now) && Synced(v, u, problems, r2, h2, g2, members, later)
    requires SoundTitles(w, owner) && Distinct(members) && SameQuiet(w, now, later)
    ensures SameTitles(v, u) && OnlyFolders(r2)
    ensures FoldersRest(v, members, later) ==> u == v && Empty(r2)
    ensures problems == 0 ==> (u == v && Empty(r2) <==> FoldersRest(v, members, later))
  {
    var homes := Homes(w.ledger.sources, members);
    RunJoin(w, h1, g1, now);
    SameSources(w, h1 + g1, now);
    forall a | a in h2 + g2 && a.SeePresent?
      ensures There(v, a)
    {
      assert a in h2 || a in g2;
    }
    assert Among(h2 + g2, members, homes);
    TitlesAreFixpoint(w, h1, g1, now, h2 + g2, later, members, homes, owner);
    SyncIsFixpointIff(w, h1, g1, now, h2, g2, later, members, homes, owner);
  }

  /** Where in that first Sync every copy of a folder measures as what it is made of, what is
      left to be done is exactly what its clones into the members left aside. */
  lemma SyncLeavesToRest(w: World, v: World, report: Report, harvest: seq<Action>, gives: seq<Action>, now: int,
                         later: int, members: seq<Member>)
    requires Synced(w, v, 0, report, harvest, gives, members, now)
    requires SoundFolders(w) && Distinct(members) && AllMeasure(w, harvest, gives, now)
    requires forall name :: SameSettled(w, now, later, name)
    ensures FoldersRest(v, members, later) <==> Resting(v, members, later)
  {
    RunJoin(w, harvest, gives, now);
    FoldersRestIff(w, harvest, gives, now, later, members, Homes(w.ledger.sources, members));
  }

  /** After a Sync that met no problem each member is up to date with every title the pool
      holds whole, or has declined it, or is in the report as waiting for it. */
  lemma SyncBringsTitles(w: World, v: World, report: Report, harvest: seq<Action>, gives: seq<Action>, now: int,
                         members: seq<Member>, m: Member, id: string)
    requires Synced(w, v, 0, report, harvest, gives, members, now)
    requires Distinct(members) && m in members && m.home in w.at && !IsFolderKey(id)
    ensures UpToDate(v, m, id, report.pending)
  {
    RunJoin(w, harvest, gives, now);
    SaysJoin(w, harvest, gives, now);
    SyncConverges(w, harvest, gives, now, members, Homes(w.ledger.sources, members), m, id);
  }

  /** And so with every folder whose deliveries measure as what they are made of. */
  lemma SyncBringsFolders(w: World, v: World, report: Report, harvest: seq<Action>, gives: seq<Action>, now: int,
                          members: seq<Member>, m: Member, name: string)
    requires Synced(w, v, 0, report, harvest, gives, members, now)
    requires TitleIds(w) && RecordedOf(w, name) && Ordinary(name) && MeasuresOf(Run(w, harvest, now), gives, now, name)
    requires Distinct(members) && m in members && m.home in w.at && w.at[m.home].shared.Some?
    ensures FolderUpToDate(v, m, name, report.pending)
  {
    RunJoin(w, harvest, gives, now);
    SaysJoin(w, harvest, gives, now);
    FoldersConverge(w, harvest, gives, now, members, Homes(w.ledger.sources, members), m, name);
  }

  lemma {:induction false} NotUpdatableMore(members: seq<Member>, m: Member)
    ensures NotUpdatable(members + [m]) == NotUpdatable(members) + (if m.updatable then [] else [m.name])
    decreases |members|
  {
    if members != [] {
      assert (members + [m])[1..] == members[1..] + [m];
      NotUpdatableMore(members[1..], m);
    }
  }

  lemma {:induction false} HoldersMore(w: World, key: string, members: seq<Member>, m: Member)
    ensures Holders(w, key, members + [m]) == Holders(w, key, members) + (if Holds(w, m, key) then [m] else [])
    decreases |members|
  {
    if members != [] {
      assert (members + [m])[1..] == members[1..] + [m];
      HoldersMore(w, key, members[1..], m);
    }
  }

  lemma HoldersUpTo(w: World, key: string, members: seq<Member>, i: nat)
    requires i < |members|
    ensures Holders(w, key, members[..i + 1]) ==
      Holders(w, key, members[..i]) + (if Holds(w, members[i], key) then [members[i]] else [])
  {
    assert members[..i + 1] == members[..i] + [members[i]];
    HoldersMore(w, key, members[..i], members[i]);
  }

  lemma HoldersToEnd(w: World, key: string, members: seq<Member>)
    ensures Holders(w, key, members[..|members|]) == Holders(w, key, members)
    ensures Holders(w, key, members[..0]) == []
  {
    assert members[..|members|] == members;
  }

  ghost predicate HomesOnce(members: seq<Member>)
  {
    forall i, j :: 0 <= i < j < |members| ==> members[i].home != members[j].home
  }

  lemma {:induction false} HoldersOnce(w: World, key: string, members: seq<Member>)
    requires HomesOnce(members)
    ensures HomesOnce(Holders(w, key, members))
    decreases |members|
  {
    if members != [] {
      HoldersOnce(w, key, members[1..]);
      var rest := Holders(w, key, members[1..]);
      forall x | x in rest
        ensures x.home != members[0].home
      {
        var j :| 0 <= j < |members[1..]| && members[1..][j] == x;
        assert members[j + 1] == x;
      }
      OnceMore(members[0], rest);
      assert [] + rest == rest;
    }
  }

  lemma OnceMore(m: Member, rest: seq<Member>)
    requires HomesOnce(rest) && forall x :: x in rest ==> x.home != m.home
    ensures HomesOnce([m] + rest)
  {
    var h := [m] + rest;
    forall i, j | 0 <= i < j < |h|
      ensures h[i].home != h[j].home
    {
      assert h[j] == rest[j - 1] && rest[j - 1] in rest;
      if i > 0 {
        assert h[i] == rest[i - 1];
      }
    }
  }

  lemma HarvestAmong(w: World, members: seq<Member>, ready: seq<Member>, a1: seq<Action>, a2: seq<Action>,
                     a3: seq<Action>)
    requires forall m :: m in ready ==> m in members
    requires forall a :: a in a1 ==> a.TakeTitle? && a.home in Homes(w.ledger.sources, members)
    requires OfMembers(w, a2, ready)
    requires FoldersOfAll(w, a3, ready)
    ensures ReadsOnly((a1 + a2) + a3, Homes(w.ledger.sources, members))
    ensures Among((a1 + a2) + a3, members, Homes(w.ledger.sources, members)) && OnlyThere(w, (a1 + a2) + a3)
  {
  }

  lemma GivesAmong(members: seq<Member>, ready: seq<Member>, gives: seq<Action>, homes: set<string>)
    requires forall m :: m in ready ==> m in members
    requires forall a :: a in gives ==> (a.GiveTitle? || a.GiveFolder?) && a.m in ready
    ensures OnlyGives(gives) && Among(gives, members, homes)
  {
  }

  lemma HarvestIsFull(w: World, members: seq<Member>, a1: seq<Action>, a2: seq<Action>, a3: seq<Action>)
    requires var acts := (a1 + a2) + a3;
      ReadsOnly(acts, Homes(w.ledger.sources, members)) && Among(acts, members, Homes(w.ledger.sources, members))
    requires forall s :: s in w.ledger.sources && !Joined(members, s) ==> LibraryTaken(w.at, a1, s)
    requires forall m :: m in members ==>
      LibraryTaken(w.at, a2, m.home) && MemberSeen(w.at, a2, m) && FoldersTaken(w, a3, m)
    ensures FullHarvest(w, (a1 + a2) + a3, members, Homes(w.ledger.sources, members))
  {
    var acts := (a1 + a2) + a3;
    StillHarvested(a1, acts);
    StillHarvestedFolders(a1, acts);
    StillHarvested(a2, acts);
    StillHarvestedFolders(a2, acts);
    StillHarvested(a3, acts);
    StillHarvestedFolders(a3, acts);
    forall home, id | home in Homes(w.ledger.sources, members) && home in w.at && id in w.at[home].apps
      ensures exists from, o :: PoolModel.TakeTitle(home, from, id, o) in acts
    {
      assert LibraryTaken(w.at, acts, home);
      var from :| Taken(acts, home, from, id);
    }
    forall m, name | m in members && Scanned(w, m.home, name)
      ensures exists o :: PoolModel.TakeFolder(m, name, o) in acts
    {
      assert TakenFolder(acts, m, name);
    }
  }

  lemma HarvestIsWhole(w: World, v: World, members: seq<Member>, scans: set<Member>, a1: seq<Action>, a2: seq<Action>,
                       a3: seq<Action>)
    requires v.at == w.at && HarvestedUpTo(w.at, a2, members, |members|)
    requires ScannedUpTo(v, a3, scans, members, |members|)
    requires var acts := (a1 + a2) + a3;
      ReadsOnly(acts, Homes(w.ledger.sources, members)) && Among(acts, members, Homes(w.ledger.sources, members))
    requires forall s :: s in w.ledger.sources && !Joined(members, s) ==> LibraryTaken(w.at, a1, s)
    ensures FullHarvest(w, (a1 + a2) + a3, members, Homes(w.ledger.sources, members))
  {
    SameScan(v, w);
    HarvestIsFull(w, members, a1, a2, a3);
  }

  lemma GivesAreFull(w: World, members: seq<Member>, gives: seq<Action>, pool: seq<string>, scans: set<Member>,
                     homes: set<string>)
    requires OnlyGives(gives) && Among(gives, members, homes)
    requires forall id :: id in pool <==> id in w.store.apps
    requires forall a :: a in gives ==> (a.GiveTitle? ==> a.id in pool)
    requires forall m :: m in members && m.home in w.at && w.at[m.home].shared.Some? ==> m in scans
    requires forall m :: m in members ==> Offered(gives, m, scans, (set id | id in pool), w.ledger.folders.Keys)
    ensures FullGives(w, gives, members, homes)
  {
    forall m, id | m in members && id in w.store.apps
      ensures exists o :: PoolModel.GiveTitle(m, id, o) in gives
    {
      assert Offered(gives, m, scans, (set id | id in pool), w.ledger.folders.Keys);
      assert GivenTitle(gives, m, id);
    }
    forall m, name | m in scans && m in members && name in w.ledger.folders
      ensures exists o :: PoolModel.GiveFolder(m, name, o) in gives
    {
      assert Offered(gives, m, scans, (set id | id in pool), w.ledger.folders.Keys);
      assert GivenFolder(gives, m, name);
    }
  }

  lemma SameScan(v: World, w: World)
    requires v.at == w.at
    ensures forall acts, m :: FoldersTaken(v, acts, m) <==> FoldersTaken(w, acts, m)
  {
  }
}
