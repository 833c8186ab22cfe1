/** Inputs at which the shared library does not do what it is for: the record of a folder
    falls, and Sync is no fixpoint. */
module PoolExamples {
  import opened Wrappers
  import opened FileTree
  import opened SeatPrivate
  import opened TreeEdits
  import opened Clone
  import opened PoolModel
  import opened PoolForward
  import opened PoolFolders
  import opened PoolPasses
  import opened PoolTitles
  import opened PoolFixpoint

  // -------------------------------------------------------- a copy that is lost

  lemma EmptyMeasures(m: int, inDrive: bool)
    ensures Measure(Dir(m, map[]), inDrive) == Version(m, 0)
    ensures PrivateDirs(Dir(m, map[]), inDrive) == {}
  {
    var d := Dir(m, map[]);
    assert Seen(d, inDrive) == d;
    assert d.kids.Keys == {};
    assert Total(d) == Sum(d, d.kids.Keys) == Own(d);
  }

  /** A pool and two members with bare copies of one folder, from the times given. */
  function ThreeCopies(name: string, pooled: int, newer: int, older: int): World
  {
    World(Ledger(map[], map[name := Version(pooled, 0)], map[], [], []),
          Store(map[], map[], map[name := Dir(pooled, map[])]),
          map["a" := Library(map[], None, Some(map[name := Dir(newer, map[])])),
              "b" := Library(map[], None, Some(map[name := Dir(older, map[])]))], 0)
  }

  lemma ThreeAreSound(name: string, pooled: int, newer: int, older: int)
    requires Ordinary(name)
    ensures SoundTitles(ThreeCopies(name, pooled, newer, older), map[])
    ensures SoundFolders(ThreeCopies(name, pooled, newer, older))
  {
    EmptyMeasures(pooled, false);
  }

  /** The clone of the newer copy fails, and the pool's cannot be put back at its name. */
  lemma CopyIsLost(name: string, pooled: int, newer: int, older: int, now: int) returns (a: Action, v: World)
    requires Ordinary(name) && pooled < newer <= now
    ensures a.TakeFolder? && Plausible(ThreeCopies(name, pooled, newer, older), a, now)
    ensures v == Apply(ThreeCopies(name, pooled, newer, older), a, now)
    ensures v.store.shared == map[OldName(name) := Dir(pooled, map[])] && name in v.ledger.folders
    ensures v.ledger.folders[name] == Version(pooled, 0) && v.quiet == 0
    ensures v.at == ThreeCopies(name, pooled, newer, older).at
  {
    var w, aside := ThreeCopies(name, pooled, newer, older), map[OldName(name) := Dir(pooled, map[])];
    a := TakeFolder(Member("a", true, false, "a"), name, Outcome(aside, false, false));
    EmptyMeasures(newer, false);
    LeftAside(w.store.shared, name, Dir(pooled, map[]), Dir(newer, map[]), aside);
    v := Apply(w, a, now);
  }

  lemma LeftAside(e: map<string, Node>, name: string, had: Node, src: Node, aside: map<string, Node>)
    requires e == map[name := had] && aside == map[OldName(name) := had] && NotAside(name)
    ensures Leaves(e, name, src, true, Outcome(aside, false, false))
  {
    AsideIsOther(name, name);
    var carry := ToCarry(e, name, true);
    assert Restored(e, aside, name, carry, true);
    assert TakenBack(e, name, true, aside, STAGING_PREFIX, true);
  }

  /** Then the next member's older copy is stored. */
  lemma OlderIsStored(v: World, name: string, older: int, now: int) returns (b: Action)
    requires Ordinary(name) && older <= now && v.quiet == 0
    requires !HasDir(v.store.shared, name) && name !in v.store.shared
    requires "b" in v.at && v.at["b"].shared == Some(map[name := Dir(older, map[])])
    ensures b.TakeFolder? && Plausible(v, b, now)
    ensures var u := Apply(v, b, now); name in u.ledger.folders && u.ledger.folders[name] == Version(older, 0)
  {
    var left := v.store.shared[name := Dir(older, map[])];
    b := TakeFolder(Member("b", true, false, "b"), name, Outcome(left, true, true));
    EmptyMeasures(older, false);
    assert InPlace(v.store.shared, name, Dir(older, map[]), true, left);
  }

  lemma TwoActs(w: World, a: Action, b: Action, now: int)
    requires Plausible(w, a, now) && Plausible(Apply(w, a, now), b, now)
    ensures Run(w, [a, b], now) == Apply(Apply(w, a, now), b, now) && PlausibleRun(w, [a, b], now)
  {
    var v := Apply(w, a, now);
    var u := Apply(v, b, now);
    assert [a, b][1..] == [b] && [b][1..] == [];
    assert Run(u, [], now) == u && Run(v, [b], now) == u;
    assert PlausibleRun(u, [], now) && PlausibleRun(v, [b], now);
  }

  /** A record falls within one pass: a clone fails and leaves the pool without its copy, and
      an older copy is stored. */
  lemma RecordFalls() returns (w: World, acts: seq<Action>, name: string)
    ensures SoundTitles(w, map[]) && SoundFolders(w) && PlausibleRun(w, acts, 10)
    ensures Ordinary(name) && name in w.ledger.folders && HasDir(w.store.shared, name)
    ensures Fell(w, Run(w, acts, 10), name)
  {
    name := "F";
    w := ThreeCopies(name, 5, 9, 3);
    ThreeAreSound(name, 5, 9, 3);
    var a, v := CopyIsLost(name, 5, 9, 3, 10);
    AsideIsOther(name, name);
    var b := OlderIsStored(v, name, 3, 10);
    acts := [a, b];
    TwoActs(w, a, b, 10);
  }

  // ------------------------------------------------------- a copy left aside

  /** A clone into a member that succeeds and leaves the copy it moved aside, which the next
      pass takes: of a folder the pool has from time 9 over a member's from time 5. */
  lemma LeftoverIsLeft() returns (w: World, a: Action)
    ensures SoundTitles(w, map[]) && SoundFolders(w)
    ensures a.GiveFolder? && Smooth(w, a, 10) && DecideFolder(w, a.m, a.name) == Give && RoundLands(w, a, 10)
    ensures TakesFolder(Apply(w, a, 10), a.m.home, OldName(a.name), 10)
  {
    var name := "F";
    w := ThreeCopies(name, 9, 9, 5);
    ThreeAreSound(name, 9, 9, 5);
    a := GivenOver(name, 9, 9, 5);
    EmptyMeasures(5, false);
    AsideIsOther(name, name);
    OrdinaryVersion(a.o.left, OldName(name));
    LeftoverIsTaken(w, a, 10, 10);
  }

  lemma GivenOver(name: string, pooled: int, newer: int, older: int) returns (a: Action)
    requires Ordinary(name) && older < pooled
    ensures var w := ThreeCopies(name, pooled, newer, older);
      && a.GiveFolder? && a.name == name && a.m.home == "b" && DecideFolder(w, a.m, name) == Give
      && a.o.left == map[name := Dir(pooled, map[]), OldName(name) := Dir(older, map[])]
      && Smooth(w, a, 10) && RoundLands(w, a, 10)
  {
    var w := ThreeCopies(name, pooled, newer, older);
    var had, has := Dir(older, map[]), Dir(pooled, map[]);
    var left := map[name := has, OldName(name) := had];
    a := GiveFolder(Member("b", true, false, "b"), name, Outcome(left, true, true));
    EmptyMeasures(older, false);
    OrdinaryVersion(w.at["b"].shared.value, name);
    GoodLeaves(w.at["b"].shared.value, name, had, has, left);
  }

  lemma GoodLeaves(e: map<string, Node>, name: string, had: Node, has: Node, left: map<string, Node>)
    requires Ordinary(name) && e == map[name := had] && left == map[name := has, OldName(name) := had]
    requires had.Dir? && had.kids == map[]
    ensures Leaves(e, name, has, true, Outcome(left, true, true)) && SavesLand(e, name, has)
  {
    AsideIsOther(name, name);
    assert ToCarry(e, name, true) == {};
  }

  // ------------------------------------------------- saves that have nowhere to land

  lemma OneKid(m: int, n: string, t: Node)
    ensures Total(Dir(m, map[n := t])) == Join(Total(t), Version(m, 0))
  {
    var d := Dir(m, map[n := t]);
    assert d.kids.Keys == {n};
    SumTakes(d, {n}, n);
    assert {n} - {n} == {};
    assert Sum(d, {}) == Own(d);
  }

  lemma TwoKids(m: int, n: string, t: Node, k: string, s: Node)
    requires n != k
    ensures Total(Dir(m, map[n := t, k := s])) == Join(Total(t), Join(Total(s), Version(m, 0)))
  {
    var d := Dir(m, map[n := t, k := s]);
    assert d.kids.Keys == {n, k};
    SumTakes(d, {n, k}, n);
    assert {n, k} - {n} == {k};
    SumTakes(d, {k}, k);
    assert {k} - {k} == {};
    assert Sum(d, {}) == Own(d);
  }

  const REG := "system.reg"
  const DRIVE := "drive_c"
  const USERS := "users"

  /** A wine prefix in the pool, its registry from time 5 and the rest from time 3. */
  function Prefix(): Node
  {
    Dir(3, map[REG := File(5, []), DRIVE := Dir(3, map[USERS := Dir(3, map[])])])
  }

  /** A member's copy without a registry, with something from time 9 where the pool's has
      its users. */
  function Bare(): Node
  {
    Dir(3, map[DRIVE := Dir(3, map[USERS := Dir(3, map["save" := File(9, [])])])])
  }

  /** What a clone makes of the one over the other. */
  function Made(): Node
  {
    Dir(3, map[DRIVE := Dir(3, map[USERS := Dir(3, map[])])])
  }

  /** A directory with one entry holds no wine prefix: everything in it is the folder's. */
  lemma OneKidSeen(m: int, n: string, u: Node)
    requires Seen(u, false) == u
    ensures var t := Dir(m, map[n := u]); Seen(t, false) == t
  {
    var t := Dir(m, map[n := u]);
    assert t.kids.Keys == {n};
    assert !IsDrive(t, n);
    assert Seen(t, false).kids == t.kids;
  }

  lemma AllIsSeen(users: Node)
    requires Seen(users, false) == users
    ensures var t := Dir(3, map[DRIVE := Dir(3, map[USERS := users])]);
      Seen(t, false) == t && Total(t) == Join(Join(Total(users), Version(3, 0)), Version(3, 0))
  {
    var drive := Dir(3, map[USERS := users]);
    OneKidSeen(3, USERS, users);
    OneKidSeen(3, DRIVE, drive);
    OneKid(3, USERS, users);
    OneKid(3, DRIVE, drive);
  }

  lemma BareMeasures()
    ensures Measure(Bare(), false) == Version(9, 0)
  {
    var users := SaveMeasures();
    AllIsSeen(users);
  }

  lemma SaveMeasures() returns (users: Node)
    ensures users == Dir(3, map["save" := File(9, [])])
    ensures Seen(users, false) == users && Total(users) == Version(9, 0)
  {
    var save := File(9, []);
    users := Dir(3, map["save" := save]);
    FileTotal(9);
    OneKid(3, "save", save);
    OneKidSeen(3, "save", save);
  }

  lemma EmptyTotal(m: int)
    ensures var t := Dir(m, map[]); Seen(t, false) == t && Total(t) == Version(m, 0)
  {
    var t := Dir(m, map[]);
    EmptyMeasures(m, false);
    assert Seen(t, false).kids == t.kids;
  }

  lemma FileTotal(m: int)
    ensures var t := File(m, []); Seen(t, false) == t && Total(t) == Version(m, 0)
  {
  }

  lemma MadeMeasures()
    ensures Measure(Made(), false) == Version(3, 0)
  {
    EmptyTotal(3);
    AllIsSeen(Dir(3, map[]));
  }

  lemma PrefixSeen()
    ensures Seen(Prefix(), false) == Dir(3, map[REG := File(5, []), DRIVE := Dir(3, map[])])
  {
    var t := Prefix();
    var drive := t.kids[DRIVE];
    assert IsDrive(t, DRIVE) && !IsDrive(t, REG);
    assert Seen(drive, true) == Dir(3, map[]);
    assert Seen(t, false).kids == map[REG := File(5, []), DRIVE := Dir(3, map[])];
  }

  lemma PrefixMeasures()
    ensures Measure(Prefix(), false) == Version(5, 0)
  {
    PrefixSeen();
    EmptyTotal(3);
    FileTotal(5);
    TwoKids(3, REG, File(5, []), DRIVE, Dir(3, map[]));
  }

  lemma PrefixOwns()
    ensures PrivateDirs(Prefix(), false) == {[DRIVE, USERS]}
  {
    var t := Prefix();
    var drive := t.kids[DRIVE];
    assert IsDrive(t, DRIVE);
    DriveOwns(drive);
    forall p
      ensures p in PrivateDirs(t, false) <==> p == [DRIVE, USERS]
    {
      InPrivateDirs(t, false, p);
      if p in PrivateDirs(t, false) {
        assert p == [p[0]] + p[1..];
      }
      assert [DRIVE, USERS][1..] == [USERS];
    }
  }

  lemma DriveOwns(drive: Node)
    requires drive == Dir(3, map[USERS := Dir(3, map[])])
    ensures PrivateDirs(drive, true) == {[USERS]}
  {
    assert IsSeatPrivate(drive, true, USERS);
    forall q
      ensures q in PrivateDirs(drive, true) <==> q == [USERS]
    {
      InPrivateDirs(drive, true, q);
      if q in PrivateDirs(drive, true) {
        assert q == [q[0]] + q[1..];
      }
      assert [USERS][1..] == [];
    }
  }

  lemma BareOverPrefix()
    ensures Graft(Without(Bare(), {[DRIVE, USERS]}), Prefix(), {[DRIVE, USERS]}) == Made()
  {
    var c := {[DRIVE, USERS]};
    SubIs(c);
    var t := BareWithout(c);
    UsersGrafted();
    GraftedTop(t, Prefix(), c);
  }

  lemma BareWithout(c: set<Path>) returns (t: Node)
    requires Sub(c, DRIVE) == {[USERS]} && [DRIVE] !in c
    ensures t == Without(Bare(), c) == Dir(3, map[DRIVE := Dir(3, map[])])
  {
    t := Without(Bare(), c);
    assert Without(Bare().kids[DRIVE], {[USERS]}).kids == map[];
    assert t.kids == map[DRIVE := Dir(3, map[])];
  }

  lemma UsersGrafted()
    ensures Graft(Dir(3, map[]), Prefix().kids[DRIVE], {[USERS]}) == Made().kids[DRIVE]
  {
    var d := Prefix().kids[DRIVE];
    var r := Graft(Dir(3, map[]), d, {[USERS]});
    forall n
      ensures n in r.kids <==> n == USERS
      ensures n == USERS ==> r.kids[n] == Dir(3, map[])
    {
      GraftHas(Dir(3, map[]), d, {[USERS]}, n);
    }
  }

  lemma GraftedTop(t: Node, d: Node, c: set<Path>)
    requires t == Dir(3, map[DRIVE := Dir(3, map[])]) && d == Prefix()
    requires Sub(c, DRIVE) == {[USERS]} && Sub(c, REG) == {} && [DRIVE] !in c && [REG] !in c
    requires Graft(Dir(3, map[]), d.kids[DRIVE], {[USERS]}) == Made().kids[DRIVE]
    ensures Graft(t, d, c) == Made()
  {
    var r := Graft(t, d, c);
    forall n
      ensures n in r.kids <==> n == DRIVE
      ensures n == DRIVE ==> r.kids[n] == Made().kids[DRIVE]
    {
      GraftHas(t, d, c, n);
    }
    assert r.kids == Made().kids;
  }

  lemma SubIs(c: set<Path>)
    requires c == {[DRIVE, USERS]}
    ensures Sub(c, DRIVE) == {[USERS]} && Sub(c, REG) == {} && [DRIVE] !in c && [REG] !in c
  {
    var p := [DRIVE, USERS];
    assert p[1..] == [USERS] && p in c;
  }

  /** The pool's prefix is replaced by the member's copy: the member's users are left out,
      the pool's stay, and the registry that made them the seat's is gone. */
  function BareMember(name: string): World
  {
    World(Ledger(map[], map[name := Version(5, 0)], map[], [], []), Store(map[], map[], map[name := Prefix()]),
          map["s" := Library(map[], None, Some(map[name := Bare()]))], 0)
  }

  lemma OneIsSound(name: string, w: World)
    requires Ordinary(name) && w == BareMember(name)
    ensures SoundTitles(w, map[]) && SoundFolders(w)
  {
    PrefixMeasures();
    OneIsRecorded(w, name, Prefix());
    assert OrdinaryFolders(w) && TitleIds(w);
    assert Tidy(w) && DirsOwned(w, map[]);
  }

  lemma OneIsRecorded(w: World, name: string, t: Node)
    requires Ordinary(name) && t.Dir? && w.store.shared == map[name := t]
    requires w.ledger.folders == map[name := Measure(t, false)]
    ensures forall other :: RecordedOf(w, other)
  {
    OrdinaryVersion(w.store.shared, name);
  }

  lemma MadeInPlace(name: string)
    requires Ordinary(name)
    ensures var e := map[name := Prefix()];
      CloneOver(Bare(), e, name, true) == Made() && InPlace(e, name, Bare(), true, map[name := Made()])
  {
    var e := map[name := Prefix()];
    PrefixOwns();
    assert ToCarry(e, name, true) == {[DRIVE, USERS]};
    BareOverPrefix();
    UsersStay();
  }

  lemma UsersStay()
    ensures Get(Made(), [DRIVE, USERS]) == Get(Prefix(), [DRIVE, USERS])
  {
    assert [DRIVE, USERS][1..] == [USERS] && [USERS][1..] == [];
    GetHead(Made(), DRIVE, [USERS]);
    GetHead(Prefix(), DRIVE, [USERS]);
    assert [DRIVE] + [USERS] == [DRIVE, USERS];
  }

  lemma Versions(name: string)
    requires Ordinary(name)
    ensures VersionAt(map[name := Bare()], name) == Version(9, 0)
    ensures VersionAt(map[name := Made()], name) == Version(3, 0)
    ensures CopyVersion(map[name := Prefix()], name, Bare()) == Version(3, 0)
  {
    BareMeasures();
    MadeMeasures();
    MadeInPlace(name);
    OrdinaryVersion(map[name := Bare()], name);
    OrdinaryVersion(map[name := Made()], name);
    InPlaceVersion(map[name := Prefix()], name, Bare(), map[name := Made()]);
  }

  /** Nothing fails and the record falls; and the member's copy is still the newer one. */
  lemma BareIsTaken(name: string, m: Member) returns (a: Action)
    requires Ordinary(name) && m.home == "s"
    ensures var w := BareMember(name);
      var v := Apply(w, a, 10);
      && a.TakeFolder? && a.m == m && a.name == name && Smooth(w, a, 10)
      && v.ledger.folders == map[name := Version(3, 0)] && v.store.shared == map[name := Made()] && v.at == w.at
      && v.store.apps == map[] && v.quiet == 0
      && Fell(w, v, name) && !StoresOlder(w, a, 10, name)
  {
    var w := BareMember(name);
    a := TakeFolder(m, name, Outcome(map[name := Made()], true, true));
    Versions(name);
    MadeInPlace(name);
    BareTakes(w, name, a);
    BareTaken(w, name, a);
  }

  lemma BareTakes(w: World, name: string, a: Action)
    requires Ordinary(name) && w == BareMember(name) && a.TakeFolder? && a.m.home == "s" && a.name == name
    requires a.o == Outcome(map[name := Made()], true, true)
    requires InPlace(w.store.shared, name, Bare(), true, a.o.left)
    requires VersionAt(map[name := Bare()], name) == Version(9, 0)
    ensures TakesFolder(w, "s", name, 10) && Smooth(w, a, 10)
  {
  }

  lemma BareTaken(w: World, name: string, a: Action)
    requires w == BareMember(name) && a.TakeFolder? && a.m.home == "s" && a.name == name
    requires a.o == Outcome(map[name := Made()], true, true) && TakesFolder(w, "s", name, 10)
    requires VersionAt(map[name := Made()], name) == Version(3, 0)
    requires CopyVersion(map[name := Prefix()], name, Bare()) == Version(3, 0)
    requires VersionAt(map[name := Bare()], name) == Version(9, 0)
    ensures var v := Apply(w, a, 10);
      && v.ledger.folders == map[name := Version(3, 0)] && v.store.shared == map[name := Made()] && v.at == w.at
      && v.store.apps == map[] && v.quiet == 0
      && Fell(w, v, name) && !StoresOlder(w, a, 10, name)
  {
    var v := Apply(w, a, 10);
    assert v.ledger.folders == map[name := Version(5, 0)][name := Version(3, 0)];
  }

  lemma BareIsStillNewer(v: World, name: string, m: Member)
    requires Ordinary(name) && m.home == "s" && v.at == BareMember(name).at && v.quiet == 0
    requires v.ledger.folders == map[name := Version(3, 0)]
    ensures TakesFolder(v, "s", name, 10) && FolderDone(v, m, name)
  {
    Versions(name);
  }

  /** So a whole pass over this one member leaves it to be done again: that the saves land is
      needed for Sync to be a fixpoint. */
  lemma UnlandedIsNoFixpoint()
    returns (w: World, harvest: seq<Action>, gives: seq<Action>, members: seq<Member>, name: string)
    ensures SoundTitles(w, map[]) && SoundFolders(w) && Distinct(members)
    ensures WholePass(w, harvest, gives, 10, members, {"s"})
    ensures Ordinary(name) && EverFalls(w, harvest, 10, name) && !EverStoresOlder(w, harvest, 10, name)
    ensures !FoldersRest(Run(Run(w, harvest, 10), gives, 10), members, 10)
  {
    name := "F";
    var m := Member("s", true, false, "s");
    w, members := BareMember(name), [m];
    OneIsSound(name, w);
    var a := BareIsTaken(name, m);
    var g := GiveFolder(m, name, Outcome(map[], true, true));
    harvest, gives := [a], [g];
    OneHarvest(w, a, m, name);
    OneRound(w, a, 10, name);
    OneIsLeft(w, Apply(w, a, 10), g, m, name);
  }

  lemma OneIsLeft(w: World, v: World, g: Action, m: Member, name: string)
    requires Ordinary(name) && w == BareMember(name) && v.at == w.at && v.quiet == 0 && v.store.apps == map[]
    requires v.ledger.folders == map[name := Version(3, 0)] && m.home == "s"
    requires g.GiveFolder? && g.m == m && g.name == name
    ensures FullGives(v, [g], [m], {"s"}) && SmoothRun(v, [g], 10) && !FoldersRest(Run(v, [g], 10), [m], 10)
  {
    BareIsStillNewer(v, name, m);
    OneGive(v, g, m, name);
    OneRound(v, g, 10, name);
    assert Apply(v, g, 10) == v && m in [m];
    assert !FolderRests(v, m, name, 10);
  }

  lemma OneRound(w: World, a: Action, now: int, name: string)
    ensures Run(w, [a], now) == Apply(w, a, now) && (Smooth(w, a, now) ==> SmoothRun(w, [a], now))
    ensures EverFalls(w, [a], now, name) <==> Fell(w, Apply(w, a, now), name)
    ensures EverStoresOlder(w, [a], now, name) <==> StoresOlder(w, a, now, name)
  {
    var v := Apply(w, a, now);
    assert [a][1..] == [];
    assert Run(v, [], now) == v && SmoothRun(v, [], now) && !EverFalls(v, [], now, name)
      && !EverStoresOlder(v, [], now, name);
  }

  lemma OneHarvest(w: World, a: Action, m: Member, name: string)
    requires w == BareMember(name) && a.TakeFolder? && a.m == m && a.name == name && m.home == "s"
    ensures FullHarvest(w, [a], [m], {"s"})
  {
    assert a == TakeFolder(m, name, a.o) && a in [a];
  }

  lemma OneGive(v: World, g: Action, m: Member, name: string)
    requires g.GiveFolder? && g.m == m && g.name == name && v.store.apps == map[] && v.ledger.folders.Keys == {name}
    ensures FullGives(v, [g], [m], {"s"})
  {
    assert g == GiveFolder(m, name, g.o) && g in [g];
  }
}
