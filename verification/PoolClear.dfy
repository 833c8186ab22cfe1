/** Passes in which no step of the disk fails: which rounds then go well
    (internal/library/pool.go, Sync). */
module PoolClear {
  import opened FileTree
  import opened TreeEdits
  import opened CloneTrees
  import opened Clone
  import opened CloneMeasure
  import opened PoolModel
  import opened PoolFolders
  import opened PoolShapes

  /** The copy the round makes, if it makes one, can be made. */
  ghost predicate Able(w: World, a: Action, now: int)
  {
    match a
    case SeePresent(_, _) => true
    case TakeTitle(home, _, id, _) => Takes(w, home, id, now) ==>
      var dir := w.at[home].apps[id].dir;
      CanClone(Present(Dirs(w.at[home].common)[dir]), w.store.common, dir, false)
    case TakeFolder(m, name, _) => TakesFolder(w, m.home, name, now) ==>
      CanClone(Present(Dirs(w.at[m.home].shared)[name]), w.store.shared, name, true)
    case GiveTitle(m, id, _) => DecideTitle(w, m, id) == Give ==>
      var dir := w.store.apps[id].dir;
      CanClone(Present(w.store.common[dir]), Dirs(w.at[m.home].common), dir, false)
    case GiveFolder(m, name, _) => DecideFolder(w, m, name) == Give ==>
      CanClone(Present(w.store.shared[name]), Dirs(w.at[m.home].shared), name, true)
  }

  ghost predicate AbleRun(w: World, acts: seq<Action>, now: int)
    decreases |acts|
  {
    acts != [] ==> Able(w, acts[0], now) && AbleRun(Apply(w, acts[0], now), acts[1..], now)
  }

  /** Every round whose copy can be made goes well. */
  ghost predicate ClearRun(w: World, acts: seq<Action>, now: int)
    decreases |acts|
  {
    acts != [] ==>
      && (Able(w, acts[0], now) ==> !Stops(w, acts[0], now))
      && ClearRun(Apply(w, acts[0], now), acts[1..], now)
  }

  lemma {:induction false} AbleJoin(w: World, a: seq<Action>, b: seq<Action>, now: int)
    ensures AbleRun(w, a + b, now) <==> AbleRun(w, a, now) && AbleRun(Run(w, a, now), b, now)
    decreases |a|
  {
    if a == [] {
      assert [] + b == b;
    } else {
      assert (a + b)[0] == a[0] && (a + b)[1..] == a[1..] + b;
      AbleJoin(Apply(w, a[0], now), a[1..], b, now);
    }
  }

  lemma {:induction false} ClearJoin(w: World, a: seq<Action>, b: seq<Action>, now: int)
    ensures ClearRun(w, a + b, now) <==> ClearRun(w, a, now) && ClearRun(Run(w, a, now), b, now)
    decreases |a|
  {
    if a == [] {
      assert [] + b == b;
    } else {
      assert (a + b)[0] == a[0] && (a + b)[1..] == a[1..] + b;
      ClearJoin(Apply(w, a[0], now), a[1..], b, now);
    }
  }

  /** So where all can be made, all go well. */
  lemma {:induction false} AbleIsSmooth(w: World, acts: seq<Action>, now: int)
    requires ClearRun(w, acts, now) && AbleRun(w, acts, now) && PlausibleRun(w, acts, now)
    ensures SmoothRun(w, acts, now)
    decreases |acts|
  {
    if acts != [] {
      AbleIsSmooth(Apply(w, acts[0], now), acts[1..], now);
    }
  }

  // ------------------------------------------------- libraries of ordinary files

  /** Neither a socket, a fifo nor a device in any directory under a plain name. */
  ghost predicate AllCopyable(e: map<string, Node>)
  {
    forall name :: Plain(name) && HasDir(e, name) ==> Copyable(e[name])
  }

  ghost predicate NothingSpecial(w: World)
  {
    && AllCopyable(w.store.common) && AllCopyable(w.store.shared)
    && forall home :: home in w.at ==> AllCopyable(Dirs(w.at[home].common)) && AllCopyable(Dirs(w.at[home].shared))
  }

  lemma {:induction false} CopyableWithout(t: Node, c: set<Path>)
    requires Copyable(t)
    ensures Copyable(Without(t, c))
    decreases t
  {
    if t.Dir? {
      forall n | n in t.kids && [n] !in c
        ensures Copyable(Without(t.kids[n], Sub(c, n)))
      {
        CopyableWithout(t.kids[n], Sub(c, n));
      }
    }
  }

  lemma {:induction false} CopyableGraft(t: Node, d: Node, c: set<Path>)
    requires Copyable(t) && Copyable(d)
    ensures Copyable(Graft(t, d, c))
    decreases d
  {
    if t.Dir? && d.Dir? {
      forall n | n in Graft(t, d, c).kids
        ensures Copyable(Graft(t, d, c).kids[n])
      {
        GraftHas(t, d, c, n);
        if [n] !in c && IsDirAt(d, n) && Sub(c, n) != {} {
          CopyableGraft(KidOrNew(t, d, n), d.kids[n], Sub(c, n));
        }
      }
    }
  }

  /** A good clone leaves such a directory. */
  lemma PlacedCopyable(e: map<string, Node>, name: string, src: Node, private: bool, o: Outcome)
    requires AllCopyable(e) && o.ok && Leaves(e, name, src, private, o)
    requires Plain(name) ==> src.Dir? && Copyable(src)
    ensures AllCopyable(o.left)
  {
    forall other | Plain(other) && HasDir(o.left, other)
      ensures Copyable(o.left[other])
    {
      if other != name {
        OthersAreKept(e, name, src, private, o, other);
      } else {
        var c := ToCarry(e, name, private);
        if c != {} && name in e {
          var p :| p in c;
          assert HasDir(e, name);
          CopyableWithout(src, c);
          CopyableGraft(Without(src, c), e[name], c);
        }
      }
    }
  }

  /** Where a save lands its way is free. */
  lemma {:induction false} LandIsFree(t: Node, inDrive: bool, p: Path, k: nat)
    requires Lands(t, inDrive, p) && k < |p|
    ensures Free(t, p[..k])
    decreases |p|
  {
    if k > 0 {
      LandIsFree(t.kids[p[0]], IsDrive(t, p[0]), p[1..], k - 1);
      assert p[..k] == [p[0]] + p[1..][..k - 1];
      FreeBelow(t, p[0], p[1..][..k - 1]);
    }
  }

  /** Taking directories out frees no way and blocks none. */
  lemma {:induction false} WithoutFree(t: Node, c: set<Path>, p: Path)
    requires Free(t, p)
    ensures Free(Without(t, c), p)
    decreases |p|
  {
    if p != [] && t.Dir? && p[0] in t.kids && [p[0]] !in c {
      var n, r := p[0], p[1..];
      assert p == [n] + r;
      FreeBelow(t, n, r);
      WithoutFree(t.kids[n], Sub(c, n), r);
      GetHead(Without(t, c), n, r);
    }
  }

  lemma LandingClones(src: Node, e: map<string, Node>, name: string)
    requires src.Dir? && Copyable(src) && SavesLand(e, name, src)
    ensures CanClone(Present(src), e, name, true)
  {
    var c := ToCarry(e, name, true);
    CopyableWithout(src, c);
    forall p | p in c && p != []
      ensures WayFree(Without(src, c), p[..|p| - 1])
    {
      var par := p[..|p| - 1];
      forall k | 0 <= k <= |par|
        ensures Free(Without(src, c), par[..k])
      {
        assert Lands(src, false, p) && par[..k] == p[..k];
        LandIsFree(src, false, p, k);
        WithoutFree(src, c, par[..k]);
      }
    }
  }

  lemma TitleClones(src: Node, e: map<string, Node>, name: string)
    requires src.Dir? && Copyable(src)
    ensures CanClone(Present(src), e, name, false)
  {
    WithoutNone(src);
  }

  /** Every title names its directory plainly. */
  ghost predicate PlainDirs(w: World)
  {
    && (forall id :: id in w.store.apps ==> w.store.apps[id].dir == "" || Plain(w.store.apps[id].dir))
    && (forall home, id :: home in w.at && id in w.at[home].apps ==>
          w.at[home].apps[id].dir == "" || Plain(w.at[home].apps[id].dir))
  }

  lemma PlainDirsAct(w: World, a: Action, now: int)
    requires PlainDirs(w)
    ensures PlainDirs(Apply(w, a, now))
  {
    var v := Apply(w, a, now);
    ActAppsFrom(w, a, now);
    forall id | id in v.store.apps
      ensures v.store.apps[id].dir == "" || Plain(v.store.apps[id].dir)
    {
      var home := FromStore(w, v, now, id);
    }
    forall home, id | home in v.at && id in v.at[home].apps
      ensures v.at[home].apps[id].dir == "" || Plain(v.at[home].apps[id].dir)
    {
      FromLibrary(w, v, now, home, id);
    }
  }

  /** Ordinary files under plain names, and all copies of one folder of one shape. */
  ghost predicate Regular(w: World, places: Places)
  {
    && NothingSpecial(w) && PlainDirs(w) && ShapedWorld(w, places)
    && forall name :: name in w.ledger.folders ==> Plain(name)
  }

  /** A folder that the round copies is called plainly. */
  ghost predicate PlainRound(w: World, a: Action)
  {
    (a.TakeFolder? ==> Plain(a.name)) && (a.GiveFolder? && a.name in w.ledger.folders ==> Plain(a.name))
  }

  lemma RegularIsAble(w: World, a: Action, now: int, places: Places)
    requires Regular(w, places) && PlainRound(w, a)
    ensures Able(w, a, now)
  {
    match a
    case SeePresent(_, _) =>
    case TakeTitle(home, _, id, _) =>
      if Takes(w, home, id, now) {
        var dir := w.at[home].apps[id].dir;
        TitleClones(Dirs(w.at[home].common)[dir], w.store.common, dir);
      }
    case TakeFolder(m, name, _) =>
      if TakesFolder(w, m.home, name, now) {
        ShapedLands(w, a, now, places);
        LandingClones(Dirs(w.at[m.home].shared)[name], w.store.shared, name);
      }
    case GiveTitle(m, id, _) =>
      if DecideTitle(w, m, id) == Give {
        var dir := w.store.apps[id].dir;
        TitleClones(w.store.common[dir], Dirs(w.at[m.home].common), dir);
      }
    case GiveFolder(m, name, _) =>
      if DecideFolder(w, m, name) == Give {
        ShapedLands(w, a, now, places);
        LandingClones(w.store.shared[name], Dirs(w.at[m.home].shared), name);
      }
  }

  lemma RegularStays(w: World, a: Action, now: int, places: Places)
    requires Regular(w, places) && Smooth(w, a, now) && PlainRound(w, a)
    ensures Regular(Apply(w, a, now), places)
  {
    PlainDirsAct(w, a, now);
    ShapedAct(w, a, now, places);
    SpecialStays(w, a, now);
  }

  lemma SpecialStays(w: World, a: Action, now: int)
    requires NothingSpecial(w) && PlainDirs(w) && Smooth(w, a, now)
    requires PlainRound(w, a)
    ensures NothingSpecial(Apply(w, a, now))
  {
    match a
    case SeePresent(_, _) =>
    case TakeTitle(home, _, id, o) =>
      if Takes(w, home, id, now) {
        var dir := w.at[home].apps[id].dir;
        PlacedCopyable(w.store.common, dir, Dirs(w.at[home].common)[dir], false, o);
      }
    case TakeFolder(m, name, o) =>
      if TakesFolder(w, m.home, name, now) {
        PlacedCopyable(w.store.shared, name, Dirs(w.at[m.home].shared)[name], true, o);
      }
    case GiveTitle(m, id, o) =>
      if DecideTitle(w, m, id) == Give {
        var dir := w.store.apps[id].dir;
        PlacedCopyable(Dirs(w.at[m.home].common), dir, w.store.common[dir], false, o);
      }
    case GiveFolder(m, name, o) =>
      if DecideFolder(w, m, name) == Give {
        PlacedCopyable(Dirs(w.at[m.home].shared), name, w.store.shared[name], true, o);
      }
  }

  /** A run of rounds over such libraries in which no step fails goes well. */
  lemma {:induction false} RegularIsSmooth(w: World, acts: seq<Action>, now: int, places: Places)
    requires ClearRun(w, acts, now) && PlausibleRun(w, acts, now) && Regular(w, places)
    requires forall a :: a in acts && a.TakeFolder? ==> Plain(a.name)
    ensures SmoothRun(w, acts, now) && AbleRun(w, acts, now)
    decreases |acts|
  {
    if acts != [] {
      var a := acts[0];
      assert a in acts;
      assert forall b :: b in acts[1..] ==> b in acts;
      RegularIsAble(w, a, now, places);
      RegularStays(w, a, now, places);
      RegularIsSmooth(Apply(w, a, now), acts[1..], now, places);
    }
  }
}
