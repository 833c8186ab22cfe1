/** Libraries in which all copies of one folder have their wine prefixes in the same places:
    every save lands in every copy, and stays so whatever clones fail. */
module PoolShapes {
  import opened FileTree
  import opened Clone
  import opened CloneMeasure
  import opened PoolModel
  import opened PoolFolders
  import opened PoolFixpoint

  type Places = map<string, set<Path>>

  /** A copy of the folder `name`, with its wine prefixes where every copy has them. */
  ghost predicate CopyOf(places: Places, name: string, t: Node)
  {
    name != "drive_c" && name in places && Shaped(t, places[name])
  }

  /** What is under a plain name is a copy; what clones move aside may be anything. */
  ghost predicate AllCopies(places: Places, e: map<string, Node>)
  {
    forall name :: Plain(name) && HasDir(e, name) ==> CopyOf(places, name, e[name])
  }

  ghost predicate ShapedWorld(w: World, places: Places)
  {
    && AllCopies(places, w.store.shared)
    && (forall home :: home in w.at ==> AllCopies(places, Dirs(w.at[home].shared)))
  }

  /** A clone of a copy over a copy is a copy, into which the saves land. */
  lemma CopyOverCopy(places: Places, e: map<string, Node>, name: string, src: Node)
    requires AllCopies(places, e) && Plain(name) && CopyOf(places, name, src)
    ensures SavesLand(e, name, src) && CopyOf(places, name, CloneOver(src, e, name, true))
  {
    if ToCarry(e, name, true) != {} {
      assert CopyOf(places, name, e[name]);
      CloneMeasures(src, e[name], places[name]);
    }
  }

  /** Whatever fails, a clone leaves copies. */
  lemma LeavesCopies(places: Places, e: map<string, Node>, name: string, src: Node, o: Outcome)
    requires AllCopies(places, e) && Leaves(e, name, src, true, o)
    requires Plain(name) ==> CopyOf(places, name, src)
    ensures AllCopies(places, o.left)
  {
    forall other | Plain(other) && HasDir(o.left, other)
      ensures CopyOf(places, other, o.left[other])
    {
      if other != name {
        OthersAreKept(e, name, src, true, o, other);
      } else if o.ok {
        CopyOverCopy(places, e, name, src);
      } else {
        TakenBackCopy(places, e, name, o.left);
      }
    }
  }

  lemma TakenBackCopy(places: Places, e: map<string, Node>, name: string, left: map<string, Node>)
    requires AllCopies(places, e) && Plain(name) && HasDir(left, name)
    requires exists staging, exact :: TakenBack(e, name, true, left, staging, exact)
    ensures CopyOf(places, name, left[name])
  {
    UntimedNode(e[name], left[name], false, "");
    assert CopyOf(places, name, e[name]);
    UntimedShaped(e[name], left[name], places[name]);
  }

  /** Whatever fails, copies stay copies. */
  lemma ShapedAct(w: World, a: Action, now: int, places: Places)
    requires ShapedWorld(w, places) && Plausible(w, a, now)
    ensures ShapedWorld(Apply(w, a, now), places)
  {
    var v := Apply(w, a, now);
    match a
    case TakeFolder(m, name, o) =>
      if TakesFolder(w, m.home, name, now) {
        LeavesCopies(places, w.store.shared, name, Dirs(w.at[m.home].shared)[name], o);
      }
    case GiveFolder(m, name, o) =>
      if DecideFolder(w, m, name) == Give {
        LeavesCopies(places, Dirs(w.at[m.home].shared), name, w.store.shared[name], o);
        OneLibrary(w, v, m.home, places);
      }
    case GiveTitle(m, id, o) =>
      if DecideTitle(w, m, id) == Give {
        OneLibrary(w, v, m.home, places);
      }
    case _ =>
  }

  lemma OneLibrary(w: World, v: World, home: string, places: Places)
    requires ShapedWorld(w, places) && v.store == w.store && home in v.at
    requires forall other :: other in v.at && other != home ==> other in w.at && v.at[other] == w.at[other]
    requires AllCopies(places, Dirs(v.at[home].shared))
    ensures ShapedWorld(v, places)
  {
  }

  lemma ShapedLands(w: World, a: Action, now: int, places: Places)
    requires ShapedWorld(w, places) && (a.TakeFolder? || a.GiveFolder? ==> Plain(a.name))
    ensures RoundLands(w, a, now)
  {
    match a
    case TakeFolder(m, name, _) =>
      if TakesFolder(w, m.home, name, now) {
        CopyOverCopy(places, w.store.shared, name, Dirs(w.at[m.home].shared)[name]);
      }
    case GiveFolder(m, name, _) =>
      if DecideFolder(w, m, name) == Give {
        CopyOverCopy(places, Dirs(w.at[m.home].shared), name, w.store.shared[name]);
      }
    case _ =>
  }

  /** In such libraries every save lands in every round, whatever clones fail. */
  lemma {:induction false} ShapedRunLands(w: World, acts: seq<Action>, now: int, places: Places, name: string)
    requires ShapedWorld(w, places) && PlausibleRun(w, acts, now) && Plain(name)
    ensures LandsOf(w, acts, now, name) && ShapedWorld(Run(w, acts, now), places)
    decreases |acts|
  {
    if acts != [] {
      if Concerns(acts[0], name) {
        ShapedLands(w, acts[0], now, places);
      }
      ShapedAct(w, acts[0], now, places);
      ShapedRunLands(Apply(w, acts[0], now), acts[1..], now, places, name);
    }
  }

  lemma ShapedPassMeasures(w: World, harvest: seq<Action>, gives: seq<Action>, now: int, places: Places)
    requires ShapedWorld(w, places) && SmoothRun(w, harvest, now) && SmoothRun(Run(w, harvest, now), gives, now)
    ensures AllMeasure(w, harvest, gives, now)
  {
    var w1 := Run(w, harvest, now);
    SmoothIsPlausible(w, harvest, now);
    SmoothIsPlausible(w1, gives, now);
    forall name | Ordinary(name)
      ensures MeasuresOf(w, harvest, now, name) && MeasuresOf(w1, gives, now, name)
    {
      ShapedRunLands(w, harvest, now, places, name);
      ShapedRunLands(w1, gives, now, places, name);
      LandsOfMeasures(w, harvest, now, name);
      LandsOfMeasures(w1, gives, now, name);
    }
  }
}
