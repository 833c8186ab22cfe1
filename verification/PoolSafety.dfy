/** What no run does to the libraries: an uninstall is all or nothing about the moment, a
    declined title is not given again, and the pool only goes forward. */
module PoolSafety {
  import opened Wrappers
  import opened FileTree
  import opened Titles
  import opened PoolModel
  import opened PoolSteps

  // ---------------------------------------------------------------- uninstall

  /** Somebody using the title, or a watched library that has it, and nothing changes
      anywhere; the answer names exactly the holders that are using it. */
  lemma UninstallAllOrNothing(w: World, key: string, members: seq<Member>, d: Drops)
    ensures var (v, a) := Uninstall(w, key, members, d);
      && (HeldBySource(w, key, members) ==> a == Refused)
      && ((exists m :: m in members && Holds(w, m, key) && !m.updatable) ==> a.Refused? || a.Busy?)
      && (a.Refused? || a.Busy? ==> v == w)
      && (a.Busy? ==> forall n :: n in a.names <==>
          exists m :: m in members && m.name == n && Holds(w, m, key) && !m.updatable)
  {
    var holders := Holders(w, key, members);
    BusyNames(holders);
    forall m | m in members && Holds(w, m, key) && !m.updatable
      ensures NotUpdatable(holders) != []
    {
      assert m in holders;
      assert m.name in NotUpdatable(holders);
    }
  }

  lemma {:induction false} BusyNames(members: seq<Member>)
    ensures forall n :: n in NotUpdatable(members) <==> exists m :: m in members && m.name == n && !m.updatable
    decreases |members|
  {
    if members != [] {
      BusyNames(members[1..]);
      assert members == [members[0]] + members[1..];
    }
  }

  /** What taking a title from its holders does to each library. */
  lemma {:induction false} DropAllDrops(w: World, key: string, holders: seq<Member>, d: Drops)
    requires forall m :: m in holders ==> m.home in w.at
    requires DropAll(w, key, holders, d).1
    ensures var v := DropAll(w, key, holders, d).0;
      && v.at.Keys == w.at.Keys
      && forall home :: home in w.at ==>
           v.at[home] == if exists m :: m in holders && m.home == home then DropFrom(w.at[home], key) else w.at[home]
    decreases |holders|
  {
    if holders != [] {
      var h := holders[0].home;
      var u := w.(at := w.at[h := DropFrom(w.at[h], key)]);
      DropAllDrops(u, key, holders[1..], d);
      assert holders == [holders[0]] + holders[1..];
      DropTwice(w.at[h], key);
    }
  }

  lemma DropTwice(l: Library, key: string)
    ensures DropFrom(DropFrom(l, key), key) == DropFrom(l, key)
  {
    if IsFolderKey(key) && l.shared.Some? {
      var name := FolderOf(key);
      assert (l.shared.value - {name}) - {name} == l.shared.value - {name};
    }
  }

  lemma DropKeeps(l: Library, key: string, other: string)
    requires other != key
    ensures var r := DropFrom(l, key);
      && (other in r.apps <==> other in l.apps)
      && (other in l.apps ==> r.apps[other] == l.apps[other])
  {
  }

  lemma {:induction false} DropAllGoesOn(w: World, key: string, holders: seq<Member>)
    requires forall m :: m in holders ==> m.home in w.at
    ensures var (v, all) := DropAll(w, key, holders, Drops(map[], None)); all && v.store == w.store
    decreases |holders|
  {
    if holders != [] {
      var home := holders[0].home;
      DropAllGoesOn(w.(at := w.at[home := DropFrom(w.at[home], key)]), key, holders[1..]);
    }
  }

  /** Where no step fails an uninstall goes through exactly when the name is usable, no
      library that is only read has the title, every member's library can be looked at, and
      no member using the title has it; and the pool's copy names a usable directory. */
  lemma UninstallGoesThrough(w: World, key: string, members: seq<Member>)
    ensures Uninstall(w, key, members, Drops(map[], None)).1.Done? <==>
      && SafeName(if IsFolderKey(key) then FolderOf(key) else "appmanifest_" + key + ".acf")
      && !HeldBySource(w, key, members)
      && (forall m :: m in members ==>
            m.home in w.at
            && (!IsFolderKey(key) && key in w.at[m.home].apps ==> SafeName(w.at[m.home].apps[key].dir))
            && (Holds(w, m, key) ==> m.updatable))
      && (!IsFolderKey(key) && key in w.store.apps ==> SafeName(w.store.apps[key].dir))
  {
    var holders := Holders(w, key, members);
    if !Refuses(w, key, members) {
      BusyNames(holders);
      if NotUpdatable(holders) == [] {
        forall m | m in members && Holds(w, m, key)
          ensures m.updatable
        {
          assert m in holders;
          assert !m.updatable ==> m.name in NotUpdatable(holders);
        }
        DropAllGoesOn(w, key, holders);
      } else {
        var n := NotUpdatable(holders)[0];
        assert n in NotUpdatable(holders);
        var m :| m in holders && m.name == n && !m.updatable;
      }
    }
  }

  /** An uninstall that succeeds leaves the title nowhere: in no listed member, not in the
      pool, and no seat keeps a mark for it.  Other titles and marks are as they were. */
  lemma UninstallLeavesNone(w: World, key: string, members: seq<Member>, d: Drops)
    requires Uninstall(w, key, members, d).1.Done?
    ensures var v := Uninstall(w, key, members, d).0;
      && (forall m :: m in members ==> !Holds(v, m, key))
      && (if IsFolderKey(key) then !HasDir(v.store.shared, FolderOf(key)) && FolderOf(key) !in v.ledger.folders
          else key !in v.store.apps)
      && (forall seat :: StatusOf(v.ledger, seat, key) == None)
      && (forall seat, other :: other != key ==> StatusOf(v.ledger, seat, other) == StatusOf(w.ledger, seat, other))
  {
    var holders := Holders(w, key, members);
    var dropped := DropAll(w, key, holders, d).0;
    var removed := RemoveFromPool(dropped, key, d).0;
    var v := Uninstall(w, key, members, d).0;
    DoneIs(w, key, members, d);
    DropAllDrops(w, key, holders, d);
    OnlyItsMarks(w, key, holders, removed);
    RemovedIsGone(dropped, key, d);
    forall m | m in members
      ensures !Holds(v, m, key)
    {
      NotHeld(w, v, key, members, holders, m);
    }
  }

  lemma NotHeld(w: World, v: World, key: string, members: seq<Member>, holders: seq<Member>, m: Member)
    requires m in members && holders == Holders(w, key, members) && v.at.Keys == w.at.Keys
    requires forall home :: home in w.at ==>
      v.at[home] == if exists h :: h in holders && h.home == home then DropFrom(w.at[home], key) else w.at[home]
    ensures !Holds(v, m, key)
  {
    if Holds(w, m, key) {
      assert m in holders;
    }
  }

  lemma RemovedIsGone(w: World, key: string, d: Drops)
    requires RemoveFromPool(w, key, d).1
    ensures var v := RemoveFromPool(w, key, d).0;
      if IsFolderKey(key) then !HasDir(v.store.shared, FolderOf(key)) && FolderOf(key) !in v.ledger.folders
      else key !in v.store.apps
  {
  }

  /** An uninstall that succeeds went all the way. */
  lemma DoneIs(w: World, key: string, members: seq<Member>, d: Drops)
    requires Uninstall(w, key, members, d).1.Done?
    ensures var v, holders := Uninstall(w, key, members, d).0, Holders(w, key, members);
      var dropped := DropAll(w, key, holders, d).0;
      var removed := RemoveFromPool(dropped, key, d).0;
      && DropAll(w, key, holders, d).1 && RemoveFromPool(dropped, key, d).1
      && v == removed.(ledger := Withhold(w, key, holders, Unmark(removed.ledger, key)))
      && v.at == dropped.at && removed.ledger.delivered == w.ledger.delivered
        && removed.ledger.withheld == w.ledger.withheld
  {
    var holders := Holders(w, key, members);
    DropAllKeeps(w, key, holders, d);
    RemoveKeeps(DropAll(w, key, holders, d).0, key, d);
  }

  /** Whatever comes of it, an uninstall takes away the marks of its title or none. */
  lemma UninstallMarks(w: World, key: string, members: seq<Member>, d: Drops)
    ensures var v := Uninstall(w, key, members, d).0;
      v.ledger.delivered == w.ledger.delivered || v.ledger.delivered == Unmark(w.ledger, key).delivered
  {
    var holders := Holders(w, key, members);
    if Uninstall(w, key, members, d).1.Done? {
      DoneIs(w, key, members, d);
    } else if !Refuses(w, key, members) && NotUpdatable(holders) == [] {
      DropAllKeeps(w, key, holders, d);
      RemoveKeeps(DropAll(w, key, holders, d).0, key, d);
    }
  }

  lemma OnlyItsMarks(w: World, key: string, holders: seq<Member>, removed: World)
    requires !IsFolderKey(key) ==> forall m :: m in holders ==> m.home in w.at && key in w.at[m.home].apps
    requires removed.ledger.delivered == w.ledger.delivered
    ensures var l := Withhold(w, key, holders, Unmark(removed.ledger, key));
      && l.folders == removed.ledger.folders
      && (forall seat :: StatusOf(l, seat, key) == None)
      && (forall seat, other :: other != key ==> StatusOf(l, seat, other) == StatusOf(w.ledger, seat, other))
  {
  }

  /** ...and other titles stay installed wherever they were, in the members and the pool. */
  lemma UninstallKeepsOthers(w: World, key: string, members: seq<Member>, d: Drops, other: string)
    requires Uninstall(w, key, members, d).1.Done? && other != key
    ensures var v := Uninstall(w, key, members, d).0;
      && (other in v.store.apps <==> other in w.store.apps)
      && (other in w.store.apps ==> v.store.apps[other] == w.store.apps[other])
      && v.at.Keys == w.at.Keys
      && forall home :: home in w.at ==> SameTitle(w.at[home], v.at[home], other)
  {
    var holders := Holders(w, key, members);
    DropAllDrops(w, key, holders, d);
    DropAllKeeps(w, key, holders, d);
    var dropped := DropAll(w, key, holders, d).0;
    RemoveKeeps(dropped, key, d);
    assert Uninstall(w, key, members, d).0.at == dropped.at;
    forall home | home in w.at
      ensures SameTitle(w.at[home], dropped.at[home], other)
    {
      DropKeeps(w.at[home], key, other);
    }
    RemoveKeepsOther(dropped, key, d, other);
  }

  ghost predicate SameTitle(a: Library, b: Library, id: string)
  {
    (id in a.apps <==> id in b.apps) && (id in a.apps ==> a.apps[id] == b.apps[id])
  }

  lemma RemoveKeepsOther(w: World, key: string, d: Drops, other: string)
    requires other != key
    ensures other in w.store.apps <==> other in RemoveFromPool(w, key, d).0.store.apps
  {
  }

  /** Withheld under the name, unless it is called by its id. */
  predicate WithheldAs(withheld: map<string, string>, key: string, name: string)
  {
    (key in withheld <==> name != key) && (key in withheld ==> withheld[key] == name)
  }

  lemma TitleIs(w: World, key: string, holders: seq<Member>)
    requires forall m :: m in holders ==> m.home in w.at && key in w.at[m.home].apps
    ensures var pooled := key in w.store.apps && w.store.apps[key].name != "";
      if pooled then TitleOf(w, key, holders) == w.store.apps[key].name
      else if holders == [] then TitleOf(w, key, holders) == key
      else var home := holders[|holders| - 1].home;
        home in w.at && key in w.at[home].apps && TitleOf(w, key, holders) == w.at[home].apps[key].name
  {
    assert holders != [] ==> holders[|holders| - 1] in holders;
  }

  /** A title is withheld by an uninstall exactly when it was found under a name, the pool's
      or else that of the last member it was found at, and then under that; a folder never is. */
  lemma UninstallWithholds(w: World, key: string, members: seq<Member>, d: Drops)
    requires Uninstall(w, key, members, d).1.Done?
    ensures var was, withheld := w.ledger.withheld, Uninstall(w, key, members, d).0.ledger.withheld;
      && withheld - {key} == was - {key} && (key in was ==> key in withheld && withheld[key] == was[key])
      && (key !in was ==>
            var pooled, holders := key in w.store.apps && w.store.apps[key].name != "", Holders(w, key, members);
            if IsFolderKey(key) || (!pooled && holders == []) then key !in withheld
            else if pooled then WithheldAs(withheld, key, w.store.apps[key].name)
            else var home := holders[|holders| - 1].home;
              home in w.at && key in w.at[home].apps && WithheldAs(withheld, key, w.at[home].apps[key].name))
  {
    DoneIs(w, key, members, d);
    if !IsFolderKey(key) {
      assert forall m :: m in Holders(w, key, members) ==> Holds(w, m, key);
      TitleIs(w, key, Holders(w, key, members));
    }
  }

  // ----------------------------------------------------------------- declined

  lemma MarkOther(l: Ledger, seat: string, key: string, s: Status, seat': string, key': string)
    ensures StatusOf(Mark(l, seat, key, s), seat', key') ==
      if seat' == seat && key' == key
      then (if StatusOf(l, seat, key) == Some(Declined) && s == Delivered then Some(Declined) else Some(s))
      else StatusOf(l, seat', key')
  {
  }

  /** A decline survives everything a pass does, and while the title is absent the pass
      does not give it. */
  lemma DeclinedAct(w: World, a: Action, now: int, seat: string, id: string)
    requires StatusOf(w.ledger, seat, id) == Some(Declined)
    ensures StatusOf(Apply(w, a, now).ledger, seat, id) == Some(Declined)
  {
    match a
    case SeePresent(m, i) => MarkOther(w.ledger, m.name, i, Delivered, seat, id);
    case TakeTitle(_, _, _, _) =>
    case TakeFolder(m, name, _) => MarkOther(w.ledger, m.name, FolderKey(name), Delivered, seat, id);
    case GiveTitle(m, i, _) =>
      MarkOther(w.ledger, m.name, i, Delivered, seat, id);
      MarkOther(w.ledger, m.name, i, Declined, seat, id);
    case GiveFolder(m, name, _) =>
      MarkOther(w.ledger, m.name, FolderKey(name), Delivered, seat, id);
      MarkOther(w.ledger, m.name, FolderKey(name), Declined, seat, id);
  }

  /** The actions treat one library as one member's. */
  ghost predicate OneMember(acts: seq<Action>, seat: string, home: string)
  {
    forall a :: a in acts ==> match a
      case GiveTitle(m, _, _) => m.home == home ==> m.name == seat
      case GiveFolder(m, _, _) => m.home == home ==> m.name == seat
      case _ => true
  }

  lemma {:induction false} DeclinedPass(w: World, acts: seq<Action>, now: int, seat: string, home: string, id: string)
    requires StatusOf(w.ledger, seat, id) == Some(Declined) && OneMember(acts, seat, home)
    requires home in w.at && id !in w.at[home].apps
    ensures var v := Run(w, acts, now);
      StatusOf(v.ledger, seat, id) == Some(Declined) && home in v.at && id !in v.at[home].apps
    decreases |acts|
  {
    if acts != [] {
      var a := acts[0];
      assert a in acts;
      DeclinedAct(w, a, now, seat, id);
      DeclinedAbsent(w, a, now, seat, home, id);
      assert forall b :: b in acts[1..] ==> b in acts;
      DeclinedPass(Apply(w, a, now), acts[1..], now, seat, home, id);
    }
  }

  lemma DeclinedAbsent(w: World, a: Action, now: int, seat: string, home: string, id: string)
    requires StatusOf(w.ledger, seat, id) == Some(Declined) && OneMember([a], seat, home)
    requires home in w.at && id !in w.at[home].apps
    ensures home in Apply(w, a, now).at && id !in Apply(w, a, now).at[home].apps
  {
    assert a in [a];
    if a.GiveTitle? && a.m.home == home && a.id == id {
      assert a.m.name == seat;
      assert DecideTitle(w, a.m, id) == Skip;
    }
  }

  /** The steps that clear a member's mark for a title. */
  predicate Clears(s: Step, seat: string, id: string)
  {
    match s
    case OfferStep(t, key) => t == seat && key == id
    case ForgetStep(t) => t == seat
    case UninstallStep(key, _, _) => key == id
    case _ => false
  }

  lemma {:induction false} DeclinedMark(w: World, acts: seq<Action>, now: int, seat: string, id: string)
    requires StatusOf(w.ledger, seat, id) == Some(Declined)
    ensures StatusOf(Run(w, acts, now).ledger, seat, id) == Some(Declined)
    decreases |acts|
  {
    if acts != [] {
      DeclinedAct(w, acts[0], now, seat, id);
      DeclinedMark(Apply(w, acts[0], now), acts[1..], now, seat, id);
    }
  }

  lemma DeclinedStep(w: World, s: Step, seat: string, id: string)
    requires StatusOf(w.ledger, seat, id) == Some(Declined) && !Clears(s, seat, id)
    ensures StatusOf(After(w, s).ledger, seat, id) == Some(Declined)
  {
    match s
    case Pass(acts, now) => DeclinedMark(w, acts, now, seat, id);
    case UninstallStep(key, members, d) =>
      UninstallMarks(w, key, members, d);
    case RemoveStep(key, d) => RemoveKeeps(w, key, d);
    case _ =>
  }

  /** In every run until the mark is cleared, a title the member has not got at the start
      of a pass it still has not got at the end of it. */
  ghost predicate NeverGiven(w: World, steps: seq<Step>, seat: string, home: string, id: string)
    decreases |steps|
  {
    steps != [] ==>
      && (steps[0].Pass? && home in w.at && id !in w.at[home].apps ==>
            home in After(w, steps[0]).at && id !in After(w, steps[0]).at[home].apps)
      && NeverGiven(After(w, steps[0]), steps[1..], seat, home, id)
  }

  lemma {:induction false} DeclinedStaysDeclined(w: World, steps: seq<Step>, seat: string, home: string, id: string)
    requires StatusOf(w.ledger, seat, id) == Some(Declined)
    requires forall s :: s in steps ==> !Clears(s, seat, id) && (s.Pass? ==> OneMember(s.acts, seat, home))
    ensures NeverGiven(w, steps, seat, home, id)
    ensures StatusOf(AfterAll(w, steps).ledger, seat, id) == Some(Declined)
    decreases |steps|
  {
    if steps != [] {
      var s := steps[0];
      assert s in steps;
      DeclinedStep(w, s, seat, id);
      if s.Pass? && home in w.at && id !in w.at[home].apps {
        DeclinedPass(w, s.acts, s.now, seat, home, id);
      }
      assert forall t :: t in steps[1..] ==> t in steps;
      DeclinedStaysDeclined(After(w, s), steps[1..], seat, home, id);
    }
  }

  // ------------------------------------------------- seen once and then gone

  lemma MarkedAct(w: World, a: Action, now: int, seat: string, id: string)
    requires StatusOf(w.ledger, seat, id).Some?
    ensures StatusOf(Apply(w, a, now).ledger, seat, id).Some?
  {
    match a
    case SeePresent(m, i) => MarkOther(w.ledger, m.name, i, Delivered, seat, id);
    case TakeTitle(_, _, _, _) =>
    case TakeFolder(m, name, _) => MarkOther(w.ledger, m.name, FolderKey(name), Delivered, seat, id);
    case GiveTitle(m, i, _) =>
      MarkOther(w.ledger, m.name, i, Delivered, seat, id);
      MarkOther(w.ledger, m.name, i, Declined, seat, id);
    case GiveFolder(m, name, _) =>
      MarkOther(w.ledger, m.name, FolderKey(name), Delivered, seat, id);
      MarkOther(w.ledger, m.name, FolderKey(name), Declined, seat, id);
  }

  /** The round marks what it sees at the member: a title, or a folder. */
  predicate Sees(a: Action, m: Member, key: string)
  {
    (a.SeePresent? && a.m == m && a.id == key) || (a.TakeFolder? && a.m == m && FolderKey(a.name) == key)
  }

  lemma {:induction false} MarkedPass(w: World, acts: seq<Action>, now: int, m: Member, key: string)
    requires StatusOf(w.ledger, m.name, key).Some? || exists a :: a in acts && Sees(a, m, key)
    ensures StatusOf(Run(w, acts, now).ledger, m.name, key).Some?
    decreases |acts|
  {
    if acts != [] {
      var a := acts[0];
      assert acts == [a] + acts[1..];
      if Sees(a, m, key) {
        MarkOther(w.ledger, m.name, key, Delivered, m.name, key);
      } else if StatusOf(w.ledger, m.name, key).Some? {
        MarkedAct(w, a, now, m.name, key);
      }
      MarkedPass(Apply(w, a, now), acts[1..], now, m, key);
    }
  }

  /** The distribution half of a pass: the pool is only read. */
  ghost predicate OnlyGives(acts: seq<Action>)
  {
    forall a :: a in acts ==> a.GiveTitle? || a.GiveFolder?
  }

  /** A title handed over before, absent from the member now and in the pool, is declined by
      the distribution and not restored. */
  lemma {:induction false} GoneIsDeclined(w: World, acts: seq<Action>, now: int, m: Member, id: string)
    requires OnlyGives(acts) && OneMember(acts, m.name, m.home)
    requires exists o :: GiveTitle(m, id, o) in acts
    requires m.home in w.at && id !in w.at[m.home].apps && StatusOf(w.ledger, m.name, id).Some?
    requires id in w.store.apps && Installed(w.store.apps[id])
    ensures var v := Run(w, acts, now);
      StatusOf(v.ledger, m.name, id) == Some(Declined) && m.home in v.at && id !in v.at[m.home].apps
    decreases |acts|
  {
    var a := acts[0];
    assert a in acts;
    assert acts == [a] + acts[1..];
    if StatusOf(w.ledger, m.name, id) == Some(Declined) {
      DeclinedPass(w, acts, now, m.name, m.home, id);
    } else {
      var v := Apply(w, a, now);
      assert StatusOf(w.ledger, m.name, id).value == Delivered;
      DeliveredAbsent(w, a, now, m, id);
      var o :| GiveTitle(m, id, o) in acts;
      assert a != GiveTitle(m, id, o) ==> GiveTitle(m, id, o) in acts[1..];
      assert forall b :: b in acts[1..] ==> b in acts;
      if StatusOf(v.ledger, m.name, id) == Some(Declined) {
        DeclinedPass(v, acts[1..], now, m.name, m.home, id);
      } else {
        GoneIsDeclined(v, acts[1..], now, m, id);
      }
    }
  }

  lemma DeliveredAbsent(w: World, a: Action, now: int, m: Member, id: string)
    requires (a.GiveTitle? || a.GiveFolder?) && OneMember([a], m.name, m.home)
    requires m.home in w.at && id !in w.at[m.home].apps && StatusOf(w.ledger, m.name, id) == Some(Delivered)
    requires id in w.store.apps && Installed(w.store.apps[id])
    ensures var v := Apply(w, a, now);
      && v.store == w.store && m.home in v.at && id !in v.at[m.home].apps
      && StatusOf(v.ledger, m.name, id).Some?
      && ((exists o :: a == GiveTitle(m, id, o)) ==> StatusOf(v.ledger, m.name, id) == Some(Declined))
  {
    assert a in [a];
    MarkedAct(w, a, now, m.name, id);
    if a.GiveTitle? && a.m.home == m.home && a.id == id {
      assert DecideTitle(w, a.m, id) == Decline;
      MarkOther(w.ledger, m.name, id, Declined, m.name, id);
    }
  }

  /** A title present at one pass and gone at the next while the pool has it: the second
      pass marks it declined and does not restore it, whatever else changed between. */
  lemma SeenThenGone(w: World, first: seq<Action>, t: int, at: map<string, Library>,
                     harvest: seq<Action>, gives: seq<Action>, now: int, m: Member, id: string)
    requires SeePresent(m, id) in first
    requires m.home in at && id !in at[m.home].apps
    requires forall a :: a in harvest ==> !a.GiveTitle? && !a.GiveFolder?
    requires OnlyGives(gives) && OneMember(gives, m.name, m.home) && exists o :: GiveTitle(m, id, o) in gives
    requires var mid := Run(Run(w, first, t).(at := at), harvest, now);
      id in mid.store.apps && Installed(mid.store.apps[id])
    ensures var v := Run(Run(w, first, t).(at := at), harvest + gives, now);
      StatusOf(v.ledger, m.name, id) == Some(Declined) && m.home in v.at && id !in v.at[m.home].apps
  {
    var seen := Run(w, first, t);
    assert Sees(SeePresent(m, id), m, id);
    MarkedPass(w, first, t, m, id);
    var start := seen.(at := at);
    HarvestReads(start, harvest, now);
    MarkedPass(start, harvest, now, m, id);
    RunJoin(start, harvest, gives, now);
    GoneIsDeclined(Run(start, harvest, now), gives, now, m, id);
  }

  /** Harvesting never writes into a library. */
  lemma {:induction false} HarvestReads(w: World, acts: seq<Action>, now: int)
    requires forall a :: a in acts ==> !a.GiveTitle? && !a.GiveFolder?
    ensures Run(w, acts, now).at == w.at && Run(w, acts, now).quiet == w.quiet
    ensures Run(w, acts, now).ledger.withheld == w.ledger.withheld
    decreases |acts|
  {
    if acts != [] {
      assert acts[0] in acts;
      assert forall b :: b in acts[1..] ==> b in acts;
      HarvestReads(Apply(w, acts[0], now), acts[1..], now);
    }
  }

  // ------------------------------------------------------- the same for folders

  /** The member has no such folder. */
  ghost predicate Lacks(w: World, home: string, name: string)
  {
    home in w.at && !HasDir(Dirs(w.at[home].shared), name)
  }

  /** A clone of another folder, failed or not, does not bring it back. */
  lemma LacksStill(w: World, a: Action, now: int, home: string, name: string)
    requires Plausible(w, a, now) && Plain(name) && Lacks(w, home, name)
    requires a.GiveFolder? && a.m.home == home && a.name == name ==> DecideFolder(w, a.m, name) != Give
    ensures Lacks(Apply(w, a, now), home, name)
  {
    if a.GiveFolder? && a.m.home == home && DecideFolder(w, a.m, a.name) == Give {
      OthersAreKept(Dirs(w.at[home].shared), a.name, w.store.shared[a.name], true, a.o, name);
    }
  }

  lemma {:induction false} DeclinedFolderPass(w: World, acts: seq<Action>, now: int, seat: string, home: string,
                                              name: string)
    requires StatusOf(w.ledger, seat, FolderKey(name)) == Some(Declined) && OneMember(acts, seat, home)
    requires PlausibleRun(w, acts, now) && Plain(name) && Lacks(w, home, name)
    ensures var v := Run(w, acts, now);
      StatusOf(v.ledger, seat, FolderKey(name)) == Some(Declined) && Lacks(v, home, name)
    decreases |acts|
  {
    if acts != [] {
      var a := acts[0];
      assert a in acts;
      DeclinedAct(w, a, now, seat, FolderKey(name));
      LacksStill(w, a, now, home, name);
      assert forall b :: b in acts[1..] ==> b in acts;
      DeclinedFolderPass(Apply(w, a, now), acts[1..], now, seat, home, name);
    }
  }

  /** In every pass of the run each clone did what clones do. */
  ghost predicate AllPlausible(w: World, steps: seq<Step>)
    decreases |steps|
  {
    steps != [] ==>
      && (steps[0].Pass? ==> PlausibleRun(w, steps[0].acts, steps[0].now))
      && AllPlausible(After(w, steps[0]), steps[1..])
  }

  ghost predicate FolderNeverGiven(w: World, steps: seq<Step>, seat: string, home: string, name: string)
    decreases |steps|
  {
    steps != [] ==>
      && (steps[0].Pass? && Lacks(w, home, name) ==> Lacks(After(w, steps[0]), home, name))
      && FolderNeverGiven(After(w, steps[0]), steps[1..], seat, home, name)
  }

  /** A declined folder, whatever clones fail: over every run until its mark is cleared no
      pass gives it to the member that lacks it. */
  lemma {:induction false} DeclinedFolderStaysDeclined(w: World, steps: seq<Step>, seat: string, home: string,
                                                       name: string)
    requires StatusOf(w.ledger, seat, FolderKey(name)) == Some(Declined) && Plain(name) && AllPlausible(w, steps)
    requires forall s :: s in steps ==> !Clears(s, seat, FolderKey(name)) && (s.Pass? ==> OneMember(s.acts, seat, home))
    ensures FolderNeverGiven(w, steps, seat, home, name)
    ensures StatusOf(AfterAll(w, steps).ledger, seat, FolderKey(name)) == Some(Declined)
    decreases |steps|
  {
    if steps != [] {
      var s := steps[0];
      assert s in steps;
      DeclinedStep(w, s, seat, FolderKey(name));
      if s.Pass? && Lacks(w, home, name) {
        DeclinedFolderPass(w, s.acts, s.now, seat, home, name);
      }
      assert forall t :: t in steps[1..] ==> t in steps;
      DeclinedFolderStaysDeclined(After(w, s), steps[1..], seat, home, name);
    }
  }

  /** A folder with a mark, absent from the member now and in the pool, is declined by the
      distribution and not restored. */
  lemma {:induction false} GoneFolderIsDeclined(w: World, acts: seq<Action>, now: int, m: Member, name: string)
    requires OnlyGives(acts) && OneMember(acts, m.name, m.home) && PlausibleRun(w, acts, now)
    requires exists o :: GiveFolder(m, name, o) in acts
    requires Plain(name) && Lacks(w, m.home, name) && w.at[m.home].shared.Some?
    requires StatusOf(w.ledger, m.name, FolderKey(name)).Some?
    requires name in w.ledger.folders && HasDir(w.store.shared, name)
    ensures var v := Run(w, acts, now);
      StatusOf(v.ledger, m.name, FolderKey(name)) == Some(Declined) && Lacks(v, m.home, name)
    decreases |acts|
  {
    var a := acts[0];
    assert a in acts;
    assert acts == [a] + acts[1..];
    if StatusOf(w.ledger, m.name, FolderKey(name)) == Some(Declined) {
      DeclinedFolderPass(w, acts, now, m.name, m.home, name);
    } else {
      var v := Apply(w, a, now);
      assert StatusOf(w.ledger, m.name, FolderKey(name)).value == Delivered;
      DeliveredFolderAbsent(w, a, now, m, name);
      var o :| GiveFolder(m, name, o) in acts;
      assert a != GiveFolder(m, name, o) ==> GiveFolder(m, name, o) in acts[1..];
      assert forall b :: b in acts[1..] ==> b in acts;
      if StatusOf(v.ledger, m.name, FolderKey(name)) == Some(Declined) {
        DeclinedFolderPass(v, acts[1..], now, m.name, m.home, name);
      } else {
        GoneFolderIsDeclined(v, acts[1..], now, m, name);
      }
    }
  }

  lemma DeliveredFolderAbsent(w: World, a: Action, now: int, m: Member, name: string)
    requires (a.GiveTitle? || a.GiveFolder?) && OneMember([a], m.name, m.home) && Plausible(w, a, now)
    requires Plain(name) && Lacks(w, m.home, name) && w.at[m.home].shared.Some?
    requires StatusOf(w.ledger, m.name, FolderKey(name)) == Some(Delivered)
    requires name in w.ledger.folders && HasDir(w.store.shared, name)
    ensures var v := Apply(w, a, now);
      && v.store == w.store && v.ledger.folders == w.ledger.folders
      && Lacks(v, m.home, name) && v.at[m.home].shared.Some?
      && StatusOf(v.ledger, m.name, FolderKey(name)).Some?
      && ((exists o :: a == GiveFolder(m, name, o)) ==> StatusOf(v.ledger, m.name, FolderKey(name)) == Some(Declined))
  {
    assert a in [a];
    MarkedAct(w, a, now, m.name, FolderKey(name));
    if a.GiveFolder? && a.m.home == m.home && a.name == name {
      DeclinesFolder(w, a, now, m, name);
    } else {
      LacksStill(w, a, now, m.home, name);
    }
  }

  lemma DeclinesFolder(w: World, a: Action, now: int, m: Member, name: string)
    requires a.GiveFolder? && a.m.home == m.home && a.m.name == m.name && a.name == name
    requires Lacks(w, m.home, name) && w.at[m.home].shared.Some?
    requires StatusOf(w.ledger, m.name, FolderKey(name)) == Some(Delivered)
    requires name in w.ledger.folders && HasDir(w.store.shared, name)
    ensures var v := Apply(w, a, now);
      v == w.(ledger := Mark(w.ledger, m.name, FolderKey(name), Declined))
      && v.ledger.folders == w.ledger.folders
      && StatusOf(v.ledger, m.name, FolderKey(name)) == Some(Declined)
  {
    assert DecideFolder(w, a.m, name) == Decline;
    MarkOther(w.ledger, m.name, FolderKey(name), Declined, m.name, FolderKey(name));
  }

  /** A folder present at one pass and gone at the next while the pool has it: the second
      pass marks it declined and does not restore it. */
  lemma FolderSeenThenGone(w: World, first: seq<Action>, t: int, at: map<string, Library>,
                           harvest: seq<Action>, gives: seq<Action>, now: int, m: Member, name: string)
    requires exists o :: TakeFolder(m, name, o) in first
    requires Plain(name) && m.home in at && at[m.home].shared.Some? && !HasDir(at[m.home].shared.value, name)
    requires forall a :: a in harvest ==> !a.GiveTitle? && !a.GiveFolder?
    requires OnlyGives(gives) && OneMember(gives, m.name, m.home) && exists o :: GiveFolder(m, name, o) in gives
    requires var mid := Run(Run(w, first, t).(at := at), harvest, now);
      name in mid.ledger.folders && HasDir(mid.store.shared, name) && PlausibleRun(mid, gives, now)
    ensures var v := Run(Run(w, first, t).(at := at), harvest + gives, now);
      StatusOf(v.ledger, m.name, FolderKey(name)) == Some(Declined) && Lacks(v, m.home, name)
  {
    var seen := Run(w, first, t);
    var o :| TakeFolder(m, name, o) in first;
    assert Sees(TakeFolder(m, name, o), m, FolderKey(name));
    MarkedPass(w, first, t, m, FolderKey(name));
    var start := seen.(at := at);
    HarvestReads(start, harvest, now);
    MarkedPass(start, harvest, now, m, FolderKey(name));
    RunJoin(start, harvest, gives, now);
    GoneFolderIsDeclined(Run(start, harvest, now), gives, now, m, name);
  }

  /** With no mark a whole title is given to a member without it, and with any it is not;
      offering it again takes the mark away. */
  lemma OfferedIsGiven(w: World, m: Member, id: string)
    requires m.home in w.at && id !in w.at[m.home].apps && Whole(w.store, id) && Installed(w.store.apps[id])
    ensures DecideTitle(w, m, id) == Give <==> StatusOf(w.ledger, m.name, id) == None
    ensures DecideTitle(After(w, OfferStep(m.name, id)), m, id) == Give
  {
    assert StatusOf(Offer(w.ledger, m.name, id), m.name, id) == None;
  }

  // ------------------------------------------------------- declined but there

  /** With a decline on record the title is given exactly when the member has an older build
      of it all the same: a copy that is there is kept up to date whatever the mark says. */
  lemma DeclinedIsUpdatedIff(w: World, m: Member, id: string)
    requires StatusOf(w.ledger, m.name, id) == Some(Declined)
    ensures DecideTitle(w, m, id) == Give <==>
      && m.home in w.at && id in w.at[m.home].apps
      && Whole(w.store, id) && Installed(w.store.apps[id])
      && NewerBuild(w.store.apps[id].build, w.at[m.home].apps[id].build) && m.updatable
  {
  }

  /** Such a copy: build 1 at a member that turned the title down, build 2 in the pool. */
  lemma DeclinedIsDelivered() returns (w: World, m: Member, id: string, o: Outcome)
    ensures StatusOf(w.ledger, m.name, id) == Some(Declined) && m.home in w.at && id in w.at[m.home].apps
    ensures Plausible(w, GiveTitle(m, id, o), 0)
    ensures var v := Apply(w, GiveTitle(m, id, o), 0);
      && Says(w, GiveTitle(m, id, o), 0).delivered == [Move(id, m.name)]
      && w.at[m.home].apps[id].build == "1" && w.store.apps[id].build == "2" && v.at[m.home].apps[id].build == "2"
  {
    id, m := "7", Member("seat", true, false, "home");
    var had, has := App(id, "Game", "Game", "1", STATE_INSTALLED, 0), App(id, "Game", "Game", "2", STATE_INSTALLED, 0);
    var files := map["Game" := Dir(1, map[])];
    o := Outcome(map["Game" := Dir(1, map[])], true, true);
    w := World(Ledger(map["seat" := map[id := Declined]], map[], map[], [], []),
               Store(map[id := has], files, map[]),
               map["home" := Library(map[id := had], Some(files), None)], 0);
  }
}
