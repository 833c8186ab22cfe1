/** What makes up a pass of Sync: its rounds, over which libraries and members, and which of
    them do nothing (internal/library/pool.go, Sync). */
module PoolPasses {
  import opened PoolModel
  import opened PoolSteps
  import opened PoolSafety
  import opened PoolForward

  ghost predicate Distinct(members: seq<Member>)
  {
    forall m, n :: m in members && n in members && m != n ==> m.name != n.name && m.home != n.home
  }

  /** The actions of a pass over these members and libraries. */
  ghost predicate Among(acts: seq<Action>, members: seq<Member>, homes: set<string>)
  {
    forall a :: a in acts ==> match a
      case SeePresent(m, _) => m in members
      case TakeTitle(home, _, _, _) => home in homes
      case TakeFolder(m, _, _) => m in members
      case GiveTitle(m, _, _) => m in members
      case GiveFolder(m, _, _) => m in members
  }

  /** A round of a harvest is of what the library holds. */
  predicate There(w: World, a: Action)
  {
    match a
    case SeePresent(m, id) => m.home in w.at && id in w.at[m.home].apps
    case TakeFolder(m, name, _) => Scanned(w, m.home, name)
    case _ => true
  }

  predicate OnlyThere(w: World, acts: seq<Action>)
  {
    forall a :: a in acts ==> There(w, a)
  }

  /** The whole first half of a pass: everything present is marked and has its round. */
  ghost predicate FullHarvest(w: World, acts: seq<Action>, members: seq<Member>, homes: set<string>)
  {
    && HarvestsAll(w, acts, homes) && Among(acts, members, homes)
    && (forall m :: m in members ==> m.home in homes)
    && (forall m, id :: m in members && m.home in w.at && id in w.at[m.home].apps ==> SeePresent(m, id) in acts)
    && (forall m, name :: m in members && Scanned(w, m.home, name) ==> exists o :: TakeFolder(m, name, o) in acts)
  }

  /** The whole second half: every member has its round for everything in the pool. */
  ghost predicate FullGives(w: World, acts: seq<Action>, members: seq<Member>, homes: set<string>)
  {
    && OnlyGives(acts) && Among(acts, members, homes)
    && (forall m, id, o :: GiveTitle(m, id, o) in acts ==> id in w.store.apps)
    && (forall m, id :: m in members && m.home in w.at && id in w.store.apps ==>
        exists o :: GiveTitle(m, id, o) in acts)
    && (forall m, name :: m in members && m.home in w.at && w.at[m.home].shared.Some? && name in w.ledger.folders ==>
          exists o :: GiveFolder(m, name, o) in acts)
  }

  /** A whole pass over the members and the watched libraries, no loop of which stopped:
      `harvest` and `gives` are its rounds. */
  ghost predicate WholePass(w: World, harvest: seq<Action>, gives: seq<Action>, now: int, members: seq<Member>,
                            homes: set<string>)
  {
    && FullHarvest(w, harvest, members, homes) && SmoothRun(w, harvest, now)
    && FullGives(Run(w, harvest, now), gives, members, homes) && SmoothRun(Run(w, harvest, now), gives, now)
  }

  // ----------------------------------------------------------------- keys, marks

  /** No title is filed under what is the key of a folder; ids are numbers. */
  ghost predicate TitleIds(w: World)
  {
    && (forall id :: id in w.store.apps ==> !IsFolderKey(id))
    && (forall home, id :: home in w.at && id in w.at[home].apps ==> !IsFolderKey(id))
  }

  lemma TitleIdsAct(w: World, a: Action, now: int)
    requires TitleIds(w)
    ensures TitleIds(Apply(w, a, now))
  {
    var v := Apply(w, a, now);
    ActAppsFrom(w, a, now);
    forall id | id in v.store.apps
      ensures !IsFolderKey(id)
    {
      var home := FromStore(w, v, now, id);
    }
    forall home, id | home in v.at && id in v.at[home].apps
      ensures !IsFolderKey(id)
    {
      FromLibrary(w, v, now, home, id);
    }
  }

  lemma {:induction false} TitleIdsRun(w: World, acts: seq<Action>, now: int)
    requires TitleIds(w)
    ensures TitleIds(Run(w, acts, now))
    decreases |acts|
  {
    if acts != [] {
      TitleIdsAct(w, acts[0], now);
      TitleIdsRun(Apply(w, acts[0], now), acts[1..], now);
    }
  }

  lemma FolderKeys(name: string, other: string)
    ensures IsFolderKey(FolderKey(name)) && FolderKey(name) == "folder:" + name
    ensures FolderKey(name) == FolderKey(other) ==> name == other
  {
    assert FolderKey(name)[|FOLDER_PREFIX|..] == name;
    assert FolderKey(other)[|FOLDER_PREFIX|..] == other;
  }

  lemma MarkAgain(l: Ledger, seat: string, key: string)
    requires StatusOf(l, seat, key).Some?
    ensures Mark(l, seat, key, Delivered) == l
  {
    if StatusOf(l, seat, key).value == Delivered {
      assert l.delivered[seat][key := Delivered] == l.delivered[seat];
      assert l.delivered[seat := l.delivered[seat]] == l.delivered;
    }
  }

  // ------------------------------------------------------------------- halves

  /** The distribution never writes into the pool. */
  lemma {:induction false} GivesRead(w: World, acts: seq<Action>, now: int)
    requires OnlyGives(acts)
    ensures Run(w, acts, now).store == w.store && Run(w, acts, now).ledger.folders == w.ledger.folders
    ensures Run(w, acts, now).quiet == w.quiet
    decreases |acts|
  {
    if acts != [] {
      assert acts[0] in acts;
      assert forall b :: b in acts[1..] ==> b in acts;
      GivesRead(Apply(w, acts[0], now), acts[1..], now);
    }
  }

  lemma {:induction false} SameHomes(w: World, acts: seq<Action>, now: int)
    ensures Run(w, acts, now).at.Keys == w.at.Keys
    decreases |acts|
  {
    if acts != [] {
      assert Apply(w, acts[0], now).at.Keys == w.at.Keys;
      SameHomes(Apply(w, acts[0], now), acts[1..], now);
    }
  }

  // ---------------------------------------------------------------- quiescence

  /** An action that changes nothing and reports nothing that counts. */
  ghost predicate Quiescent(w: World, a: Action, now: int)
  {
    Apply(w, a, now) == w && Empty(Says(w, a, now))
  }

  lemma {:induction false} QuiescentRun(w: World, acts: seq<Action>, now: int)
    requires forall a :: a in acts ==> Quiescent(w, a, now)
    ensures Run(w, acts, now) == w && Empty(RunSays(w, acts, now))
    decreases |acts|
  {
    if acts != [] {
      assert acts[0] in acts;
      assert forall b :: b in acts[1..] ==> b in acts;
      QuiescentRun(w, acts[1..], now);
    }
  }
}
