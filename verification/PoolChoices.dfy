/** What decides whether a copy is taken or handed over, said plainly, and that nobody's copy
    is written over while it is in use (internal/library/pool.go). */
module PoolChoices {
  import opened Wrappers
  import opened FileTree
  import opened Titles
  import opened PoolModel
  import opened PoolSteps
  import opened PoolForward

  /** The keys of the ledger that are folders, and which. */
  lemma FolderKeyIff(key: string)
    ensures IsFolderKey(key) <==> |key| >= 7 && key[..7] == "folder:"
    ensures IsFolderKey(key) ==> key == "folder:" + FolderOf(key)
  {
  }

  // ------------------------------------------------------------------- titles

  /** Steam has finished with the title. */
  predicate Finished(a: App)
  {
    a.flags == 4 && a.dir != "" && a.id != ""
  }

  /** The directory is there, and is one. */
  predicate HasFiles(e: map<string, Node>, dir: string)
  {
    dir in e && e[dir].Dir?
  }

  /** As numbers of 64 bits. */
  ghost predicate LaterBuild(a: string, b: string)
  {
    exists x, y :: IsBuild(a, x) && IsBuild(b, y) && x > y
  }

  lemma LaterIsNewer(a: string, b: string)
    ensures NewerBuild(a, b) <==> LaterBuild(a, b)
  {
    NewerBuildIff(a, b);
    if x, y :| IsBuild(a, x) && IsBuild(b, y) && x > y {
      assert Denotes(a, x) && Denotes(b, y);
    }
    if NewerBuild(a, b) {
      var x, y :| Denotes(a, x) && Denotes(b, y) && -0x8000_0000_0000_0000 <= y < x <= 0x7fff_ffff_ffff_ffff;
      assert IsBuild(a, x) && IsBuild(b, y);
    }
  }

  /** A library's copy is taken exactly when it is finished, with its files there, untouched
      for long enough and not withheld, and of a later build than the pool's, if the pool has
      that one with its files. */
  lemma TakesExactly(w: World, home: string, id: string, now: int)
    ensures Takes(w, home, id, now) <==>
      && home in w.at && id in w.at[home].apps
      && var app := w.at[home].apps[id];
      && Finished(app) && now - app.modTime >= w.quiet && app.id !in w.ledger.withheld
      && w.at[home].common.Some? && HasFiles(w.at[home].common.value, app.dir)
      && (id in w.store.apps && HasFiles(w.store.common, w.store.apps[id].dir) ==>
            LaterBuild(app.build, w.store.apps[id].build))
  {
    if home in w.at && id in w.at[home].apps && id in w.store.apps {
      LaterIsNewer(w.at[home].apps[id].build, w.store.apps[id].build);
    }
  }

  /** The pool's copy is handed over to a member that has an older build and is not in use,
      or that has none and no mark for it.  A member in use with an older build waits, and
      one that was given the title before and no longer has it has turned it down. */
  lemma GivesExactly(w: World, m: Member, id: string)
    requires m.home in w.at && id in w.store.apps
    ensures var app, here := w.store.apps[id], w.at[m.home].apps;
      var older := id in here && LaterBuild(app.build, here[id].build);
      && (DecideTitle(w, m, id) == Give <==>
            && Finished(app) && HasFiles(w.store.common, app.dir)
            && ((older && m.updatable) || (id !in here && StatusOf(w.ledger, m.name, id) == None)))
      && (DecideTitle(w, m, id) == Pend <==> Finished(app) && older && !m.updatable)
      && (DecideTitle(w, m, id) == Decline <==>
            Finished(app) && id !in here && StatusOf(w.ledger, m.name, id) == Some(Delivered))
  {
    if id in w.at[m.home].apps {
      LaterIsNewer(w.store.apps[id].build, w.at[m.home].apps[id].build);
    }
  }

  // ------------------------------------------------------------------ folders

  /** Newer files, or as new and more of them. */
  predicate LaterVersion(a: Version, b: Version)
  {
    a.newest > b.newest || (a.newest == b.newest && a.bytes > b.bytes)
  }

  /** A shared folder is taken exactly when it is found there, nothing in it has changed for
      long enough, and the pool has no copy or no record of it, or a record of an older
      version. */
  lemma TakesFolderExactly(w: World, home: string, name: string, now: int)
    ensures TakesFolder(w, home, name, now) <==>
      && home in w.at && w.at[home].shared.Some? && HasFiles(w.at[home].shared.value, name)
      && name != "" && name[0] != '.' && '/' !in name && '\\' !in name
      && var mine := VersionAt(w.at[home].shared.value, name);
      && now - mine.newest >= w.quiet
      && (name in w.ledger.folders && HasFiles(w.store.shared, name) ==> LaterVersion(mine, w.ledger.folders[name]))
  {
  }

  /** The pool's copy of a folder is handed over likewise. */
  lemma GivesFolderExactly(w: World, m: Member, name: string)
    requires m.home in w.at && w.at[m.home].shared.Some?
    requires name in w.ledger.folders && HasFiles(w.store.shared, name)
    requires name != "" && name[0] != '.' && '/' !in name && '\\' !in name
    ensures var here := w.at[m.home].shared.value;
      var older := HasFiles(here, name) && LaterVersion(w.ledger.folders[name], VersionAt(here, name));
      var d, mark := DecideFolder(w, m, name), StatusOf(w.ledger, m.name, FolderKey(name));
      && (d == Give <==> (older && m.updatable) || (!HasFiles(here, name) && mark == None))
      && (d == Pend <==> older && !m.updatable)
      && (d == Decline <==> !HasFiles(here, name) && mark == Some(Delivered))
  {
  }

  /** The pool's record of a folder is what it holds after a copy that came and could be
      measured, and the mark is made whether one was taken or not. */
  lemma RecordsExactly(w: World, m: Member, name: string, o: Outcome, now: int)
    ensures var a := PoolModel.TakeFolder(m, name, o);
      var taken, l := TakesFolder(w, m.home, name, now), Apply(w, a, now).ledger;
      && l.folders == (if taken && o.ok && o.after && HasFiles(o.left, name)
                       then w.ledger.folders[name := VersionAt(o.left, name)] else w.ledger.folders)
      && StatusOf(l, m.name, "folder:" + name).Some?
      && (Stops(w, a, now) <==> taken && !(o.ok && o.after && HasFiles(o.left, name)))
  {
  }

  // ------------------------------------------------------------------- in use

  /** The rounds write to this library only for a member that is in use. */
  ghost predicate InUse(acts: seq<Action>, home: string)
  {
    forall a :: a in acts && (a.GiveTitle? || a.GiveFolder?) && a.m.home == home ==> !a.m.updatable
  }

  /** What the title is in the library. */
  ghost predicate TitleAsItWas(w: World, v: World, home: string, id: string)
  {
    && home in w.at && home in v.at && id in w.at[home].apps && id in v.at[home].apps
    && v.at[home].apps[id] == w.at[home].apps[id]
    && var dir := w.at[home].apps[id].dir;
    && (dir in Dirs(v.at[home].common) <==> dir in Dirs(w.at[home].common))
    && (dir in Dirs(w.at[home].common) ==> Dirs(v.at[home].common)[dir] == Dirs(w.at[home].common)[dir])
  }

  lemma InUseAct(w: World, a: Action, now: int, home: string, id: string, owner: map<string, string>)
    requires Plausible(w, a, now) && InUse([a], home) && DirsOwned(w, owner)
    requires home in w.at && id in w.at[home].apps && Plain(w.at[home].apps[id].dir)
    ensures TitleAsItWas(w, Apply(w, a, now), home, id)
  {
    assert a in [a];
    if a.GiveTitle? && a.m.home == home && DecideTitle(w, a.m, a.id) == Give {
      assert a.id != id;
      OthersAreKept(Dirs(w.at[home].common), w.store.apps[a.id].dir, w.store.common[w.store.apps[a.id].dir], false, a.o,
                    w.at[home].apps[id].dir);
    }
  }

  /** Over any pass, whatever clones fail: while a member is in use no title it has is
      touched, neither its manifest nor its files. */
  lemma {:induction false} InUseIsKept(w: World, acts: seq<Action>, now: int, home: string, id: string,
                                       owner: map<string, string>)
    requires PlausibleRun(w, acts, now) && InUse(acts, home) && DirsOwned(w, owner)
    requires home in w.at && id in w.at[home].apps && Plain(w.at[home].apps[id].dir)
    ensures TitleAsItWas(w, Run(w, acts, now), home, id)
    decreases |acts|
  {
    if acts != [] {
      var a := acts[0];
      assert a in acts;
      assert forall b :: b in acts[1..] ==> b in acts;
      InUseAct(w, a, now, home, id, owner);
      ActAppsFrom(w, a, now);
      OwnedKeeps(w, Apply(w, a, now), now, owner);
      InUseIsKept(Apply(w, a, now), acts[1..], now, home, id, owner);
    }
  }

  lemma InUseFolderAct(w: World, a: Action, now: int, home: string, name: string)
    requires Plausible(w, a, now) && InUse([a], home)
    requires home in w.at && HasDir(Dirs(w.at[home].shared), name) && Plain(name)
    ensures var v := Apply(w, a, now);
      home in v.at && HasDir(Dirs(v.at[home].shared), name)
      && Dirs(v.at[home].shared)[name] == Dirs(w.at[home].shared)[name]
  {
    assert a in [a];
    if a.GiveFolder? && a.m.home == home && DecideFolder(w, a.m, a.name) == Give {
      assert a.name != name;
      OthersAreKept(Dirs(w.at[home].shared), a.name, w.store.shared[a.name], true, a.o, name);
    }
  }

  /** And no folder. */
  lemma {:induction false} InUseFolderIsKept(w: World, acts: seq<Action>, now: int, home: string, name: string)
    requires PlausibleRun(w, acts, now) && InUse(acts, home)
    requires home in w.at && HasDir(Dirs(w.at[home].shared), name) && Plain(name)
    ensures var v := Run(w, acts, now);
      home in v.at && HasDir(Dirs(v.at[home].shared), name)
      && Dirs(v.at[home].shared)[name] == Dirs(w.at[home].shared)[name]
    decreases |acts|
  {
    if acts != [] {
      assert acts[0] in acts;
      assert forall b :: b in acts[1..] ==> b in acts;
      InUseFolderAct(w, acts[0], now, home, name);
      InUseFolderIsKept(Apply(w, acts[0], now), acts[1..], now, home, name);
    }
  }
}
