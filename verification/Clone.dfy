/** The swap at the end of a clone: the copy is moved into place, what the seat owns is
    carried across, and every failure is rolled back (internal/library/clone.go).

    A directory held open is a top-level name of the destination's parent and a path
    below it.  Every step that changes the disk may fail; looking at it is exact. */
module Clone {
  import opened FileTree
  import opened SeatPrivate
  import opened TreeEdits
  import opened CloneTrees

  /** A directory and the modification time to give it back. */
  datatype Stamp = Stamp(top: string, path: Path, mtime: int)

  datatype Opened = Opened | NotThere | Failed

  const OLD_SUFFIX := ".polyseat-old"
  const STAGING_PREFIX := ".polyseat-clone-"

  /** What the copy at `name` owns, as privateDirsAt finds it. */
  ghost function Owned(e: map<string, Node>, name: string): set<Path>
  {
    var parent := Dir(0, e);
    if IsDirAt(parent, name) then PrivateDirs(e[name], IsDrive(parent, name)) else {}
  }

  /** The tree a clone of `src` leaves at `name`: the source without the seat's places,
      and in them what the destination had there. */
  ghost function CloneOver(src: Node, e: map<string, Node>, name: string, private: bool): Node
  {
    var c := ToCarry(e, name, private);
    if c != {} && name in e then Graft(Without(src, c), e[name], c) else src
  }

  function OldName(name: string): string { name + OLD_SUFFIX }

  /** The old copy as a failed clone leaves it: the same entries and the same saves, and
      the same times too unless one of its times could not be set. */
  ghost predicate OldCopy(d: Node, x: Node, carry: set<Path>, exact: bool)
  {
    && Untimed(x) == Untimed(d)
    && (forall p :: p in carry ==> Get(x, p) == Get(d, p))
    && (exact ==> x == d)
  }

  /** The destination is what it was, whole, at its own name or moved aside. */
  ghost predicate Restored(e: map<string, Node>, e': map<string, Node>, name: string, carry: set<Path>, exact: bool)
  {
    if name !in e then name !in e'
    else
      || (name in e' && OldCopy(e[name], e'[name], carry, exact))
      || (name !in e' && OldName(name) in e' && OldCopy(e[name], e'[OldName(name)], carry, exact))
  }

  /** Every private directory is in exactly one of the copy moved aside and the staging
      directory that was kept. */
  ghost predicate Split(e: map<string, Node>, e': map<string, Node>, name: string, staging: string, carry: set<Path>)
  {
    && name in e && name !in e' && OldName(name) in e' && staging in e'
    && forall p :: p in carry ==>
         || (Get(e'[OldName(name)], p) == Get(e[name], p) && Get(e'[staging], p) == Missing)
         || (Get(e'[staging], p) == Get(e[name], p) && Get(e'[OldName(name)], p) == Missing)
  }

  ghost predicate OnlyThese(e: map<string, Node>, e': map<string, Node>, names: set<string>)
  {
    forall n :: n !in names ==> (n in e <==> n in e') && (n in e ==> e'[n] == e[n])
  }

  /** Whether anything at `name` has a private directory that a clone carries. */
  ghost function ToCarry(e: map<string, Node>, name: string, private: bool): set<Path>
  {
    if private then Owned(e, name) else {}
  }

  lemma OwnedIsThere(e: map<string, Node>, name: string)
    ensures Apart(Owned(e, name))
    ensures forall p :: p in Owned(e, name) ==> name in e && Get(e[name], p).Present?
  {
    var parent := Dir(0, e);
    if IsDirAt(parent, name) {
      PrivateDirsApart(e[name], IsDrive(parent, name));
      forall p | p in Owned(e, name)
        ensures Get(e[name], p).Present?
      {
        PrivateDirsAreDirs(e[name], IsDrive(parent, name), p);
      }
    }
  }

  /** The stamps carryPrivate keeps: of the directory the saves are in, and of every
      directory on the way to where they go. */
  ghost function Kept(from: string, par: Path, m: int, to: string, times: seq<int>): seq<Stamp>
    requires |times| <= |par| + 1
  {
    [Stamp(from, par, m)] + Ways(to, par, times)
  }

  ghost function Ways(to: string, par: Path, times: seq<int>): seq<Stamp>
    requires |times| <= |par| + 1
  {
    seq(|times|, k requires 0 <= k < |times| => Stamp(to, par[..k], times[k]))
  }

  lemma WaysMore(to: string, par: Path, k: nat, times: seq<int>, when: int, kept: seq<Stamp>)
    requires k < |par| && |times| == k + 1
    ensures kept + Ways(to, par, times) + [Stamp(to, par[..k + 1], when)] == kept + Ways(to, par, times + [when])
  {
    assert Ways(to, par, times + [when]) == Ways(to, par, times) + [Stamp(to, par[..k + 1], when)];
  }

  /** No path of the family that is not the one being moved is on the way to it. */
  lemma OffTheWay(family: set<Path>, par: Path, base: string, q: Path)
    requires Apart(family) && par + [base] in family && q in family
    ensures forall k :: 0 <= k <= |par| ==> !(q <= par[..k])
    ensures q != par + [base] ==> !(par + [base] <= q) && !(q <= par + [base])
  {
    var name := par + [base];
    forall k | 0 <= k <= |par|
      ensures !(q <= par[..k])
    {
      assert par[..k] == name[..k];
      assert q <= par[..k] ==> q <= name;
    }
  }

  lemma AllOffTheWay(family: set<Path>, par: Path, base: string)
    requires Apart(family) && par + [base] in family
    ensures forall q, k :: q in family && 0 <= k <= |par| ==> !(q <= par[..k])
  {
    forall q | q in family
      ensures forall k :: 0 <= k <= |par| ==> !(q <= par[..k])
    {
      OffTheWay(family, par, base, q);
    }
  }

  lemma PartFree(t: Node, p: Path, part: string)
    requires DirAt(t, p)
    ensures var dir := Get(t, p).node;
      Get(t, p + [part]) == if part in dir.kids then Present(dir.kids[part]) else Missing
  {
    GetPath(t, p, [part]);
    GetHead(Get(t, p).node, part, []);
    assert [part] + [] == [part];
  }

  lemma MadeIsFree(t: Node, par: Path, k: nat, now: int, born: int)
    requires k < |par| && DirAt(t, par[..k]) && WayFree(t, par)
    ensures var x := Dir(now, Get(t, par[..k]).node.kids[par[k] := Dir(born, map[])]);
      WayFree(Replace(t, par[..k], x), par)
  {
    var p, n := par[..k], par[k];
    var x := Dir(now, Get(t, p).node.kids[n := Dir(born, map[])]);
    forall j | 0 <= j <= |par|
      ensures Free(Replace(t, p, x), par[..j])
    {
      GetReplaced(t, p, x, par[..j]);
      if j > k {
        var r := par[k + 1..j];
        assert par[..j] == p + ([n] + r) && par[..j][|p|..] == [n] + r;
        GetHead(x, n, r);
      } else if j < k {
        assert par[..j] < p;
      } else {
        assert par[..j] == p && par[..j][|p|..] == [];
      }
    }
  }

  /** The directory is there to be moved, and its place in the other tree and the way to it
      are free. */
  ghost predicate Carriable(f: Node, t: Node, name: Path)
  {
    name != [] && Get(f, name).Present? && Get(t, name).Missing? && WayFree(t, name[..|name| - 1])
  }

  ghost predicate AllCarriable(f: Node, t: Node, carry: set<Path>)
  {
    forall p :: p in carry ==> Carriable(f, t, p)
  }

  /** A clone of the source can be made there: everything in it can be copied, and what is
      carried over has its way free. */
  ghost predicate CanClone(src: Found, e: map<string, Node>, name: string, private: bool)
  {
    && src.Present? && src.node.Dir?
    && Copyable(Without(src.node, ToCarry(e, name, private)))
    && WaysFree(Without(src.node, ToCarry(e, name, private)), ToCarry(e, name, private))
  }

  /** A file, a directory or a link, or nothing. */
  predicate CanBeMade(t: Node, p: Path)
  {
    Get(t, p).Present? ==> Get(t, p).node.File? || Get(t, p).node.Dir? || Get(t, p).node.Link?
  }

  /** These are what can be copied, wherever they stand in the tree. */
  lemma {:induction false} CopyableIff(t: Node)
    ensures Copyable(t) <==> forall p :: CanBeMade(t, p)
    decreases t
  {
    if p :| !CanBeMade(t, p) {
      if p != [] {
        CopyableIff(t.kids[p[0]]);
        assert !CanBeMade(t.kids[p[0]], p[1..]);
      }
    }
    if !Copyable(t) {
      if t.Dir? {
        var n :| n in t.kids && !Copyable(t.kids[n]);
        CopyableIff(t.kids[n]);
        var q :| !CanBeMade(t.kids[n], q);
        GetHead(t, n, q);
        assert !CanBeMade(t, [n] + q);
      } else {
        assert !CanBeMade(t, []);
      }
    }
  }

  /** Where there is nothing yet, that is all there is to it. */
  lemma FreshCloneIff(src: Found, e: map<string, Node>, name: string, private: bool)
    requires name !in e
    ensures CanClone(src, e, name, private) <==>
      src.Present? && src.node.Dir? && forall p :: CanBeMade(src.node, p)
  {
    OwnedIsThere(e, name);
    assert ToCarry(e, name, private) == {};
    if src.Present? {
      WithoutNone(src.node);
      CopyableIff(src.node);
    }
  }

  class Directory {
    var entries: map<string, Node>

    /** The trees in which a time could not be set. */
    ghost var unstamped: set<string>

    const disk: Disk

    constructor (e: map<string, Node>, disk: Disk)
      ensures entries == e && unstamped == {} && this.disk == disk
    {
      entries, unstamped := e, {};
      this.disk := disk;
    }

    ghost predicate Open(top: string, p: Path)
      reads this
    {
      top in entries && DirAt(entries[top], p)
    }

    // ------------------------------------------------------------- primitives

    /** setMtime on an open directory. */
    method SetMtime(top: string, p: Path, m: int) returns (ok: bool)
      requires Open(top, p)
      modifies this, disk
      ensures disk.faults >= old(disk.faults)
      ensures ok ==> unstamped == old(unstamped)
      ensures ok ==>
        entries == old(entries)[top := Replace(old(entries)[top], p, Dir(m, Get(old(entries)[top], p).node.kids))]
      ensures !ok ==> unstamped == old(unstamped) + {top} && entries == old(entries)
      ensures disk.faults == old(disk.faults) ==> ok
    {
      ok := disk.Attempt();
      if ok {
        entries := entries[top := Replace(entries[top], p, Dir(m, Get(entries[top], p).node.kids))];
      } else {
        unstamped := unstamped + {top};
      }
    }

    /** renameAt between two held directories: both get a new time. */
    method Rename(from: string, fpar: Path, to: string, tpar: Path, base: string) returns (ok: bool, now: int)
      requires Open(from, fpar) && Open(to, tpar) && from != to
      modifies this`entries, disk
      ensures disk.faults >= old(disk.faults)
      ensures !ok ==> entries == old(entries)
      ensures ok ==>
        var f, t := Get(old(entries)[from], fpar).node, Get(old(entries)[to], tpar).node;
        && base in f.kids
        && (base in t.kids ==> !t.kids[base].Dir? || t.kids[base].kids == map[])
        && entries == old(entries)[from := Replace(old(entries)[from], fpar, Dir(now, f.kids - {base}))]
                                  [to := Replace(old(entries)[to], tpar, Dir(now, t.kids[base := f.kids[base]]))]
      ensures var f, t := Get(old(entries)[from], fpar).node, Get(old(entries)[to], tpar).node;
        disk.faults == old(disk.faults) && base in f.kids && base !in t.kids ==> ok
    {
      now := *;
      ok := disk.Attempt();
      if ok {
        var f, t := Get(entries[from], fpar).node, Get(entries[to], tpar).node;
        // rename(2) takes the place of nothing, of an empty directory by a directory,
        // or of a file by a file
        ok := base in f.kids
          && (base in t.kids ==> if f.kids[base].Dir? then t.kids[base].Dir? && t.kids[base].kids == map[]
                                 else !t.kids[base].Dir?);
        if ok {
          entries := entries[from := Replace(entries[from], fpar, Dir(now, f.kids - {base}))]
                            [to := Replace(entries[to], tpar, Dir(now, t.kids[base := f.kids[base]]))];
        }
      }
    }

    /** ensureDirAt: opens an entry, making it when it is missing. */
    method EnsureDirAt(top: string, p: Path, name: string) returns (ok: bool, created: bool, now: int, born: int)
      requires Open(top, p)
      modifies this`entries, disk
      ensures disk.faults >= old(disk.faults)
      ensures var t, dir := old(entries)[top], Get(old(entries)[top], p).node;
        && (ok ==> created == (name !in dir.kids))
        && (created ==> name !in dir.kids)
        && (ok && !created ==> IsDirAt(dir, name))
        && entries == if created
                      then old(entries)[top := Replace(t, p, Dir(now, dir.kids[name := Dir(born, map[])]))]
                      else old(entries)
      ensures var dir := Get(old(entries)[top], p).node;
        disk.faults == old(disk.faults) && (name in dir.kids ==> dir.kids[name].Dir?) ==> ok
    {
      created, now, born := false, *, *;
      ok := disk.Attempt();
      if ok {
        var dir := Get(entries[top], p).node;
        if name in dir.kids {
          ok := dir.kids[name].Dir?;
        } else {
          created := true;
          entries := entries[top := Replace(entries[top], p, Dir(now, dir.kids[name := Dir(born, map[])]))];
          ok := disk.Attempt(); // the open of what was just made
        }
      }
    }

    /** openRel: one component at a time, a link or a file on the way refused. */
    method OpenRel(top: string, rel: Path) returns (r: Opened)
      requires top in entries
      modifies disk
      ensures disk.faults >= old(disk.faults)
      ensures r.Opened? ==> Open(top, rel)
      ensures r.NotThere? ==> Get(entries[top], rel) == Missing
      ensures disk.faults == old(disk.faults) && Open(top, rel) ==> r.Opened?
    {
      var ok := disk.Attempt();
      if !ok {
        return Failed;
      }
      for k := 0 to |rel|
        invariant DirAt(entries[top], rel[..k]) || (k == 0 && !entries[top].Dir?)
        invariant disk.faults == old(disk.faults)
      {
        assert rel[..k + 1] == rel[..k] + [rel[k]];
        assert rel == rel[..k] + ([rel[k]] + rel[k + 1..]);
        GetPath(entries[top], rel[..k], [rel[k]]);
        GetPath(entries[top], rel[..k], [rel[k]] + rel[k + 1..]);
        if !entries[top].Dir? {
          return Failed;
        }
        var cur := Get(entries[top], rel[..k]).node;
        GetHead(cur, rel[k], []);
        GetHead(cur, rel[k], rel[k + 1..]);
        assert [rel[k]] + [] == [rel[k]];
        if rel[k] !in cur.kids {
          return NotThere;
        }
        if !cur.kids[rel[k]].Dir? {
          return Failed;
        }
      }
      assert rel[..|rel|] == rel;
      r := if entries[top].Dir? then Opened else Failed;
    }

    // --------------------------------------------------------- carryPrivate

    /** stamps.restore: gives every directory its time back, going on after a failure. */
    method Restore(times: seq<Stamp>, ghost from: string, ghost to: string, ghost par: Path, ghost m: int,
                   ghost ts: seq<int>, ghost family: set<Path>)
      returns (ok: bool)
      requires from != to && |ts| <= |par| + 1
      requires times == [] || (times == Kept(from, par, m, to, ts) && Open(from, par))
      requires to in entries && from in entries
      requires forall k :: 0 <= k < |ts| ==> Open(to, par[..k])
      requires forall q, k :: q in family && 0 <= k <= |par| ==> !(q <= par[..k])
      modifies this, disk
      ensures disk.faults >= old(disk.faults)
      ensures unstamped >= old(unstamped)
      ensures entries.Keys == old(entries).Keys
      ensures forall n :: n in entries && n != from && n != to ==> entries[n] == old(entries)[n]
      ensures times == [] ==> entries == old(entries)
      ensures entries[from] == old(entries)[from]
        || (times != [] && entries[from] == Stamped(old(entries)[from], par, m))
      ensures old(entries)[to].Dir? ==> entries[to].Dir?
      ensures forall q :: q in family ==> Get(entries[from], q) == Get(old(entries)[from], q)
      ensures forall q :: q in family ==> Get(entries[to], q) == Get(old(entries)[to], q)
      ensures Untimed(entries[from]) == Untimed(old(entries)[from])
      ensures times != [] && from !in unstamped ==> entries[from] == Stamped(old(entries)[from], par, m)
      ensures ok && times != [] ==> entries[from] == Stamped(old(entries)[from], par, m)
      ensures ok && times != [] && |ts| == |par| + 1 ==>
        DirAt(old(entries)[to], par) && entries[to] == Retimed(old(entries)[to], par, ts)
      ensures disk.faults == old(disk.faults) ==> ok
    {
      ok := true;
      ghost var t0 := entries[to];
      ghost var f0 := entries[from];
      if |ts| == |par| + 1 {
        assert par[..|par|] == par;
      }
      for i := |times| downto 0
        invariant disk.faults >= old(disk.faults) && (disk.faults == old(disk.faults) ==> ok)
        invariant unstamped >= old(unstamped)
        invariant entries.Keys == old(entries).Keys
        invariant forall n :: n in entries && n != from && n != to ==> entries[n] == old(entries)[n]
        invariant forall q :: q in family ==> Get(entries[from], q) == Get(f0, q)
        invariant forall q :: q in family ==> Get(entries[to], q) == Get(t0, q)
        invariant times != [] && i >= 1 ==> entries[from] == f0
        invariant times == [] ==> entries == old(entries)
        invariant t0.Dir? ==> entries[to].Dir?
        invariant i == 0 && times != [] ==>
          entries[from] == Stamped(f0, par, m) || (entries[from] == f0 && from in unstamped && !ok)
        invariant forall k :: 0 <= k < |ts| ==> Open(to, par[..k])
        invariant times != [] && |ts| == |par| + 1 ==> Retimed(entries[to], par, ts) == Retimed(t0, par, ts)
        invariant times != [] && |ts| == |par| + 1 && ok ==>
          TimedFrom(entries[to], par, ts, if i == 0 then 0 else i - 1)
      {
        var s := times[i];
        var done;
        if i > 0 {
          ghost var k := i - 1;
          ghost var before := entries[to];
          assert s == Stamp(to, par[..k], ts[k]);
          done := SetMtime(s.top, s.path, s.mtime);
          if done {
            WayStamped(before, par, ts, k, family);
          }
        } else {
          assert s == Stamp(from, par, m);
          done := SetMtime(s.top, s.path, s.mtime);
          if done {
            forall q | q in family
              ensures Get(entries[from], q) == Get(f0, q)
            {
              assert par[..|par|] == par;
              StampGet(f0, par, m, q);
            }
          }
        }
        ok := ok && done;
      }
      if times != [] {
        StampUntimed(f0, par, m);
        if ok && |ts| == |par| + 1 {
          RetimedIsSelf(entries[to], par, ts);
        }
      }
    }

    /** ensureRel: opens a relative directory, making what is missing, and keeps the time
        every directory on the way is to have. */
    method EnsureRel(to: string, par: Path, from: string, times: seq<Stamp>, ghost family: set<Path>,
                     ghost base: string)
      returns (ok: bool, kept: seq<Stamp>, ghost ts: seq<int>)
      requires from != to && to in entries && entries[to].Dir? && Open(from, par)
      requires Apart(family) && par + [base] in family
      modifies this`entries, disk
      ensures disk.faults >= old(disk.faults)
      ensures entries.Keys == old(entries).Keys
      ensures forall n :: n in entries && n != to ==> entries[n] == old(entries)[n]
      ensures |ts| <= |par| + 1 && kept == times + Ways(to, par, ts)
      ensures forall k :: 0 <= k < |ts| ==> Open(to, par[..k])
      ensures entries[to].Dir?
      ensures forall q :: q in family ==> Get(entries[to], q) == Get(old(entries)[to], q)
      ensures ok ==> (
        var e := Ensured(old(entries)[to], old(entries)[from], par);
        && |ts| == |par| + 1 && Open(to, par) && DirAt(e, par)
        && Retimed(entries[to], par, ts) == e)
      ensures disk.faults == old(disk.faults) && WayFree(old(entries)[to], par) ==> ok
    {
      ghost var t0, d := entries[to], entries[from];
      kept, ts := times, [];
      ok := disk.Attempt();
      if !ok {
        assert Ways(to, par, ts) == [];
        return;
      }
      assert par[..0] == [];
      var m := entries[to].mtime;
      kept, ts := kept + [Stamp(to, [], m)], [m];
      assert Ways(to, par, ts) == [Stamp(to, par[..0], m)];
      for k := 0 to |par|
        invariant disk.faults >= old(disk.faults)
        invariant entries.Keys == old(entries).Keys
        invariant WayFree(t0, par) ==> WayFree(entries[to], par)
        invariant forall n :: n in entries && n != to ==> entries[n] == old(entries)[n]
        invariant |ts| == k + 1 && kept == times + Ways(to, par, ts)
        invariant forall j :: 0 <= j <= k ==> Open(to, par[..j])
        invariant forall q :: q in family ==> Get(entries[to], q) == Get(t0, q)
        invariant DirAt(d, par[..k]) && DirAt(Ensured(t0, d, par[..k]), par[..k])
        invariant Retimed(entries[to], par[..k], ts) == Ensured(t0, d, par[..k])
      {
        var when;
        ok, when := EnsureOne(to, par, k, from, ts, t0, family, base);
        if !ok {
          return;
        }
        WaysMore(to, par, k, ts, when, times);
        kept, ts := kept + [Stamp(to, par[..k + 1], when)], ts + [when];
      }
      assert par[..|par|] == par;
    }

    /** One part of the way: opened or made, owned, and its time kept: the one it has, or
        for one just made the time of the directory at the same place in `from`. */
    method EnsureOne(to: string, par: Path, k: nat, from: string, ghost ts: seq<int>, ghost t0: Node,
                     ghost family: set<Path>, ghost base: string)
      returns (ok: bool, when: int)
      requires from != to && to in entries && Open(from, par) && k < |par| && |ts| == k + 1
      requires Apart(family) && par + [base] in family
      requires forall j :: 0 <= j <= k ==> Open(to, par[..j])
      requires Open(to, par[..k]) && Open(from, par[..k]) && DirAt(Ensured(t0, entries[from], par[..k]), par[..k])
      requires Retimed(entries[to], par[..k], ts) == Ensured(t0, entries[from], par[..k])
      modifies this`entries, disk
      ensures disk.faults >= old(disk.faults)
      ensures entries.Keys == old(entries).Keys
      ensures forall n :: n in entries && n != to ==> entries[n] == old(entries)[n]
      ensures forall j :: 0 <= j <= k ==> Open(to, par[..j])
      ensures entries[to].Dir?
      ensures forall q :: q in family ==> Get(entries[to], q) == Get(old(entries)[to], q)
      ensures ok ==> (
        var p := par[..k + 1];
        && Open(to, p) && Open(from, p) && DirAt(Ensured(t0, entries[from], p), p)
        && Retimed(entries[to], p, ts + [when]) == Ensured(t0, entries[from], p))
      ensures WayFree(old(entries)[to], par) ==> WayFree(entries[to], par)
      ensures disk.faults == old(disk.faults) && WayFree(old(entries)[to], par) ==> ok
    {
      var p, part := par[..k], par[k];
      ghost var before, d := entries[to], entries[from];
      assert par[..0] == [];
      assert par[..k + 1] == p + [part];
      assert par == par[..k + 1] + par[k + 1..];
      GetPath(d, par[..k + 1], par[k + 1..]);
      assert DirAt(d, p + [part]) by {
        if par[k + 1..] != [] {
          assert Get(Get(d, p + [part]).node, par[k + 1..]).Present?;
        } else {
          assert par == p + [part];
        }
      }
      when := 0;
      var created, now, born;
      PartFree(before, p, part);
      assert WayFree(before, par) ==> Free(before, par[..k + 1]);
      ok, created, now, born := EnsureDirAt(to, p, part);
      if created {
        WayMade(before, par, k, now, born, family, base);
        if WayFree(before, par) {
          MadeIsFree(before, par, k, now, born);
        }
      }
      if ok && created {
        ok := disk.Attempt(); // chown
      }
      if ok {
        ok := disk.Attempt(); // the stat and the second handle
      }
      if ok {
        WayRetimed(t0, d, before, p, part, ts, created, now, born);
        GetPath(before, p, [part]);
        GetHead(Get(before, p).node, part, []);
        assert [part] + [] == [part];
        when := if created then Get(entries[from], p + [part]).node.mtime
                else Get(entries[to], p + [part]).node.mtime;
      }
    }

    /** The directory a save is in, if it can be opened and the save is there. */
    method LookFor(from: string, par: Path, base: string) returns (r: Opened)
      requires from in entries
      modifies disk
      ensures disk.faults >= old(disk.faults)
      ensures disk.faults == old(disk.faults) && Get(entries[from], par + [base]).Present? ==> r.Opened?
      ensures r.Opened? ==>
        Open(from, par) && base in Get(entries[from], par).node.kids && Get(entries[from], par + [base]).Present?
      ensures r.NotThere? ==> Get(entries[from], par + [base]) == Missing
    {
      ghost var f := entries[from];
      GetPath(f, par, [base]);
      if Get(f, par + [base]).Present? {
        GetHead(Get(f, par).node, base, []);
        assert [base] + [] == [base];
      }
      r := OpenRel(from, par);
      if r.Opened? {
        GetHead(Get(f, par).node, base, []);
        assert [base] + [] == [base];
        if base !in Get(entries[from], par).node.kids {
          r := NotThere;
        }
      }
    }

    /** One round of carryPrivate: moves the directory `name` of one tree to the same place
        in the other, and gives every directory it touched its time back. */
    method CarryOne(from: string, to: string, name: Path, ghost family: set<Path>) returns (ok: bool, moved: bool)
      requires from != to && from in entries && to in entries && entries[to].Dir?
      requires Apart(family) && name in family
      modifies this, disk
      ensures disk.faults >= old(disk.faults)
      ensures unstamped >= old(unstamped) && entries.Keys == old(entries).Keys && entries[to].Dir?
      ensures forall n :: n in entries && n != from && n != to ==> entries[n] == old(entries)[n]
      ensures forall q :: q in family - {name} ==> Get(entries[from], q) == Get(old(entries)[from], q)
      ensures forall q :: q in family - {name} ==> Get(entries[to], q) == Get(old(entries)[to], q)
      ensures var f, t, f', t' := old(entries)[from], old(entries)[to], entries[from], entries[to];
        if moved then
          && Get(f, name).Present?
          && Get(f', name) == Missing && Get(t', name) == Get(f, name)
          && Untimed(f') == Untimed(Without(f, {name}))
          && (from !in unstamped ==> f' == Without(f, {name}))
          && (ok ==> f' == Without(f, {name}) && t' == Graft(t, f, {name}))
        else
          && Get(f', name) == Get(f, name) && Get(t', name) == Get(t, name)
          && f' == f
          && (ok ==> Get(f, name) == Missing && t' == t)
      ensures disk.faults == old(disk.faults) && Carriable(old(entries)[from], old(entries)[to], name) ==> ok
    {
      var par, base := name[..|name| - 1], name[|name| - 1];
      assert name == par + [base];
      ghost var f, t := entries[from], entries[to];
      moved := false;
      var source := LookFor(from, par, base);
      if source.NotThere? {
        return true, false;
      }
      if source.Failed? {
        return false, false;
      }
      AllOffTheWay(family, par, base);
      var m := Get(entries[from], par).node.mtime;
      var times: seq<Stamp> := [];
      ghost var ts: seq<int> := [];
      ok := disk.Attempt(); // the stat and the second handle
      if ok {
        times := [Stamp(from, par, m)];
        ok, times, ts := EnsureRel(to, par, from, times, family, base);
        assert times == Kept(from, par, m, to, ts);
        if ok {
          ok := MoveOver(from, to, par, base, m, ts, t, family);
          moved := ok;
        }
      }
      ghost var f2, t2 := entries[from], entries[to];
      var back := Restore(times, from, to, par, m, ts, family);
      ok := ok && back;
      ReplaceSelf(f, par);
      assert Stamped(f, par, m) == f;
    }

    /** The move itself, with the way to its new place open. */
    method MoveOver(from: string, to: string, par: Path, base: string, ghost m: int, ghost ts: seq<int>, ghost t: Node,
                    ghost family: set<Path>)
      returns (ok: bool)
      requires from != to && Open(from, par) && Open(to, par)
      requires base in Get(entries[from], par).node.kids && m == Get(entries[from], par).node.mtime
      requires Apart(family) && par + [base] in family && |ts| == |par| + 1
      requires DirAt(Ensured(t, entries[from], par), par)
      requires Retimed(entries[to], par, ts) == Ensured(t, entries[from], par)
      modifies this`entries, disk
      ensures disk.faults >= old(disk.faults)
      ensures entries.Keys == old(entries).Keys && forall n :: n in entries && n != from && n != to ==>
        entries[n] == old(entries)[n]
      ensures !ok ==> entries == old(entries)
      ensures disk.faults == old(disk.faults) && Get(old(entries)[to], par + [base]).Missing? ==> ok
      ensures ok ==>
        var name, f, f2, t1, t2 := par + [base], old(entries)[from], entries[from], old(entries)[to], entries[to];
        && Get(f2, name) == Missing && Get(t2, name) == Get(f, name)
        && Open(from, par) && Open(to, par) && (forall k :: 0 <= k <= |par| ==> Open(to, par[..k]))
        && Retimed(t2, par, ts) == Graft(t, f, {name})
        && Stamped(f2, par, m) == Without(f, {name}) && Untimed(f2) == Untimed(Without(f, {name}))
        && (forall q :: q in family - {name} ==> Get(f2, q) == Get(f, q) && Get(t2, q) == Get(t1, q))
    {
      ghost var f, t1 := entries[from], entries[to];
      PartFree(t1, par, base);
      var now;
      ok, now := Rename(from, par, to, par, base);
      if ok {
        Moved(f, t, t1, par, base, now, ts, family);
        MovedFrom(f, par, base, m);
      }
    }

    /** carryPrivate: moves the listed directories from one tree into another, and answers
        with what it actually moved.  The order of the names is left open. */
    method CarryPrivate(from: string, to: string, carry: set<Path>, ghost family: set<Path>)
      returns (ok: bool, moved: set<Path>)
      requires from != to && from in entries && to in entries && entries[to].Dir?
      requires Apart(family) && carry <= family
      modifies this, disk
      ensures disk.faults >= old(disk.faults)
      ensures unstamped >= old(unstamped) && entries.Keys == old(entries).Keys && entries[to].Dir?
      ensures forall n :: n in entries && n != from && n != to ==> entries[n] == old(entries)[n]
      ensures Carried(old(entries)[from], old(entries)[to], entries[from], entries[to], family, moved)
      ensures moved <= carry
      ensures from !in unstamped ==> entries[from] == Without(old(entries)[from], moved)
      ensures ok ==> (
        && (forall p :: p in carry && p !in moved ==> Get(old(entries)[from], p) == Missing)
        && entries[from] == Without(old(entries)[from], moved)
        && entries[to] == Graft(old(entries)[to], old(entries)[from], moved))
      ensures disk.faults == old(disk.faults) && AllCarriable(old(entries)[from], old(entries)[to], carry) ==> ok
    {
      ghost var f, t := entries[from], entries[to];
      ok, moved := true, {};
      WithoutNone(f);
      GraftNone(t, f);
      var rest := carry;
      while rest != {}
        invariant disk.faults >= old(disk.faults)
        invariant rest <= carry && moved <= carry - rest && ok
        invariant unstamped >= old(unstamped) && entries.Keys == old(entries).Keys && entries[to].Dir?
        invariant forall n :: n in entries && n != from && n != to ==> entries[n] == old(entries)[n]
        invariant Carried(f, t, entries[from], entries[to], family, moved)
        invariant forall p :: p in carry && p !in moved && p !in rest ==> Get(f, p) == Missing
        invariant entries[from] == Without(f, moved)
        invariant entries[to] == Graft(t, f, moved)
        decreases rest
      {
        var name :| name in rest;
        rest := rest - {name};
        ghost var f1, t1 := entries[from], entries[to];
        if AllCarriable(f, t, carry) {
          StillCarriable(f, t, f1, t1, family, carry, moved, name);
        }
        var one;
        ok, one := CarryOne(from, to, name, family);
        if one {
          CarriedMore(f, t, f1, t1, entries[from], entries[to], family, moved, name);
          moved := moved + {name};
        }
        if !ok {
          return;
        }
      }
    }

    // -------------------------------------------------------------- cloneAt

    /** mkdirTempAt: a fresh directory under a name nothing else has. */
    method MkdirTemp() returns (ok: bool, name: string)
      modifies this`entries, disk
      ensures disk.faults >= old(disk.faults)
      ensures !ok ==> entries == old(entries)
      ensures ok ==> STAGING_PREFIX <= name && name !in old(entries)
      ensures ok ==> name in entries && entries[name].Dir? && entries[name].kids == map[]
      ensures ok ==> OnlyThese(old(entries), entries, {name})
      ensures disk.faults == old(disk.faults) ==> ok
    {
      var digits: string, now: int := *, *;
      name := STAGING_PREFIX + digits;
      ok := disk.Attempt();
      if ok && name in entries {
        ok := disk.Refuse();
      }
      if ok {
        entries := entries[name := Dir(now, map[])];
      }
    }

    /** removeAllAt, which may get only part of the way. */
    method RemoveAll(name: string) returns (ok: bool)
      modifies this`entries, disk
      ensures disk.faults >= old(disk.faults)
      ensures OnlyThese(old(entries), entries, {name})
      ensures ok ==> name !in entries
      ensures disk.faults == old(disk.faults) ==> ok
    {
      ok := disk.Attempt();
      if ok {
        entries := entries - {name};
      } else {
        var left: Node := *;
        if name in entries {
          entries := entries[name := left];
        }
      }
    }

    /** A rename inside the destination's parent, over nothing. */
    method Move(from: string, to: string) returns (ok: bool)
      modifies this`entries, disk
      ensures disk.faults >= old(disk.faults)
      ensures !ok ==> entries == old(entries)
      ensures ok ==> from in old(entries) && to !in old(entries)
      ensures ok ==> entries == (old(entries) - {from})[to := old(entries)[from]]
      ensures disk.faults == old(disk.faults) && from in old(entries) && to !in old(entries) ==> ok
    {
      ok := disk.Attempt();
      if ok {
        ok := from in entries && to !in entries;
      }
      if ok {
        entries := (entries - {from})[to := entries[from]];
      }
    }

    /** cloneAt.  With every step that changes the disk allowed to fail it ends in one of
        three ways: the new tree with the seat's directories carried into it; the old
        copy whole, at its own name or moved aside; or every directory of the seat in
        exactly one of the copy moved aside and the staging directory.  When no step fails
        it is the first, and nothing is left aside, exactly when the source can be cloned
        there. */
    method CloneAt(src: Found, dstName: string, private: bool) returns (ok: bool, staging: string)
      requires dstName != "" && dstName[0] != '.'
      modifies this, disk
      ensures disk.faults >= old(disk.faults)
      ensures ".polyseat-clone-" <= staging
      ensures OnlyThese(old(entries), entries, {dstName, dstName + ".polyseat-old", staging})
      ensures ok ==> src.Present? && src.node.Dir? && dstName in entries
      ensures ok ==> staging !in old(entries) && staging !in entries
      ensures ok ==> entries[dstName] == CloneOver(src.node, old(entries), dstName, private)
      ensures var carry := ToCarry(old(entries), dstName, private);
        if ok then
          forall p :: p in carry ==> Get(entries[dstName], p) == Get(old(entries)[dstName], p)
        else
          || Restored(old(entries), entries, dstName, carry, OldName(dstName) !in unstamped)
          || Split(old(entries), entries, dstName, staging, carry)
      ensures ok ==> CanClone(src, old(entries), dstName, private)
      ensures disk.faults == old(disk.faults) ==>
        (ok <==> CanClone(src, old(entries), dstName, private))
        && (ok && dstName in old(entries) ==> OldName(dstName) !in entries)
    {
      unstamped := {};
      staging := STAGING_PREFIX;
      ok := disk.Attempt(); // the open and the stat
      if !ok || src.Missing? || !src.node.Dir? {
        ok := false;
        return;
      }
      var carry: set<Path> := {};
      if private {
        carry := PrivateDirsAt(Dir(0, entries), dstName);
      }
      assert carry == ToCarry(entries, dstName, private);
      OwnedIsThere(entries, dstName);
      ok, staging := CloneInto(src.node, dstName, carry);
    }

    /** The rest of cloneAt once it is known what to carry. */
    method CloneInto(src: Node, dstName: string, carry: set<Path>) returns (ok: bool, staging: string)
      requires src.Dir? && dstName != "" && dstName[0] != '.'
      requires Apart(carry) && forall p :: p in carry ==> dstName in entries && Get(entries[dstName], p).Present?
      requires unstamped == {}
      modifies this, disk
      ensures disk.faults >= old(disk.faults)
      ensures STAGING_PREFIX <= staging
      ensures OnlyThese(old(entries), entries, {dstName, OldName(dstName), staging})
      ensures ok ==> (
        && staging !in old(entries) && staging !in entries && dstName in entries && Copyable(Without(src, carry))
        && entries[dstName] == (if carry != {} then Graft(Without(src, carry), old(entries)[dstName], carry) else src)
        && forall p :: p in carry ==> Get(entries[dstName], p) == Get(old(entries)[dstName], p))
      ensures ok ==> WaysFree(Without(src, carry), carry)
      ensures disk.faults == old(disk.faults) && Copyable(Without(src, carry)) && WaysFree(Without(src, carry), carry)
        ==> ok && (dstName in old(entries) ==> OldName(dstName) !in entries)
      ensures !ok ==>
        || Restored(old(entries), entries, dstName, carry, OldName(dstName) !in unstamped)
        || Split(old(entries), entries, dstName, staging, carry)
    {
      ghost var e := entries;
      ok, staging := MkdirTemp();
      if !ok {
        staging := STAGING_PREFIX;
        return;
      }
      assert dstName != staging && OldName(dstName) != staging by {
        assert staging[0] == '.' && OldName(dstName)[0] == dstName[0];
      }
      var out;
      ok, out := CloneTree(disk, src, entries[staging], [], carry);
      entries := entries[staging := out];
      UnderRoot(carry);
      assert Under(carry, []) == carry;
      if !ok {
        var _ := RemoveAll(staging);
        return;
      }
      var keep;
      ok, keep := Swap(src, staging, dstName, carry, e);
      if ok {
        ClonedWays(src, e, dstName, carry, entries[dstName]);
      }
      if !keep {
        var _ := RemoveAll(staging);
      }
    }

    /** The rollback of cloneAt once the old copy is aside: what was carried goes back, and
        then the old copy does.  Should putting back fail, the staging directory is kept. */
    method Rollback(staging: string, dstName: string, moved: set<Path>, carry: set<Path>, ghost e: map<string, Node>)
      returns (keep: bool)
      requires var prev := OldName(dstName);
        && dstName != staging && dstName != prev && prev != staging
        && dstName in e && dstName !in entries && prev in entries && staging in entries && entries[staging].Dir?
        && OnlyThese(e, entries, {dstName, prev, staging})
        && HalfWay(e[dstName], entries[prev], entries[staging], carry, moved, prev !in unstamped)
      modifies this, disk
      ensures disk.faults >= old(disk.faults)
      ensures OnlyThese(e, entries, {dstName, OldName(dstName), staging})
      ensures !keep ==> Restored(e, entries, dstName, carry, OldName(dstName) !in unstamped)
      ensures keep ==> Split(e, entries, dstName, staging, carry)
    {
      var previous := OldName(dstName);
      ghost var d, f, t := e[dstName], entries[previous], entries[staging];
      keep := false;
      if moved == {} {
        WithoutNone(d);
      } else {
        HalfWayDir(d, f, t, carry, moved, previous !in unstamped);
        var ok, back := CarryPrivate(staging, previous, moved, carry);
        if !ok {
          keep := true;
          return;
        }
        assert back == moved;
        PutBack(d, f, t, carry, moved, previous !in old(unstamped));
      }
      assert OldCopy(d, entries[previous], carry, previous !in unstamped);
      var _ := Move(previous, dstName);
    }

    /** The rest of cloneAt, from moving the old copy aside. */
    method Swap(src: Node, staging: string, dstName: string, carry: set<Path>, ghost e: map<string, Node>)
      returns (ok: bool, keep: bool)
      requires src.Dir? && staging != dstName && staging != OldName(dstName) && staging !in e
      requires staging in entries && entries[staging].Dir? && OnlyThese(e, entries, {staging})
      requires entries[staging].kids == Without(src, carry).kids
      requires Apart(carry) && forall p :: p in carry ==> dstName in e && Get(e[dstName], p).Present?
      requires unstamped == {}
      modifies this, disk
      ensures disk.faults >= old(disk.faults)
      ensures OnlyThese(e, entries, {dstName, OldName(dstName), staging})
      ensures ok ==> (
        && staging !in entries && dstName in entries && keep
        && entries[dstName] == (if carry != {} then Graft(Without(src, carry), e[dstName], carry) else src)
        && forall p :: p in carry ==> Get(entries[dstName], p) == Get(e[dstName], p))
      ensures !ok && !keep ==> Restored(e, entries, dstName, carry, OldName(dstName) !in unstamped)
      ensures !ok && keep ==> Split(e, entries, dstName, staging, carry)
      ensures disk.faults == old(disk.faults) && WaysFree(Without(src, carry), carry) ==>
        ok && (dstName in e ==> OldName(dstName) !in entries)
    {
      keep := false;
      assert |OldName(dstName)| > |dstName|;
      if dstName !in entries {
        assert carry == {};
        WithoutNone(src);
        ok := Finish(staging, dstName, src.mtime);
        keep := ok;
        return;
      }
      var previous := OldName(dstName);
      ok := RemoveAll(previous);
      if !ok {
        return;
      }
      ok := Move(dstName, previous);
      if !ok {
        return;
      }
      ok, keep := SwapOver(src, staging, dstName, carry, e);
      if ok {
        var _ := RemoveAll(previous);
      }
    }

    /** The swap with the old copy aside: carry, finish, or roll back. */
    method SwapOver(src: Node, staging: string, dstName: string, carry: set<Path>, ghost e: map<string,
                    Node>) returns (ok: bool, keep: bool)
      requires var prev := OldName(dstName);
        && src.Dir? && staging != dstName && staging != prev && dstName != prev && staging !in e
        && dstName in e && dstName !in entries && prev in entries && entries[prev] == e[dstName]
        && staging in entries && entries[staging].Dir? && entries[staging].kids == Without(src, carry).kids
        && OnlyThese(e, entries, {dstName, prev, staging})
        && Apart(carry) && (forall p :: p in carry ==> Get(e[dstName], p).Present?)
      requires unstamped == {}
      modifies this, disk
      ensures disk.faults >= old(disk.faults)
      ensures OnlyThese(e, entries, {dstName, OldName(dstName), staging})
      ensures ok ==> (
        && staging !in entries && dstName in entries && keep
        && entries[dstName] == (if carry != {} then Graft(Without(src, carry), e[dstName], carry) else src)
        && forall p :: p in carry ==> Get(entries[dstName], p) == Get(e[dstName], p))
      ensures !ok && !keep ==> Restored(e, entries, dstName, carry, OldName(dstName) !in unstamped)
      ensures !ok && keep ==> Split(e, entries, dstName, staging, carry)
      ensures disk.faults == old(disk.faults) && WaysFree(Without(src, carry), carry) ==> ok
    {
      var previous := OldName(dstName);
      keep := false;
      ghost var d, staged := entries[previous], entries[staging];
      HalfWayStart(d, src, staged, carry);
      if WaysFree(Without(src, carry), carry) {
        WaysCarriable(src, staged, d, carry);
      }
      var moved;
      ok, moved := CarryAcross(previous, staging, carry, d, staged);
      if ok {
        ghost var f, grafted := entries[previous], entries[staging];
        ok := Finish(staging, dstName, src.mtime);
        if ok {
          keep := true;
          Finished(src, staged, d, grafted, carry, moved);
          return;
        }
        HalfWayKids(d, f, grafted, entries[staging], carry, moved, previous !in unstamped);
      }
      keep := Rollback(staging, dstName, moved, carry, e);
    }

    /** What the old copy owns moves into the tree about to replace it. */
    method CarryAcross(previous: string, staging: string, carry: set<Path>, ghost d: Node,
                       ghost staged: Node) returns (ok: bool, moved: set<Path>)
      requires previous != staging && previous in entries && staging in entries && entries[staging].Dir?
      requires entries[previous] == d && entries[staging] == staged && HalfWay(d, d, staged, carry, {}, true)
      requires unstamped == {}
      modifies this, disk
      ensures disk.faults >= old(disk.faults)
      ensures entries.Keys == old(entries).Keys && entries[staging].Dir?
      ensures forall n :: n in entries && n != previous && n != staging ==> entries[n] == old(entries)[n]
      ensures HalfWay(d, entries[previous], entries[staging], carry, moved, previous !in unstamped)
      ensures ok ==> if carry == {} then entries[staging] == staged && moved == {}
                     else moved == carry && entries[staging] == Graft(staged, d, carry)
      ensures disk.faults == old(disk.faults) && AllCarriable(d, staged, carry) ==> ok
    {
      ok, moved := true, {};
      if carry != {} {
        ok := disk.Attempt(); // the open of the old copy
        if ok {
          ok, moved := CarryPrivate(previous, staging, carry, carry);
          CarriedHalfWay(d, staged, entries[previous], entries[staging], carry, moved, previous !in unstamped);
          if ok {
            assert moved == carry;
          }
        }
      }
    }

    /** The last steps: owner, mode and time of the root, and the rename into place. */
    method Finish(staging: string, dstName: string, m: int) returns (ok: bool)
      requires staging in entries && entries[staging].Dir? && dstName !in entries
      modifies this, disk
      ensures disk.faults >= old(disk.faults)
      ensures unstamped >= old(unstamped) && unstamped <= old(unstamped) + {staging}
      ensures ok ==> entries == (old(entries) - {staging})[dstName := Dir(m, old(entries)[staging].kids)]
      ensures !ok ==> entries.Keys == old(entries).Keys && OnlyThese(old(entries), entries, {staging})
      ensures !ok ==> entries[staging].Dir? && entries[staging].kids == old(entries)[staging].kids
      ensures disk.faults == old(disk.faults) ==> ok
    {
      ok := disk.Attempt(); // chown
      if ok {
        ok := disk.Attempt(); // chmod
      }
      if ok {
        ok := SetMtime(staging, [], m);
      }
      if ok {
        ok := Move(staging, dstName);
      }
    }
  }

  ghost function Stamped(t: Node, p: Path, m: int): Node
    requires DirAt(t, p)
  {
    Replace(t, p, Dir(m, Get(t, p).node.kids))
  }

  /** One stamp on the way: the way as it will be retimed is the same, and one more
      directory has its time. */
  lemma WayStamped(t: Node, par: Path, ts: seq<int>, k: nat, family: set<Path>)
    requires |ts| <= |par| + 1 && k < |ts|
    requires forall j :: 0 <= j < |ts| ==> DirAt(t, par[..j])
    requires forall q :: q in family ==> !(q <= par[..k])
    ensures var u := Stamped(t, par[..k], ts[k]);
      && (forall j :: 0 <= j < |ts| ==> DirAt(u, par[..j]))
      && (forall q :: q in family ==> Get(u, q) == Get(t, q))
      && (|ts| == |par| + 1 ==> DirAt(t, par) && DirAt(u, par) && Retimed(u, par, ts) == Retimed(t, par, ts))
      && (|ts| == |par| + 1 && (k == |par| || TimedFrom(t, par, ts, k + 1)) ==> TimedFrom(u, par, ts, k))
  {
    var p := par[..k];
    var x := Dir(ts[k], Get(t, p).node.kids);
    var u := Replace(t, p, x);
    forall j | 0 <= j < |ts|
      ensures DirAt(u, par[..j])
      ensures Get(u, par[..j]).node.mtime == if j == k then ts[k] else Get(t, par[..j]).node.mtime
    {
      GetReplaced(t, p, x, par[..j]);
      if j > k {
        assert par[..j] == p + par[k..j];
        GetPath(t, p, par[k..j]);
      }
      if j < k {
        assert par[..j] < p;
      }
    }
    forall q | q in family
      ensures Get(u, q) == Get(t, q)
    {
      StampGet(t, p, ts[k], q);
    }
    if |ts| == |par| + 1 {
      assert par[..|par|] == par;
      RetimedForgets(t, par, ts, k, ts[k]);
    }
  }

  /** A directory made on the way: the way is still there, and no path of the family is
      disturbed. */
  lemma WayMade(t: Node, par: Path, k: nat, now: int, born: int, family: set<Path>, base: string)
    requires k < |par| && Apart(family) && par + [base] in family
    requires forall j :: 0 <= j <= k ==> DirAt(t, par[..j])
    requires DirAt(t, par[..k]) && par[k] !in Get(t, par[..k]).node.kids
    ensures var u := Replace(t, par[..k], Dir(now, Get(t, par[..k]).node.kids[par[k] := Dir(born, map[])]));
      && u.Dir?
      && (forall j :: 0 <= j <= k + 1 ==> DirAt(u, par[..j]))
      && (forall q :: q in family ==> Get(u, q) == Get(t, q))
  {
    var p, n := par[..k], par[k];
    var kids := Get(t, p).node.kids[n := Dir(born, map[])];
    var u := Replace(t, p, Dir(now, kids));
    forall j | 0 <= j <= k + 1
      ensures DirAt(u, par[..j])
    {
      GetReplaced(t, p, Dir(now, kids), par[..j]);
      if j == k + 1 {
        assert par[..j] == p + [n];
        GetPath(u, p, [n]);
        GetReplaced(t, p, Dir(now, kids), p);
        GetHead(Dir(now, kids), n, []);
        assert [n] + [] == [n];
      } else if j < k {
        assert par[..j] < p;
      }
    }
    assert par[..0] == [];
    forall q | q in family
      ensures Get(u, q) == Get(t, q)
    {
      OffTheWay(family, par, base, q);
      if p <= q && q != p {
        var r := q[k..];
        assert r != [];
        assert q == p + r && par[..k + 1] == p + [n];
        assert r != [n];
        assert Get(Dir(now, kids), r) == Get(Get(t, p).node, r);
      }
      EntryGet(t, p, now, kids, q);
    }
  }

  /** One more directory opened on the way, with the time kept for it. */
  lemma WayRetimed(t0: Node, d: Node, t: Node, p: Path, n: string, ts: seq<int>, created: bool, now: int, born: int)
    requires DirAt(d, p) && DirAt(d, p + [n]) && DirAt(Ensured(t0, d, p), p)
    requires DirAt(t, p) && |ts| == |p| + 1 && Retimed(t, p, ts) == Ensured(t0, d, p)
    requires var kids := Get(t, p).node.kids;
      created == (n !in kids) && (!created ==> kids[n].Dir?)
    ensures var kids := Get(t, p).node.kids;
      var u := if created then Replace(t, p, Dir(now, kids[n := Dir(born, map[])])) else t;
      var when := if created then Get(d, p + [n]).node.mtime else kids[n].mtime;
      && DirAt(Ensured(t0, d, p + [n]), p + [n])
      && DirAt(u, p + [n])
      && Retimed(u, p + [n], ts + [when]) == Ensured(t0, d, p + [n])
  {
    var kids := Get(t, p).node.kids;
    var e := Ensured(t0, d, p);
    RetimedGet(t, p, ts);
    EnsuredMore(t0, d, p, n);
    if created {
      var made := kids[n := Dir(born, map[])];
      var u := Replace(t, p, Dir(now, made));
      var when := Get(d, p + [n]).node.mtime;
      RetimedReplace(t, p, ts, now, made);
      GetReplaced(t, p, Dir(now, made), p);
      RetimedMore(u, p, ts, n, when);
      ReplaceTwice(e, p, Dir(ts[|p|], made), Dir(ts[|p|], made[n := Dir(when, map[])]));
      assert made[n := Dir(when, map[])] == kids[n := Dir(when, map[])];
    } else {
      RetimedMore(t, p, ts, n, kids[n].mtime);
      assert Dir(kids[n].mtime, kids[n].kids) == kids[n];
      assert kids[n := kids[n]] == kids;
      ReplaceSelf(e, p);
    }
    RetimedThere(if created then Replace(t, p, Dir(now, kids[n := Dir(born, map[])])) else t, p + [n],
                 ts + [if created then Get(d, p + [n]).node.mtime else kids[n].mtime]);
  }

  lemma RetimedThere(t: Node, p: Path, ts: seq<int>)
    requires DirAt(t, p) && |ts| == |p| + 1
    ensures DirAt(Retimed(t, p, ts), p)
  {
    RetimedGet(t, p, ts);
  }

  /** What the rename does to the two trees, seen through the times about to be restored. */
  lemma Moved(f: Node, t: Node, t1: Node, par: Path, base: string, now: int, ts: seq<int>, family: set<Path>)
    requires Apart(family) && par + [base] in family
    requires DirAt(f, par) && base in Get(f, par).node.kids
    requires DirAt(t1, par) && |ts| == |par| + 1
    requires DirAt(Ensured(t, f, par), par) && Retimed(t1, par, ts) == Ensured(t, f, par)
    ensures var name := par + [base];
      var fd, td := Get(f, par).node, Get(t1, par).node;
      var f2 := Replace(f, par, Dir(now, fd.kids - {base}));
      var t2 := Replace(t1, par, Dir(now, td.kids[base := fd.kids[base]]));
      && Get(f, name) == Present(fd.kids[base])
      && DirAt(f2, par) && Get(f2, name) == Missing
      && DirAt(t2, par) && Get(t2, name) == Get(f, name)
      && Retimed(t2, par, ts) == Graft(t, f, {name})
      && (forall k :: 0 <= k <= |par| ==> DirAt(t2, par[..k]))
      && (forall q :: q in family - {name} ==> Get(f2, q) == Get(f, q) && Get(t2, q) == Get(t1, q))
  {
    var name := par + [base];
    var fd, td := Get(f, par).node, Get(t1, par).node;
    var x := fd.kids[base];
    var fk, tk := fd.kids - {base}, td.kids[base := x];
    var f2 := Replace(f, par, Dir(now, fk));
    var t2 := Replace(t1, par, Dir(now, tk));
    ReplaceTwice(f, par, Dir(now, fk), Dir(now, fk));
    ReplaceTwice(t1, par, Dir(now, tk), Dir(now, tk));
    assert [base] + [] == [base];
    GetHead(fd, base, []);
    GetHead(Dir(now, fk), base, []);
    GetHead(Dir(now, tk), base, []);
    GetPath(f, par, [base]);
    GetPath(f2, par, [base]);
    GetPath(t2, par, [base]);
    RetimedReplace(t1, par, ts, now, tk);
    RetimedGet(t1, par, ts);
    PutIn(t, f, par, base);
    forall k | 0 <= k <= |par|
      ensures DirAt(t2, par[..k])
    {
      GetReplaced(t1, par, Dir(now, tk), par[..k]);
      if k == |par| {
        assert par[..k] == par;
      } else {
        assert par[..k] < par;
      }
    }
    forall q | q in family - {name}
      ensures Get(f2, q) == Get(f, q) && Get(t2, q) == Get(t1, q)
    {
      OffTheWay(family, par, base, q);
      assert par[..|par|] == par;
      if par <= q {
        var r := q[|par|..];
        assert q == par + r && r != [];
        assert [r[0]] + r[1..] == r;
        assert q == (par + [r[0]]) + r[1..];
        assert r[0] != base;
      }
      EntryGet(f, par, now, fk, q);
      EntryGet(t1, par, now, tk, q);
    }
  }

  /** The tree the directory was moved out of, before and after its parent's time is back. */
  lemma MovedFrom(f: Node, par: Path, base: string, m: int)
    requires DirAt(f, par) && m == Get(f, par).node.mtime
    ensures forall now: int {:trigger Dir(now, Get(f, par).node.kids - {base})} ::
      var f2 := Replace(f, par, Dir(now, Get(f, par).node.kids - {base}));
      && DirAt(f2, par)
      && Stamped(f2, par, m) == Without(f, {par + [base]})
      && Untimed(f2) == Untimed(Without(f, {par + [base]}))
  {
    var kids := Get(f, par).node.kids - {base};
    TakeOut(f, par, base);
    forall now: int
      ensures var f2 := Replace(f, par, Dir(now, kids));
        && DirAt(f2, par)
        && Stamped(f2, par, m) == Without(f, {par + [base]})
        && Untimed(f2) == Untimed(Without(f, {par + [base]}))
    {
      var f2 := Replace(f, par, Dir(now, kids));
      ReplaceTwice(f, par, Dir(now, kids), Dir(m, kids));
      StampUntimed(f2, par, m);
    }
  }

  /** Every directory of the family is where `moved` says: moved out of one tree and into
      the other, or untouched in both; and apart from its directories' times the first
      tree is what it was without what was moved. */
  ghost predicate Carried(f: Node, t: Node, f': Node, t': Node, family: set<Path>, moved: set<Path>)
  {
    && moved <= family
    && (forall p :: p in moved ==> Get(f, p).Present? && Get(f', p) == Missing && Get(t', p) == Get(f, p))
    && (forall p :: p in family - moved ==> Get(f', p) == Get(f, p) && Get(t', p) == Get(t, p))
    && Untimed(f') == Untimed(Without(f, moved))
  }

  lemma CarriedMore(f: Node, t: Node, f1: Node, t1: Node, f2: Node, t2: Node, family: set<Path>, moved: set<Path>,
                    name: Path)
    requires Apart(family) && name in family && name !in moved
    requires Carried(f, t, f1, t1, family, moved)
    requires f1 == Without(f, moved) && t1 == Graft(t, f, moved)
    requires Get(f1, name).Present? && Get(f2, name) == Missing && Get(t2, name) == Get(f1, name)
    requires forall q :: q in family - {name} ==> Get(f2, q) == Get(f1, q) && Get(t2, q) == Get(t1, q)
    requires Untimed(f2) == Untimed(Without(f1, {name}))
    ensures Carried(f, t, f2, t2, family, moved + {name})
    ensures Without(f1, {name}) == Without(f, moved + {name})
    ensures Graft(t1, f1, {name}) == Graft(t, f, moved + {name})
  {
    WithoutTwice(f, moved, {name});
    GraftMore(t, f, moved, name);
    forall q | q in family
      ensures GetsCarried(f, t, f2, t2, moved + {name}, q)
    {
      CarriedAt(f, t, f1, t1, f2, t2, family, moved, name, q);
    }
  }

  /** One directory of the family is where `moved` says. */
  ghost predicate GetsCarried(f: Node, t: Node, f': Node, t': Node, moved: set<Path>, q: Path)
  {
    if q in moved then Get(f, q).Present? && Get(f', q) == Missing && Get(t', q) == Get(f, q)
    else Get(f', q) == Get(f, q) && Get(t', q) == Get(t, q)
  }

  lemma CarriedAt(f: Node, t: Node, f1: Node, t1: Node, f2: Node, t2: Node, family: set<Path>, moved: set<Path>,
                  name: Path, q: Path)
    requires name in family && name !in moved && q in family
    requires Carried(f, t, f1, t1, family, moved)
    requires Get(f1, name).Present? && Get(f2, name) == Missing && Get(t2, name) == Get(f1, name)
    requires forall p :: p in family - {name} ==> Get(f2, p) == Get(f1, p) && Get(t2, p) == Get(t1, p)
    ensures GetsCarried(f, t, f2, t2, moved + {name}, q)
  {
    if q == name {
      assert q in family - moved;
    } else {
      assert q in family - {name};
      assert q in moved || q in family - moved;
    }
  }

  /** Between the two trees of a swap: what has moved is in the staging tree, the rest is
      still in the old one, and the old one is otherwise what it was. */
  ghost predicate HalfWay(d: Node, f: Node, t: Node, carry: set<Path>, moved: set<Path>, exact: bool)
  {
    && Apart(carry) && moved <= carry
    && (forall p :: p in carry ==> Get(d, p).Present?)
    && (forall p :: p in moved ==> Get(t, p) == Get(d, p) && Get(f, p) == Missing)
    && (forall p :: p in carry - moved ==> Get(f, p) == Get(d, p) && Get(t, p) == Missing)
    && Untimed(f) == Untimed(Without(d, moved))
    && (exact ==> f == Without(d, moved))
  }

  lemma HalfWayDir(d: Node, f: Node, t: Node, carry: set<Path>, moved: set<Path>, exact: bool)
    requires HalfWay(d, f, t, carry, moved, exact) && moved != {}
    ensures f.Dir?
  {
    var p :| p in moved;
    assert Get(d, p).Present? && p != [];
  }

  lemma PutBack(d: Node, f: Node, t: Node, carry: set<Path>, moved: set<Path>, exact: bool)
    requires HalfWay(d, f, t, carry, moved, exact)
    ensures Untimed(Graft(f, t, moved)) == Untimed(d)
    ensures exact ==> Graft(f, t, moved) == d
  {
    if exact {
      GraftBack(d, t, moved);
    }
    UntimedGraft(f, t, moved);
    UntimedWithout(d, moved);
    forall p | p in moved
      ensures Get(Untimed(d), p).Present? && Get(Untimed(t), p) == Get(Untimed(d), p)
    {
      UntimedGet(d, p);
      UntimedGet(t, p);
    }
    GraftBack(Untimed(d), Untimed(t), moved);
  }

  /** Nothing has moved when the carry starts. */
  lemma HalfWayStart(d: Node, src: Node, staged: Node, carry: set<Path>)
    requires Apart(carry) && forall p :: p in carry ==> Get(d, p).Present?
    requires src.Dir? && staged.Dir? && staged.kids == Without(src, carry).kids
    ensures HalfWay(d, d, staged, carry, {}, true)
  {
    WithoutNone(d);
    forall p | p in carry
      ensures Get(staged, p) == Missing
    {
      GetTaken(src, carry, p);
      assert Get(staged, p) == Get(Without(src, carry), p);
    }
  }

  lemma WaysCarriable(src: Node, staged: Node, d: Node, carry: set<Path>)
    requires src.Dir? && staged.Dir? && staged.kids == Without(src, carry).kids
    requires HalfWay(d, d, staged, carry, {}, true) && WaysFree(Without(src, carry), carry)
    ensures AllCarriable(d, staged, carry)
  {
    forall p | p in carry
      ensures Carriable(d, staged, p)
    {
      assert p in carry - {} && Get(staged, p).Missing?;
      SameKidsFree(Without(src, carry), staged, p[..|p| - 1]);
    }
  }

  /** What was carried over had its way free. */
  lemma ClonedWays(src: Node, e: map<string, Node>, name: string, carry: set<Path>, r: Node)
    requires Apart(carry) && forall p :: p in carry ==> name in e && Get(e[name], p).Present?
    requires carry != {} ==> name in e && r == Graft(Without(src, carry), e[name], carry)
    requires forall p :: p in carry ==> Get(r, p) == Get(e[name], p)
    ensures WaysFree(Without(src, carry), carry)
  {
    forall p | p in carry && p != []
      ensures WayFree(Without(src, carry), p[..|p| - 1])
    {
      var par := p[..|p| - 1];
      forall k | 0 <= k <= |par|
        ensures Free(Without(src, carry), par[..k])
      {
        assert par[..k] == p[..k];
        PutInIsFree(Without(src, carry), e[name], carry, p, k);
      }
    }
  }

  /** One more to move finds its way as free as it was. */
  lemma StillCarriable(f: Node, t: Node, f1: Node, t1: Node, family: set<Path>, carry: set<Path>, moved: set<Path>,
                       name: Path)
    requires Apart(family) && name in carry && moved <= carry <= family && name !in moved
    requires AllCarriable(f, t, carry) && Carried(f, t, f1, t1, family, moved) && t1 == Graft(t, f, moved)
    ensures Carriable(f1, t1, name)
  {
    var par := name[..|name| - 1];
    assert Carriable(f, t, name) && name in family - moved && name == par + [name[|name| - 1]];
    forall k | 0 <= k <= |par|
      ensures Free(t1, par[..k])
    {
      forall q | q in moved
        ensures q != [] && !(q <= par[..k])
      {
        assert Carriable(f, t, q);
        OffTheWay(family, par, name[|name| - 1], q);
      }
      forall j | 0 <= j <= |par[..k]|
        ensures Free(t, par[..k][..j])
      {
        assert par[..k][..j] == par[..j];
      }
      GraftFree(t, f, moved, par[..k]);
    }
  }

  lemma CarriedHalfWay(d: Node, staged: Node, f: Node, t: Node, carry: set<Path>, moved: set<Path>, exact: bool)
    requires HalfWay(d, d, staged, carry, {}, true) && Carried(d, staged, f, t, carry, moved)
    requires exact ==> f == Without(d, moved)
    ensures HalfWay(d, f, t, carry, moved, exact)
  {
  }

  /** The root's time is nothing to what is in it. */
  lemma HalfWayKids(d: Node, f: Node, t: Node, t': Node, carry: set<Path>, moved: set<Path>, exact: bool)
    requires HalfWay(d, f, t, carry, moved, exact) && t.Dir? && t'.Dir? && t'.kids == t.kids
    ensures HalfWay(d, f, t', carry, moved, exact)
  {
    forall p | p in carry
      ensures Get(t', p) == Get(t, p)
    {
      assert p != [];
    }
  }

  /** The tree in place after the carry and the root's time. */
  lemma Finished(src: Node, staged: Node, d: Node, grafted: Node, carry: set<Path>, moved: set<Path>)
    requires src.Dir? && staged.Dir? && staged.kids == Without(src, carry).kids
    requires Apart(carry) && forall p :: p in carry ==> Get(d, p).Present?
    requires grafted.Dir?
    requires (if carry == {} then grafted == staged else moved == carry && grafted == Graft(staged, d, carry))
    ensures Dir(src.mtime, grafted.kids) == if carry == {} then src else Graft(Without(src, carry), d, carry)
    ensures forall p :: p in carry ==> Get(Dir(src.mtime, grafted.kids), p) == Get(grafted, p)
  {
    if carry == {} {
      WithoutNone(src);
    } else {
      var p :| p in carry;
      assert Get(d, p).Present? && p != [] && d.Dir?;
      GraftRoot(staged, src.mtime, d, carry);
      assert Without(src, carry) == Dir(src.mtime, staged.kids);
    }
  }

  lemma UnderRoot(c: set<Path>)
    ensures Under(c, []) == c - {[]}
  {
    forall p: Path
      ensures p[0..] == p && p[..0] == []
    {
    }
  }
}
