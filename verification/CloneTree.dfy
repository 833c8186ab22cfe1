/** The copy of a tree that a clone builds in its staging directory
    (internal/library/clone.go, cloneTree and below).  Every step that changes the
    disk may fail, and when none does the copy is made, unless there is something in the
    tree that no copy can be made of; the copy itself is of content and times. */
module CloneTrees {
  import opened FileTree

  /** The disk, as far as its steps may fail, and how many have.  Only the proofs count. */
  class Disk {
    ghost var faults: nat

    constructor ()
      ensures faults == 0
    {
      faults := 0;
    }

    /** One step that changes something. */
    method Attempt() returns (ok: bool)
      modifies this
      ensures faults == old(faults) + if ok then 0 else 1
    {
      ok := *;
      if !ok {
        faults := faults + 1;
      }
    }

    /** A step that fails because something is in its way. */
    method Refuse() returns (ok: bool)
      modifies this
      ensures !ok && faults == old(faults) + 1
    {
      ok, faults := false, faults + 1;
    }
  }

  /** Neither a socket, a fifo nor a device anywhere: everything can be recreated. */
  ghost predicate Copyable(t: Node)
    decreases t
  {
    match t
    case Dir(_, kids) => forall n :: n in kids ==> Copyable(kids[n])
    case Special(_) => false
    case _ => true
  }

  /** The paths below `rel`, relative to it. */
  ghost function Under(c: set<Path>, rel: Path): set<Path>
  {
    set p | p in c && |p| > |rel| && p[..|rel|] == rel :: p[|rel|..]
  }

  lemma SubUnder(c: set<Path>, rel: Path, n: string)
    ensures Sub(Under(c, rel), n) == Under(c, rel + [n])
    ensures [n] in Under(c, rel) <==> rel + [n] in c
  {
    forall q
      ensures q in Sub(Under(c, rel), n) <==> q in Under(c, rel + [n])
    {
      if q in Under(c, rel + [n]) {
        var p :| p in c && |p| > |rel| + 1 && p[..|rel| + 1] == rel + [n] && p[|rel| + 1..] == q;
        var r := p[|rel|..];
        assert p == rel + [n] + q;
        assert r == [n] + q;
        assert r in Under(c, rel) && r[1..] == q;
      }
      if q in Sub(Under(c, rel), n) {
        var r :| r in Under(c, rel) && |r| > 1 && r[0] == n && r[1..] == q;
        var p :| p in c && |p| > |rel| && p[..|rel|] == rel && p[|rel|..] == r;
        assert p == rel + r && r == [n] + q;
        assert p[..|rel| + 1] == rel + [n] && p[|rel| + 1..] == q;
      }
    }
    if rel + [n] in c {
      assert (rel + [n])[..|rel|] == rel && (rel + [n])[|rel|..] == [n];
    }
    if [n] in Under(c, rel) {
      var p :| p in c && |p| > |rel| && p[..|rel|] == rel && p[|rel|..] == [n];
      assert p == rel + [n];
    }
  }

  /** What is to be copied of a directory's entries. */
  ghost function Wanted(src: Node, rel: Path, carry: set<Path>, names: set<string>): map<string, Node>
    requires src.Dir?
  {
    map n | n in src.kids && n in names && rel + [n] !in carry :: Without(src.kids[n], Under(carry, rel + [n]))
  }

  lemma WantedMore(src: Node, rel: Path, carry: set<Path>, names: set<string>, n: string)
    requires src.Dir? && n in src.kids
    ensures Wanted(src, rel, carry, names + {n}) ==
      if rel + [n] in carry then Wanted(src, rel, carry, names)
      else Wanted(src, rel, carry, names)[n := Without(src.kids[n], Under(carry, rel + [n]))]
  {
  }

  lemma WantedAll(src: Node, rel: Path, carry: set<Path>)
    requires src.Dir?
    ensures Wanted(src, rel, carry, src.kids.Keys) == Without(src, Under(carry, rel)).kids
  {
    forall n | n in src.kids
      ensures Sub(Under(carry, rel), n) == Under(carry, rel + [n])
      ensures [n] in Under(carry, rel) <==> rel + [n] in carry
    {
      SubUnder(carry, rel, n);
    }
  }

  /** cloneTree: recreates in the open directory `dst` what `src` holds, leaving out what
      the destination is about to get back. */
  method CloneTree(disk: Disk, src: Node, dst: Node, rel: Path, carry: set<Path>) returns (ok: bool, out: Node)
    requires src.Dir? && dst.Dir? && dst.kids == map[]
    modifies disk
    ensures disk.faults >= old(disk.faults) && out.Dir?
    ensures ok ==> out.kids == Without(src, Under(carry, rel)).kids
    ensures ok ==> Copyable(Without(src, Under(carry, rel)))
    ensures disk.faults == old(disk.faults) && Copyable(Without(src, Under(carry, rel))) ==> ok
    decreases src, 0
  {
    ok, out := true, dst;
    var names := ReadNames(src);
    ghost var done: set<string> := {};
    for i := 0 to |names|
      invariant forall n :: n in done <==> n in names[..i]
      invariant out.Dir? && out.kids == Wanted(src, rel, carry, done)
      invariant forall n :: n in out.kids ==> Copyable(out.kids[n])
      invariant disk.faults >= old(disk.faults)
    {
      var name := names[i];
      var here := rel + [name];
      WantedMore(src, rel, carry, done, name);
      if here !in carry {
        assert name !in done;
        ok, out := CloneEntry(disk, src, out, name, here, carry);
        if !ok {
          WantedAll(src, rel, carry);
          assert name in Wanted(src, rel, carry, src.kids.Keys);
          return;
        }
      }
      done := done + {name};
    }
    assert done == src.kids.Keys;
    WantedAll(src, rel, carry);
    assert out.kids == Without(src, Under(carry, rel)).kids;
  }

  method CloneEntry(disk: Disk, src: Node, dst: Node, name: string, here: Path, carry: set<Path>)
    returns (ok: bool, out: Node)
    requires src.Dir? && name in src.kids && dst.Dir? && name !in dst.kids
    modifies disk
    ensures disk.faults >= old(disk.faults) && out.Dir?
    ensures ok ==> out.kids == dst.kids[name := Without(src.kids[name], Under(carry, here))]
    ensures ok ==> Copyable(Without(src.kids[name], Under(carry, here)))
    ensures disk.faults == old(disk.faults) && Copyable(Without(src.kids[name], Under(carry, here))) ==> ok
    decreases src.kids[name], 2
  {
    var st := src.kids[name];
    match st {
      case Dir(_, _) =>
        ok, out := CloneDir(disk, st, dst, name, here, carry);
      case Link(_, _) =>
        ok, out := CloneLink(disk, st, dst, name);
      case File(_, _) =>
        ok, out := CloneFile(disk, st, dst, name);
      case Special(_) =>
        ok, out := false, dst;
    }
  }

  method CloneDir(disk: Disk, st: Node, dst: Node, name: string, here: Path, carry: set<Path>)
    returns (ok: bool, out: Node)
    requires st.Dir? && dst.Dir? && name !in dst.kids
    modifies disk
    ensures disk.faults >= old(disk.faults) && out.Dir?
    ensures ok ==> out.kids == dst.kids[name := Without(st, Under(carry, here))]
    ensures ok ==> Copyable(Without(st, Under(carry, here)))
    ensures disk.faults == old(disk.faults) && Copyable(Without(st, Under(carry, here))) ==> ok
    decreases st, 1
  {
    out := dst;
    ok := disk.Attempt();
    if !ok {
      return;
    }
    var now: int := *;
    var made := Dir(now, map[]);
    ok, made := CloneTree(disk, st, made, here, carry);
    out := Dir(now, out.kids[name := made]);
    if ok {
      ok := disk.Attempt(); // chown
    }
    if ok {
      ok := disk.Attempt(); // chmod
    }
    if ok {
      ok := disk.Attempt(); // utimes
    }
    if ok {
      out := Dir(out.mtime, out.kids[name := Dir(st.mtime, made.kids)]);
    }
  }

  method CloneLink(disk: Disk, st: Node, dst: Node, name: string) returns (ok: bool, out: Node)
    requires st.Link? && dst.Dir? && name !in dst.kids
    modifies disk
    ensures disk.faults >= old(disk.faults) && out.Dir?
    ensures ok ==> out.kids == dst.kids[name := st]
    ensures disk.faults == old(disk.faults) ==> ok
  {
    out := dst;
    ok := disk.Attempt();
    if !ok {
      return;
    }
    var now: int := *;
    out := Dir(now, out.kids[name := Link(now, st.target)]);
    ok := disk.Attempt(); // lchown
    if ok {
      ok := disk.Attempt(); // utimes, not following
    }
    if ok {
      out := Dir(out.mtime, out.kids[name := Link(st.mtime, st.target)]);
    }
  }

  method CloneFile(disk: Disk, st: Node, dst: Node, name: string) returns (ok: bool, out: Node)
    requires st.File? && dst.Dir? && name !in dst.kids
    modifies disk
    ensures disk.faults >= old(disk.faults) && out.Dir?
    ensures ok ==> out.kids == dst.kids[name := st]
    ensures disk.faults == old(disk.faults) ==> ok
  {
    out := dst;
    ok := disk.Attempt();
    if !ok {
      return;
    }
    var now: int := *;
    out := Dir(now, out.kids[name := File(now, [])]);
    ok := disk.Attempt(); // the reflink or the copy
    if !ok {
      return;
    }
    out := Dir(out.mtime, out.kids[name := File(now, st.data)]);
    ok := disk.Attempt(); // chown
    if ok {
      ok := disk.Attempt(); // utimes
    }
    if ok {
      out := Dir(out.mtime, out.kids[name := File(st.mtime, st.data)]);
    }
  }
}
