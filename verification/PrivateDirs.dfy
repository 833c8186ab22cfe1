/** What a seat owns inside a shared folder: what measuring leaves out is exactly what
    a clone would carry (internal/library/private.go, internal/library/folder.go). */
module SeatPrivate {
  import opened FileTree

  /** No path of the set lies inside another, and none is the root itself. */
  ghost predicate Apart(c: set<Path>)
  {
    [] !in c && forall p, q :: p in c && q in c && p <= q ==> p == q
  }

  lemma InPrivateDirs(d: Node, inDrive: bool, p: Path)
    ensures p in PrivateDirs(d, inDrive) <==>
      (d.Dir? && p != [] && p[0] in d.kids && p[1..] in PrivateUnder(d, inDrive, p[0]))
  {
    if d.Dir? && p != [] && p[0] in d.kids && p[1..] in PrivateUnder(d, inDrive, p[0]) {
      assert p == [p[0]] + p[1..];
    }
    if p in PrivateDirs(d, inDrive) {
      var n, q :| n in d.kids && q in PrivateUnder(d, inDrive, n) && p == [n] + q;
      assert p[0] == n && p[1..] == q;
    }
  }

  lemma {:induction false} PrivateDirsAreDirs(d: Node, inDrive: bool, p: Path)
    requires p in PrivateDirs(d, inDrive)
    ensures p != [] && Get(d, p).Present? && Get(d, p).node.Dir?
    decreases d
  {
    var n, q := p[0], p[1..];
    assert p == [n] + q;
    if !IsSeatPrivate(d, inDrive, n) {
      PrivateDirsAreDirs(d.kids[n], IsDrive(d, n), q);
    }
  }

  /** A directory called users in a drive_c that has a registry beside it. */
  predicate IsUsers(t: Node, inDrive: bool, p: Path)
  {
    && p != [] && p[|p| - 1] == "users" && Get(t, p).Present? && Get(t, p).node.Dir?
    && if |p| == 1 then inDrive
       else
         && p[|p| - 2] == "drive_c"
         && var up := Get(t, p[..|p| - 2]);
            up.Present? && up.node.Dir? && ("system.reg" in up.node.kids || "user.reg" in up.node.kids)
  }

  lemma UsersBelow(t: Node, inDrive: bool, n: string, q: Path)
    requires t.Dir? && n in t.kids && q != []
    ensures IsUsers(t, inDrive, [n] + q) <==> IsUsers(t.kids[n], IsDrive(t, n), q)
  {
    var p := [n] + q;
    assert p[1..] == q && p[|p| - 1] == q[|q| - 1];
    assert Get(t, p) == Get(t.kids[n], q);
    if |q| == 1 {
      assert Get(t, p[..|p| - 2]) == Present(t);
      assert p[..|p| - 2] == [] && p[|p| - 2] == n;
      assert q[1..] == [];
    } else {
      assert p[..|p| - 2] == [n] + q[..|q| - 2] && p[|p| - 2] == q[|q| - 2];
      assert ([n] + q[..|q| - 2])[1..] == q[..|q| - 2];
    }
  }

  lemma UsersHere(t: Node, inDrive: bool, n: string)
    requires t.Dir? && n in t.kids
    ensures IsUsers(t, inDrive, [n]) <==> IsSeatPrivate(t, inDrive, n)
  {
    assert Get(t, [n]) == Get(t.kids[n], [n][1..]);
    assert [n][1..] == [];
  }

  /** The seat owns just those, and not again what is called so inside of one. */
  lemma {:induction false} PrivateIff(t: Node, inDrive: bool, p: Path)
    ensures p in PrivateDirs(t, inDrive) <==>
      IsUsers(t, inDrive, p) && forall k :: 0 < k < |p| ==> !IsUsers(t, inDrive, p[..k])
    decreases |p|
  {
    InPrivateDirs(t, inDrive, p);
    if t.Dir? && p != [] && p[0] in t.kids {
      var n, q := p[0], p[1..];
      assert p == [n] + q && (|p| > 1 ==> p[..1] == [n]);
      UsersHere(t, inDrive, n);
      if q == [] {
        assert p == [n];
        InPrivateDirs(t.kids[n], IsDrive(t, n), q);
      } else {
        PrivateIff(t.kids[n], IsDrive(t, n), q);
        UsersBelow(t, inDrive, n, q);
        forall k | 0 < k < |q|
          ensures IsUsers(t, inDrive, p[..k + 1]) <==> IsUsers(t.kids[n], IsDrive(t, n), q[..k])
        {
          assert p[..k + 1] == [n] + q[..k];
          UsersBelow(t, inDrive, n, q[..k]);
        }
        forall k | 1 < k < |p|
          ensures IsUsers(t, inDrive, p[..k]) <==> IsUsers(t.kids[n], IsDrive(t, n), q[..k - 1])
        {
          assert p[..k] == [n] + q[..k - 1];
          UsersBelow(t, inDrive, n, q[..k - 1]);
        }
      }
    }
  }

  /** No seat private directory lies inside another. */
  lemma {:induction false} PrivateDirsApart(d: Node, inDrive: bool)
    ensures Apart(PrivateDirs(d, inDrive))
    decreases d
  {
    var c := PrivateDirs(d, inDrive);
    forall p, q | p in c && q in c && p <= q
      ensures p == q
    {
      var n := p[0];
      assert p == [n] + p[1..] && q == [n] + q[1..];
      assert p[1..] in PrivateUnder(d, inDrive, n) && q[1..] in PrivateUnder(d, inDrive, n);
      if !IsSeatPrivate(d, inDrive, n) {
        PrivateDirsApart(d.kids[n], IsDrive(d, n));
        assert p[1..] <= q[1..];
      }
    }
  }

  lemma SubOfPrivateDirs(d: Node, inDrive: bool, n: string)
    requires d.Dir? && n in d.kids
    ensures IsSeatPrivate(d, inDrive, n) <==> [n] in PrivateDirs(d, inDrive)
    ensures !IsSeatPrivate(d, inDrive, n) ==>
      Sub(PrivateDirs(d, inDrive), n) == PrivateDirs(d.kids[n], IsDrive(d, n))
  {
    var c := PrivateDirs(d, inDrive);
    InPrivateDirs(d, inDrive, [n]);
    assert [n][1..] == [];
    if !IsSeatPrivate(d, inDrive, n) {
      var under := PrivateDirs(d.kids[n], IsDrive(d, n));
      InPrivateDirs(d.kids[n], IsDrive(d, n), []);
      forall q
        ensures q in Sub(c, n) <==> q in under
      {
        InPrivateDirs(d, inDrive, [n] + q);
        assert ([n] + q)[1..] == q;
        InPrivateDirs(d.kids[n], IsDrive(d, n), q);
        if q in Sub(c, n) {
          var p :| p in c && |p| > 1 && p[0] == n && p[1..] == q;
          assert p == [n] + q;
        }
      }
    }
  }

  /** What measuring skips is what the walk reports: the measured part of a tree is the
      tree without its seat private directories. */
  lemma {:induction false} SeenIsWithoutPrivate(d: Node, inDrive: bool)
    ensures Seen(d, inDrive) == Without(d, PrivateDirs(d, inDrive))
    decreases d
  {
    if d.Dir? {
      forall n | n in d.kids
        ensures IsSeatPrivate(d, inDrive, n) <==> [n] in PrivateDirs(d, inDrive)
        ensures !IsSeatPrivate(d, inDrive, n) ==>
          Seen(d.kids[n], IsDrive(d, n)) == Without(d.kids[n], Sub(PrivateDirs(d, inDrive), n))
      {
        SubOfPrivateDirs(d, inDrive, n);
        SeenIsWithoutPrivate(d.kids[n], IsDrive(d, n));
      }
    }
  }

  /** Whatever happens to a seat's own directories, inside them or to their times, the
      folder keeps its version and the same directories stay the seat's: playing never
      makes a new version. */
  lemma PlayingKeepsTheVersion(d: Node, e: Node, inDrive: bool)
    requires var c := PrivateDirs(d, inDrive);
      && Without(d, c) == Without(e, c)
      && forall p :: p in c ==> Get(e, p).Present? && Get(e, p).node.Dir?
    ensures PrivateDirs(e, inDrive) == PrivateDirs(d, inDrive)
    ensures Measure(e, inDrive) == Measure(d, inDrive)
  {
    SamePrivateDirs(d, e, inDrive);
    SeenIsWithoutPrivate(d, inDrive);
    SeenIsWithoutPrivate(e, inDrive);
  }

  lemma {:induction false} SamePrivateDirs(d: Node, e: Node, inDrive: bool)
    requires var c := PrivateDirs(d, inDrive);
      && Without(d, c) == Without(e, c)
      && forall p :: p in c ==> Get(e, p).Present? && Get(e, p).node.Dir?
    ensures PrivateDirs(e, inDrive) == PrivateDirs(d, inDrive)
    decreases d
  {
    var c := PrivateDirs(d, inDrive);
    if !d.Dir? {
      assert !e.Dir?;
    } else {
      assert e.Dir?;
      SameNames(d, e, inDrive);
      forall n | n in d.kids
        ensures PrivateUnder(d, inDrive, n) == PrivateUnder(e, inDrive, n)
      {
        SubOfPrivateDirs(d, inDrive, n);
        if !IsSeatPrivate(d, inDrive, n) {
          var x, y := d.kids[n], e.kids[n];
          assert n in Without(d, c).kids && n in Without(e, c).kids;
          assert Without(x, Sub(c, n)) == Without(d, c).kids[n] == Without(e, c).kids[n] == Without(y, Sub(c, n));
          forall p | p in Sub(c, n)
            ensures Get(y, p).Present? && Get(y, p).node.Dir?
          {
            var q :| q in c && |q| > 1 && q[0] == n && q[1..] == p;
            assert Get(e, q) == Get(y, p);
          }
          SamePrivateDirs(x, y, IsDrive(d, n));
        }
      }
    }
  }

  lemma SameNames(d: Node, e: Node, inDrive: bool)
    requires d.Dir? && e.Dir?
    requires var c := PrivateDirs(d, inDrive);
      && Without(d, c) == Without(e, c)
      && forall p :: p in c ==> Get(e, p).Present? && Get(e, p).node.Dir?
    ensures d.kids.Keys == e.kids.Keys
    ensures forall n :: n in d.kids ==> (d.kids[n].Dir? <==> e.kids[n].Dir?)
    ensures forall n :: IsDrive(d, n) <==> IsDrive(e, n)
    ensures forall n :: IsSeatPrivate(d, inDrive, n) <==> IsSeatPrivate(e, inDrive, n)
  {
    var c := PrivateDirs(d, inDrive);
    var a, b := Without(d, c), Without(e, c);
    forall n
      ensures n in d.kids <==> n in e.kids
      ensures n in d.kids ==> (d.kids[n].Dir? <==> e.kids[n].Dir?)
    {
      if [n] in c {
        PrivateDirsAreDirs(d, inDrive, [n]);
        assert Get(d, [n]).Present? && Get(e, [n]).Present?;
        assert Get(d.kids[n], [n][1..]).node.Dir? && Get(e.kids[n], [n][1..]).node.Dir?;
      } else {
        assert n in d.kids <==> n in a.kids;
        assert n in e.kids <==> n in b.kids;
        if n in d.kids {
          assert a.kids[n] == Without(d.kids[n], Sub(c, n)) == b.kids[n] == Without(e.kids[n], Sub(c, n));
        }
      }
    }
  }

  // ------------------------------------------------------------------ walking

  ghost function Prefixed(rel: Path, c: set<Path>): set<Path>
  {
    set q | q in c :: rel + q
  }

  /** privateDirsAt: what the copy called `name` in `parent` already owns. */
  method PrivateDirsAt(parent: Node, name: string) returns (found: set<Path>)
    ensures found == if IsDirAt(parent, name) then PrivateDirs(parent.kids[name], IsDrive(parent, name)) else {}
  {
    found := {};
    if IsDirAt(parent, name) {
      found := Walk(parent, parent.kids[name], name, [], found);
      ghost var c := PrivateDirs(parent.kids[name], IsDrive(parent, name));
      assert forall q: Path :: [] + q == q;
      assert Prefixed([], c) == c;
    }
  }

  method Walk(up: Node, dir: Node, dirName: string, rel: Path, found: set<Path>) returns (r: set<Path>)
    requires dir.Dir?
    ensures r == found + Prefixed(rel, PrivateDirs(dir, IsDrive(up, dirName)))
    decreases dir
  {
    ghost var inDrive := IsDrive(up, dirName);
    ghost var done: set<string> := {};
    var names := ReadNames(dir);
    r := found;
    for i := 0 to |names|
      invariant forall n :: n in done <==> n in names[..i]
      invariant r == found + Reported(dir, inDrive, rel, done)
    {
      var name := names[i];
      var here := rel + [name];
      ReportedStep(dir, inDrive, rel, done, name);
      if IsDirAt(dir, name) {
        if name == "users" && dirName == "drive_c" && IsWinePrefix(up) {
          r := r + {here};
          assert here + [] == here;
        } else {
          r := Walk(dir, dir.kids[name], name, here, r);
        }
      }
      done := done + {name};
    }
    assert done == dir.kids.Keys;
    ReportedAll(dir, inDrive, rel);
  }

  ghost function Reported(d: Node, inDrive: bool, rel: Path, names: set<string>): set<Path>
    requires d.Dir?
  {
    set n, q | n in names && n in d.kids && q in PrivateUnder(d, inDrive, n) :: (rel + [n]) + q
  }

  lemma ReportedStep(d: Node, inDrive: bool, rel: Path, done: set<string>, n: string)
    requires d.Dir? && n in d.kids
    ensures Reported(d, inDrive, rel, done + {n}) ==
      Reported(d, inDrive, rel, done) + Prefixed(rel + [n], PrivateUnder(d, inDrive, n))
  {
  }

  lemma ReportedAll(d: Node, inDrive: bool, rel: Path)
    requires d.Dir?
    ensures Reported(d, inDrive, rel, d.kids.Keys) == Prefixed(rel, PrivateDirs(d, inDrive))
  {
    forall n, q: Path
      ensures (rel + [n]) + q == rel + ([n] + q)
    {
    }
    forall p | p in Prefixed(rel, PrivateDirs(d, inDrive))
      ensures p in Reported(d, inDrive, rel, d.kids.Keys)
    {
      var r :| r in PrivateDirs(d, inDrive) && p == rel + r;
      InPrivateDirs(d, inDrive, r);
      assert r == [r[0]] + r[1..] && p == (rel + [r[0]]) + r[1..];
    }
    forall p | p in Reported(d, inDrive, rel, d.kids.Keys)
      ensures p in Prefixed(rel, PrivateDirs(d, inDrive))
    {
      var n, q :| n in d.kids && q in PrivateUnder(d, inDrive, n) && p == (rel + [n]) + q;
      var r := [n] + q;
      assert r[0] == n && r[1..] == q;
      InPrivateDirs(d, inDrive, r);
      assert p == rel + r;
    }
  }
}
