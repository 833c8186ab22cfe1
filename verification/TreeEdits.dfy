/** Edits of a tree at a path, and how taking directories out of one tree and putting
    them into another composes.  These are the facts carryPrivate rests on. */
module TreeEdits {
  import opened FileTree
  import opened SeatPrivate

  predicate DirAt(d: Node, p: Path)
  {
    Get(d, p).Present? && Get(d, p).node.Dir?
  }

  /** The tree with the entry at an existing path exchanged. */
  function Replace(d: Node, p: Path, x: Node): (r: Node)
    requires Get(d, p).Present?
    ensures p != [] ==> r.Dir? && r.mtime == d.mtime
    decreases |p|
  {
    if p == [] then x else Dir(d.mtime, d.kids[p[0] := Replace(d.kids[p[0]], p[1..], x)])
  }

  /** The tree with its directories' times forgotten. */
  ghost function Untimed(d: Node): Node
    decreases d
  {
    match d
    case Dir(_, kids) => Dir(0, map n | n in kids :: Untimed(kids[n]))
    case _ => d
  }

  /** `t` with every directory that `c` names in `d` put at the same place.  What is
      missing on the way is made, with the time it has in `d`. */
  ghost function Graft(t: Node, d: Node, c: set<Path>): Node
    decreases d, 1
  {
    if !t.Dir? || !d.Dir? then t else
    Dir(t.mtime, map n | n in t.kids.Keys + d.kids.Keys && GraftKid(t, d, c, n).Present? :: GraftKid(t, d, c, n).node)
  }

  ghost function GraftKid(t: Node, d: Node, c: set<Path>, n: string): Found
    requires t.Dir? && d.Dir?
    decreases d, 0
  {
    if n in d.kids && [n] in c then Present(d.kids[n])
    else if IsDirAt(d, n) && Sub(c, n) != {} then Present(Graft(KidOrNew(t, d, n), d.kids[n], Sub(c, n)))
    else if n in t.kids then Present(t.kids[n])
    else Missing
  }

  /** The entry to put into, or the empty directory made for it like the one in `d`. */
  ghost function KidOrNew(t: Node, d: Node, n: string): Node
    requires t.Dir? && d.Dir? && n in d.kids
  {
    if n in t.kids then t.kids[n] else Dir(d.kids[n].mtime, map[])
  }

  lemma {:induction false} WithoutNone(d: Node)
    ensures Without(d, {}) == d
    decreases d
  {
    if d.Dir? {
      forall n | n in d.kids
        ensures Without(d.kids[n], Sub({}, n)) == d.kids[n]
      {
        assert Sub({}, n) == {};
        WithoutNone(d.kids[n]);
      }
    }
  }

  lemma {:induction false} WithoutTwice(d: Node, a: set<Path>, b: set<Path>)
    ensures Without(Without(d, a), b) == Without(d, a + b)
    decreases d
  {
    if d.Dir? {
      forall n | n in d.kids
        ensures Without(Without(d.kids[n], Sub(a, n)), Sub(b, n)) == Without(d.kids[n], Sub(a + b, n))
      {
        assert Sub(a + b, n) == Sub(a, n) + Sub(b, n);
        WithoutTwice(d.kids[n], Sub(a, n), Sub(b, n));
      }
    }
  }

  lemma SubHas(c: set<Path>, p: Path)
    requires p in c && |p| > 1
    ensures p[1..] in Sub(c, p[0])
  {
  }

  lemma SubApart(c: set<Path>, n: string)
    requires Apart(c)
    ensures Apart(Sub(c, n))
    ensures [n] in c ==> Sub(c, n) == {}
    ensures forall q :: q in Sub(c, n) ==> [n] + q in c
  {
    forall q | q in Sub(c, n)
      ensures [n] + q in c && |q| > 0 && [n] !in c
    {
      var p :| p in c && |p| > 1 && p[0] == n && p[1..] == q;
      assert p == [n] + q;
      assert [n] <= p && [n] != p;
    }
    forall p, q | p in Sub(c, n) && q in Sub(c, n) && p <= q
      ensures p == q
    {
      assert [n] + p <= [n] + q;
      assert ([n] + p)[1..] == p && ([n] + q)[1..] == q;
    }
  }

  lemma {:induction false} GetTaken(d: Node, m: set<Path>, q: Path)
    requires q in m && q != []
    ensures Get(Without(d, m), q) == Missing
    decreases |q|
  {
    var n := q[0];
    if d.Dir? && n in d.kids {
      if |q| == 1 {
        assert q == [n];
      } else if [n] !in m {
        SubHas(m, q);
        GetTaken(d.kids[n], Sub(m, n), q[1..]);
      }
    }
  }

  lemma GetHead(d: Node, n: string, q: Path)
    ensures Get(d, [n] + q) == if d.Dir? && n in d.kids then Get(d.kids[n], q) else Missing
  {
    assert ([n] + q)[1..] == q;
  }

  lemma GraftHas(t: Node, d: Node, c: set<Path>, n: string)
    requires t.Dir? && d.Dir?
    ensures var r := Graft(t, d, c);
      GraftKid(t, d, c, n) == if n in r.kids then Present(r.kids[n]) else Missing
  {
  }

  lemma {:induction false} GraftNone(t: Node, d: Node)
    ensures Graft(t, d, {}) == t
  {
    if t.Dir? && d.Dir? {
      assert forall n :: Sub({}, n) == {};
    }
  }

  /** Putting one more directory in is one more path in the set. */
  lemma {:induction false} GraftMore(t: Node, d: Node, m: set<Path>, p: Path)
    requires Apart(m + {p}) && p !in m && Get(d, p).Present?
    ensures Graft(Graft(t, d, m), Without(d, m), {p}) == Graft(t, d, m + {p})
    decreases d, 1
  {
    if t.Dir? && d.Dir? {
      forall n
        ensures GraftKid(Graft(t, d, m), Without(d, m), {p}, n) == GraftKid(t, d, m + {p}, n)
      {
        GraftMoreAt(t, d, m, p, n);
      }
      GraftSame(Graft(t, d, m), Without(d, m), {p}, t, d, m + {p});
    }
  }

  lemma {:induction false} GraftMoreAt(t: Node, d: Node, m: set<Path>, p: Path, n: string)
    requires Apart(m + {p}) && p !in m && Get(d, p).Present? && t.Dir? && d.Dir?
    ensures GraftKid(Graft(t, d, m), Without(d, m), {p}, n) == GraftKid(t, d, m + {p}, n)
    decreases d, 0, 1
  {
    if p[0] != n {
      GraftMoreElsewhere(t, d, m, p, n);
    } else if |p| == 1 {
      GraftMoreHere(t, d, m, p, n);
    } else {
      GraftMoreBelow(t, d, m, p, n);
    }
  }

  /** Two grafts are the same when their entries are. */
  lemma GraftSame(t: Node, d: Node, c: set<Path>, u: Node, e: Node, b: set<Path>)
    requires t.Dir? && d.Dir? && u.Dir? && e.Dir? && t.mtime == u.mtime
    requires forall n :: GraftKid(t, d, c, n) == GraftKid(u, e, b, n)
    ensures Graft(t, d, c) == Graft(u, e, b)
  {
    var x, y := Graft(t, d, c), Graft(u, e, b);
    forall n
      ensures n in x.kids <==> n in y.kids
      ensures n in x.kids ==> x.kids[n] == y.kids[n]
    {
      GraftHas(t, d, c, n);
      GraftHas(u, e, b, n);
      assert GraftKid(t, d, c, n) == GraftKid(u, e, b, n);
    }
  }

  lemma GraftMoreElsewhere(t: Node, d: Node, m: set<Path>, p: Path, n: string)
    requires Apart(m + {p}) && t.Dir? && d.Dir? && p[0] != n
    ensures GraftKid(Graft(t, d, m), Without(d, m), {p}, n) == GraftKid(t, d, m + {p}, n)
  {
    assert Sub({p}, n) == {} && [n] != p;
    assert Sub(m + {p}, n) == Sub(m, n);
    assert Graft(t, d, m).Dir?;
  }

  lemma GraftMoreHere(t: Node, d: Node, m: set<Path>, p: Path, n: string)
    requires Apart(m + {p}) && p !in m && t.Dir? && d.Dir? && p == [n] && n in d.kids
    ensures GraftKid(Graft(t, d, m), Without(d, m), {p}, n) == GraftKid(t, d, m + {p}, n)
  {
    SubApart(m + {p}, n);
    assert Sub(m, n) <= Sub(m + {p}, n);
    assert [n] !in m && Sub(m, n) == {};
    WithoutNone(d.kids[n]);
    assert Without(d, m).kids[n] == d.kids[n];
  }

  lemma {:induction false} GraftMoreBelow(t: Node, d: Node, m: set<Path>, p: Path, n: string)
    requires Apart(m + {p}) && p !in m && t.Dir? && d.Dir? && |p| > 1 && p[0] == n
    requires Get(d, p).Present?
    ensures GraftKid(Graft(t, d, m), Without(d, m), {p}, n) == GraftKid(t, d, m + {p}, n)
    decreases d, 0, 0
  {
    SubApart(m + {p}, n);
    assert [n] !in m by {
      assert [n] <= p;
    }
    var q := p[1..];
    assert p == [n] + q;
    assert Sub({p}, n) == {q};
    assert Sub(m + {p}, n) == Sub(m, n) + {q};
    assert q !in Sub(m, n);
    var base := KidOrNew(t, d, n);
    GraftMore(base, d.kids[n], Sub(m, n), q);
    GraftNone(base, d.kids[n]);
    var a, e := Graft(t, d, m), Without(d, m);
    assert e.kids[n] == Without(d.kids[n], Sub(m, n));
    WithoutMtime(d.kids[n], Sub(m, n));
    assert KidOrNew(a, e, n) == Graft(base, d.kids[n], Sub(m, n)) by {
      if Sub(m, n) == {} {
        assert GraftKid(t, d, m, n) == if n in t.kids then Present(t.kids[n]) else Missing;
      } else {
        assert GraftKid(t, d, m, n) == Present(Graft(base, d.kids[n], Sub(m, n)));
      }
    }
  }

  lemma WithoutMtime(d: Node, c: set<Path>)
    ensures Without(d, c).mtime == d.mtime
  {
  }

  /** Putting back what was taken out gives the tree it was taken out of. */
  lemma {:induction false} GraftBack(d: Node, t: Node, m: set<Path>)
    requires Apart(m) && forall p :: p in m ==> Get(d, p).Present? && Get(t, p) == Get(d, p)
    ensures Graft(Without(d, m), t, m) == d
    decreases d
  {
    if m == {} {
      WithoutNone(d);
      GraftNone(d, t);
    } else {
      var p :| p in m;
      var lhs := Graft(Without(d, m), t, m);
      assert d.Dir? && t.Dir?;
      forall n
        ensures n in lhs.kids <==> n in d.kids
        ensures n in lhs.kids ==> lhs.kids[n] == d.kids[n]
      {
        SubApart(m, n);
        GraftHas(Without(d, m), t, m, n);
        if [n] in m {
          GetHead(d, n, []);
          GetHead(t, n, []);
          assert Get(d, [n]) == Get(t, [n]) && [n] + [] == [n];
        } else {
          forall q | q in Sub(m, n)
            ensures d.Dir? && n in d.kids && n in t.kids
            ensures Get(d.kids[n], q).Present? && Get(t.kids[n], q) == Get(d.kids[n], q)
          {
            GetHead(d, n, q);
            GetHead(t, n, q);
          }
          if Sub(m, n) != {} {
            var q :| q in Sub(m, n);
            GraftBack(d.kids[n], t.kids[n], Sub(m, n));
          } else if n in d.kids {
            WithoutNone(d.kids[n]);
          }
        }
      }
    }
  }

  lemma {:induction false} UntimedWithout(d: Node, c: set<Path>)
    ensures Untimed(Without(d, c)) == Without(Untimed(d), c)
    decreases d
  {
    if d.Dir? {
      forall n | n in d.kids
        ensures Untimed(Without(d.kids[n], Sub(c, n))) == Without(Untimed(d.kids[n]), Sub(c, n))
      {
        UntimedWithout(d.kids[n], Sub(c, n));
      }
    }
  }

  lemma {:induction false} UntimedGraft(t: Node, d: Node, c: set<Path>)
    ensures Untimed(Graft(t, d, c)) == Graft(Untimed(t), Untimed(d), c)
    decreases d, 1
  {
    if t.Dir? && d.Dir? {
      var lhs, rhs := Untimed(Graft(t, d, c)), Graft(Untimed(t), Untimed(d), c);
      forall n
        ensures n in lhs.kids <==> n in rhs.kids
        ensures n in lhs.kids ==> lhs.kids[n] == rhs.kids[n]
      {
        GraftHas(t, d, c, n);
        GraftHas(Untimed(t), Untimed(d), c, n);
        UntimedKid(t, d, c, n);
      }
    }
  }

  lemma {:induction false} UntimedKid(t: Node, d: Node, c: set<Path>, n: string)
    requires t.Dir? && d.Dir?
    ensures GraftKid(Untimed(t), Untimed(d), c, n) ==
      match GraftKid(t, d, c, n) case Missing => Missing case Present(x) => Present(Untimed(x))
    decreases d, 0
  {
    if [n] !in c && Sub(c, n) != {} && IsDirAt(d, n) {
      UntimedGraft(KidOrNew(t, d, n), d.kids[n], Sub(c, n));
      assert Untimed(KidOrNew(t, d, n)) == KidOrNew(Untimed(t), Untimed(d), n);
    }
  }

  lemma {:induction false} UntimedGet(d: Node, p: Path)
    ensures Get(Untimed(d), p) == match Get(d, p) case Missing => Missing case Present(x) => Present(Untimed(x))
    decreases |p|
  {
    if p != [] && d.Dir? && p[0] in d.kids {
      UntimedGet(d.kids[p[0]], p[1..]);
    }
  }

  // ------------------------------------------------------------ ways that are free

  /** Nothing but directories stands on the way along this path. */
  ghost predicate WayFree(t: Node, par: Path)
  {
    forall k :: 0 <= k <= |par| ==> Free(t, par[..k])
  }

  ghost predicate Free(t: Node, p: Path)
  {
    Get(t, p).Missing? || Get(t, p).node.Dir?
  }

  /** Nor on the way to the place of any of these directories. */
  ghost predicate WaysFree(t: Node, c: set<Path>)
  {
    forall p :: p in c && p != [] ==> WayFree(t, p[..|p| - 1])
  }

  lemma {:induction false} FreeBelow(t: Node, n: string, p: Path)
    requires t.Dir? && n in t.kids
    ensures Free(t, [n] + p) <==> Free(t.kids[n], p)
  {
    GetHead(t, n, p);
  }

  /** A way that is there is free. */
  lemma {:induction false} ThereIsFree(t: Node, p: Path, k: nat)
    requires p != [] && Get(t, p).Present? && k < |p|
    ensures Free(t, p[..k])
    decreases k
  {
    if k > 0 {
      ThereIsFree(t.kids[p[0]], p[1..], k - 1);
      assert p[..k] == [p[0]] + p[1..][..k - 1];
      FreeBelow(t, p[0], p[1..][..k - 1]);
    }
  }

  /** Putting other directories in leaves a way free. */
  lemma {:induction false} GraftFree(t: Node, d: Node, c: set<Path>, p: Path)
    requires (forall k :: 0 <= k <= |p| ==> Free(t, p[..k])) && forall q :: q in c ==> q != [] && !(q <= p)
    ensures Free(Graft(t, d, c), p)
    decreases |p|
  {
    assert p[..0] == [] && p[..|p|] == p;
    assert Free(t, p[..0]);
    if p != [] && d.Dir? {
      var n, r := p[0], p[1..];
      assert p == [n] + r;
      GraftHas(t, d, c, n);
      GetHead(Graft(t, d, c), n, r);
      assert [n] <= p;
      if IsDirAt(d, n) && Sub(c, n) != {} {
        GraftFreeBelow(t, d, c, p);
      } else if n in t.kids {
        FreeBelow(t, n, r);
      }
    }
  }

  lemma {:induction false} GraftFreeBelow(t: Node, d: Node, c: set<Path>, p: Path)
    requires p != [] && t.Dir? && IsDirAt(d, p[0]) && Sub(c, p[0]) != {}
    requires (forall k :: 0 <= k <= |p| ==> Free(t, p[..k])) && forall q :: q in c ==> q != [] && !(q <= p)
    ensures Free(Graft(KidOrNew(t, d, p[0]), d.kids[p[0]], Sub(c, p[0])), p[1..])
    decreases |p|, 0
  {
    var n, r := p[0], p[1..];
    var u := KidOrNew(t, d, n);
    forall k | 0 <= k <= |r|
      ensures Free(u, r[..k])
    {
      assert p[..k + 1] == [n] + r[..k];
      assert Free(t, p[..k + 1]);
      if n in t.kids {
        FreeBelow(t, n, r[..k]);
      }
    }
    forall q | q in Sub(c, n)
      ensures q != [] && !(q <= r)
    {
      var w :| w in c && |w| > 1 && w[0] == n && w[1..] == q;
      assert w == [n] + q && p == [n] + r;
      assert q <= r ==> w <= p;
    }
    GraftFree(u, d.kids[n], Sub(c, n), r);
  }

  /** A directory that was put in found its way free. */
  lemma {:induction false} PutInIsFree(t: Node, d: Node, c: set<Path>, p: Path, k: nat)
    requires Apart(c) && p in c && p != [] && Get(Graft(t, d, c), p).Present? && k < |p|
    ensures Free(t, p[..k])
    decreases |p|
  {
    if !d.Dir? || !t.Dir? {
      ThereIsFree(t, p, k);
    } else if k > 0 {
      var n, r := p[0], p[1..];
      assert p == [n] + r && p[..k] == [n] + r[..k - 1];
      SubHas(c, p);
      SubApart(c, n);
      GraftHas(t, d, c, n);
      GetHead(Graft(t, d, c), n, r);
      assert [n] <= p;
      GetHead(t, n, r[..k - 1]);
      if IsDirAt(d, n) {
        PutInIsFree(KidOrNew(t, d, n), d.kids[n], Sub(c, n), r, k - 1);
      } else {
        ThereIsFree(t.kids[n], r, k - 1);
      }
    }
  }

  lemma {:induction false} SameKidsFree(t: Node, u: Node, par: Path)
    requires WayFree(t, par) && t.Dir? && u.Dir? && t.kids == u.kids
    ensures WayFree(u, par)
  {
    forall k | 0 <= k <= |par|
      ensures Free(u, par[..k])
    {
      assert Free(t, par[..k]);
    }
  }

  // ------------------------------------------------------- one directory at a time

  lemma {:induction false} GetReplaced(d: Node, p: Path, x: Node, q: Path)
    requires Get(d, p).Present?
    ensures p <= q ==> Get(Replace(d, p, x), q) == Get(x, q[|p|..])
    ensures !(p <= q) && !(q <= p) ==> Get(Replace(d, p, x), q) == Get(d, q)
    ensures q < p ==>
      (DirAt(d, q) && DirAt(Replace(d, p, x), q)
       && Get(Replace(d, p, x), q).node.mtime == Get(d, q).node.mtime
       && Get(Replace(d, p, x), q).node.kids.Keys == Get(d, q).node.kids.Keys)
    decreases |p|
  {
    if p != [] && q != [] && p[0] == q[0] {
      GetReplaced(d.kids[p[0]], p[1..], x, q[1..]);
    }
  }

  /** Taking one entry out of the directory it is in, that directory keeping its time. */
  lemma {:induction false} TakeOut(d: Node, par: Path, base: string)
    requires DirAt(d, par)
    ensures var dir := Get(d, par).node;
      Replace(d, par, dir.(kids := dir.kids - {base})) == Without(d, {par + [base]})
    decreases |par|
  {
    if par == [] {
      assert [] + [base] == [base];
      TakeOutHere(d, base);
    } else {
      TakeOut(d.kids[par[0]], par[1..], base);
      assert par + [base] == [par[0]] + (par[1..] + [base]);
      TakeOutBelow(d, par[0], par[1..] + [base]);
    }
  }

  lemma TakeOutHere(d: Node, base: string)
    requires d.Dir?
    ensures Dir(d.mtime, d.kids - {base}) == Without(d, {[base]})
  {
    var c := {[base]};
    var r := Without(d, c);
    forall n
      ensures n in r.kids <==> n in d.kids && n != base
      ensures n in r.kids ==> r.kids[n] == d.kids[n]
    {
      assert [n] in c <==> n == base;
      if n in r.kids {
        assert Sub(c, n) == {};
        WithoutNone(d.kids[n]);
      }
    }
    assert (d.kids - {base}) == r.kids;
  }

  lemma TakeOutBelow(d: Node, h: string, q: Path)
    requires IsDirAt(d, h) && q != []
    ensures Without(d, {[h] + q}) == Dir(d.mtime, d.kids[h := Without(d.kids[h], {q})])
  {
    var c := {[h] + q};
    assert ([h] + q)[1..] == q;
    assert Sub(c, h) == {q};
    forall n | n in d.kids && n != h
      ensures [n] !in c && Without(d.kids[n], Sub(c, n)) == d.kids[n]
    {
      assert Sub(c, n) == {};
      WithoutNone(d.kids[n]);
    }
    assert [h] !in c;
  }

  /** `t` with the directories on the way to `p` made where they are missing. */
  ghost function Ensured(t: Node, d: Node, p: Path): Node
    requires DirAt(d, p)
    decreases |p|
  {
    if !t.Dir? || p == [] then t
    else Dir(t.mtime, t.kids[p[0] := Ensured(KidOrNew(t, d, p[0]), d.kids[p[0]], p[1..])])
  }

  /** Putting one directory in: make the way, then add the entry. */
  lemma {:induction false} PutIn(t: Node, d: Node, par: Path, base: string)
    requires DirAt(d, par) && Get(d, par + [base]).Present?
    requires DirAt(Ensured(t, d, par), par)
    ensures t.Dir?
    ensures var e := Ensured(t, d, par);
      var dir := Get(e, par).node;
      Replace(e, par, dir.(kids := dir.kids[base := Get(d, par + [base]).node])) == Graft(t, d, {par + [base]})
    decreases |par|
  {
    if par == [] {
      assert [] + [base] == [base];
      GetHead(d, base, []);
      PutInHere(t, d, base);
    } else {
      var h, rest := par[0], par[1..];
      assert par + [base] == [h] + (rest + [base]);
      GetHead(d, h, rest + [base]);
      assert Ensured(t, d, par).kids[h] == Ensured(KidOrNew(t, d, h), d.kids[h], rest);
      PutIn(KidOrNew(t, d, h), d.kids[h], rest, base);
      PutInBelow(t, d, h, rest + [base]);
    }
  }

  lemma PutInHere(t: Node, d: Node, base: string)
    requires t.Dir? && d.Dir? && base in d.kids
    ensures Graft(t, d, {[base]}) == Dir(t.mtime, t.kids[base := d.kids[base]])
  {
    assert forall n :: Sub({[base]}, n) == {};
    var r := Dir(t.mtime, t.kids[base := d.kids[base]]);
    forall n
      ensures GraftKid(t, d, {[base]}, n) == if n in r.kids then Present(r.kids[n]) else Missing
    {
      GraftHas(t, d, {[base]}, n);
    }
  }

  lemma PutInBelow(t: Node, d: Node, h: string, q: Path)
    requires t.Dir? && IsDirAt(d, h) && q != []
    ensures Graft(t, d, {[h] + q}) == Dir(t.mtime, t.kids[h := Graft(KidOrNew(t, d, h), d.kids[h], {q})])
  {
    var c := {[h] + q};
    assert ([h] + q)[1..] == q;
    assert Sub(c, h) == {q} && [h] !in c;
    var r := Dir(t.mtime, t.kids[h := Graft(KidOrNew(t, d, h), d.kids[h], {q})]);
    forall n
      ensures GraftKid(t, d, c, n) == if n in r.kids then Present(r.kids[n]) else Missing
    {
      GraftHas(t, d, c, n);
      if n != h {
        assert [n] !in c && Sub(c, n) == {};
      }
    }
  }

  /** One more directory on the way. */
  lemma {:induction false} EnsuredMore(t: Node, d: Node, p: Path, n: string)
    requires DirAt(d, p) && DirAt(d, p + [n]) && DirAt(Ensured(t, d, p), p)
    ensures var e := Ensured(t, d, p);
      var dir := Get(e, p).node;
      Ensured(t, d, p + [n]) ==
        (if n in dir.kids then e
         else Replace(e, p, dir.(kids := dir.kids[n := Dir(Get(d, p + [n]).node.mtime, map[])])))
    decreases |p|
  {
    if p == [] {
      assert [] + [n] == [n];
      GetHead(d, n, []);
      assert [n][1..] == [];
      assert t.Dir?;
      assert d.kids[n] == Get(d, [n]).node;
      if n in t.kids {
        assert t.kids[n := t.kids[n]] == t.kids;
      }
    } else {
      var h, rest := p[0], p[1..];
      assert (p + [n])[0] == h && (p + [n])[1..] == rest + [n];
      var e := Ensured(t, d, p);
      assert t.Dir?;
      assert e.kids[h] == Ensured(KidOrNew(t, d, h), d.kids[h], rest);
      EnsuredMore(KidOrNew(t, d, h), d.kids[h], rest, n);
      var a, b := Ensured(t, d, p + [n]).kids, e.kids;
      assert a[h] == Ensured(KidOrNew(t, d, h), d.kids[h], rest + [n]);
    }
  }

  /** The tree with the directories on the way to `p` given these times. */
  ghost function Retimed(t: Node, p: Path, times: seq<int>): Node
    requires DirAt(t, p) && |times| == |p| + 1
    decreases |p|
  {
    if p == [] then Dir(times[0], t.kids)
    else Dir(times[0], t.kids[p[0] := Retimed(t.kids[p[0]], p[1..], times[1..])])
  }

  /** The times now found on the way to `p`. */
  ghost predicate TimedFrom(t: Node, p: Path, times: seq<int>, from: nat)
    requires DirAt(t, p) && |times| == |p| + 1
  {
    forall k :: from <= k <= |p| ==> DirAt(t, p[..k]) && Get(t, p[..k]).node.mtime == times[k]
  }

  lemma {:induction false} RetimedIsSelf(t: Node, p: Path, times: seq<int>)
    requires DirAt(t, p) && |times| == |p| + 1 && TimedFrom(t, p, times, 0)
    ensures Retimed(t, p, times) == t
    decreases |p|
  {
    assert Get(t, p[..0]).node.mtime == times[0];
    if p != [] {
      forall k | 0 <= k <= |p[1..]|
        ensures DirAt(t.kids[p[0]], p[1..][..k]) && Get(t.kids[p[0]], p[1..][..k]).node.mtime == times[1..][k]
      {
        assert p[..k + 1][1..] == p[1..][..k];
        assert DirAt(t, p[..k + 1]);
      }
      RetimedIsSelf(t.kids[p[0]], p[1..], times[1..]);
      assert t.kids[p[0] := t.kids[p[0]]] == t.kids;
    }
  }

  /** Stamping a directory on the way is forgotten once the way is retimed. */
  lemma {:induction false} RetimedForgets(t: Node, p: Path, times: seq<int>, k: nat, m: int)
    requires DirAt(t, p) && |times| == |p| + 1 && k <= |p|
    ensures DirAt(t, p[..k])
    ensures var u := Replace(t, p[..k], Dir(m, Get(t, p[..k]).node.kids));
      DirAt(u, p) && Retimed(u, p, times) == Retimed(t, p, times)
    decreases |p|
  {
    if k == 0 {
      assert p[..0] == [];
    } else {
      assert p[..k][1..] == p[1..][..k - 1];
      RetimedForgets(t.kids[p[0]], p[1..], times[1..], k - 1, m);
    }
  }

  lemma {:induction false} RetimedGet(t: Node, p: Path, times: seq<int>)
    requires DirAt(t, p) && |times| == |p| + 1
    ensures Get(Retimed(t, p, times), p) == Present(Dir(times[|p|], Get(t, p).node.kids))
    decreases |p|
  {
    if p != [] {
      RetimedGet(t.kids[p[0]], p[1..], times[1..]);
    }
  }

  lemma {:induction false} RetimedReplace(t: Node, p: Path, times: seq<int>, m: int, kids: map<string, Node>)
    requires DirAt(t, p) && |times| == |p| + 1
    ensures var u := Replace(t, p, Dir(m, kids));
      && DirAt(u, p)
      && Get(Retimed(t, p, times), p).Present?
      && Retimed(u, p, times) == Replace(Retimed(t, p, times), p, Dir(times[|p|], kids))
    decreases |p|
  {
    if p != [] {
      RetimedReplace(t.kids[p[0]], p[1..], times[1..], m, kids);
    }
  }

  /** One more directory on the way to be retimed. */
  lemma {:induction false} RetimedMore(t: Node, p: Path, times: seq<int>, n: string, m: int)
    requires DirAt(t, p) && |times| == |p| + 1 && IsDirAt(Get(t, p).node, n)
    ensures DirAt(t, p + [n])
    ensures var r := Retimed(t, p, times);
      var kids := Get(t, p).node.kids;
      && Get(r, p).Present?
      && Retimed(t, p + [n], times + [m]) ==
           Replace(r, p, Dir(times[|p|], kids[n := Dir(m, kids[n].kids)]))
    decreases |p|
  {
    if p == [] {
      assert [] + [n] == [n] && [n][1..] == [] && (times + [m])[1..] == [m];
      assert DirAt(t.kids[n], [n][1..]);
    } else {
      assert (p + [n])[0] == p[0] && (p + [n])[1..] == p[1..] + [n];
      assert (times + [m])[1..] == times[1..] + [m];
      RetimedMore(t.kids[p[0]], p[1..], times[1..], n, m);
    }
  }

  /** Stamping a directory changes nothing but its time. */
  lemma {:induction false} StampUntimed(t: Node, p: Path, m: int)
    requires DirAt(t, p)
    ensures Untimed(Replace(t, p, Dir(m, Get(t, p).node.kids))) == Untimed(t)
    decreases |p|
  {
    if p != [] {
      StampUntimed(t.kids[p[0]], p[1..], m);
    }
  }

  lemma {:induction false} StampGet(t: Node, p: Path, m: int, q: Path)
    requires DirAt(t, p) && !(q <= p)
    ensures Get(Replace(t, p, Dir(m, Get(t, p).node.kids)), q) == Get(t, q)
    decreases |p|
  {
    if p != [] && q[0] == p[0] {
      StampGet(t.kids[p[0]], p[1..], m, q[1..]);
    }
  }

  lemma {:induction false} ReplaceSelf(t: Node, p: Path)
    requires Get(t, p).Present?
    ensures Replace(t, p, Get(t, p).node) == t
    decreases |p|
  {
    if p != [] {
      ReplaceSelf(t.kids[p[0]], p[1..]);
      assert t.kids[p[0] := t.kids[p[0]]] == t.kids;
    }
  }

  lemma {:induction false} ReplaceTwice(t: Node, p: Path, x: Node, y: Node)
    requires Get(t, p).Present?
    ensures Get(Replace(t, p, x), p) == Present(x)
    ensures Replace(Replace(t, p, x), p, y) == Replace(t, p, y)
    decreases |p|
  {
    if p != [] {
      ReplaceTwice(t.kids[p[0]], p[1..], x, y);
    }
  }

  /** Setting one entry of a directory disturbs no path that is not on the way to it or
      below it. */
  lemma {:induction false} EntryGet(t: Node, p: Path, m: int, kids: map<string, Node>, q: Path)
    requires DirAt(t, p) && !(q <= p)
    requires q[..|q|] == q && (p <= q ==> Get(Dir(m, kids), q[|p|..]) == Get(Get(t, p).node, q[|p|..]))
    ensures Get(Replace(t, p, Dir(m, kids)), q) == Get(t, q)
    decreases |p|
  {
    if p != [] && q[0] == p[0] {
      EntryGet(t.kids[p[0]], p[1..], m, kids, q[1..]);
    } else if p == [] {
      assert q[0..] == q;
    }
  }

  lemma {:induction false} GetPath(t: Node, p: Path, q: Path)
    ensures Get(t, p + q) == if Get(t, p).Present? then Get(Get(t, p).node, q) else Missing
    decreases |p|
  {
    if p == [] {
      assert [] + q == q;
    } else if t.Dir? && p[0] in t.kids {
      assert (p + q)[0] == p[0] && (p + q)[1..] == p[1..] + q;
      GetPath(t.kids[p[0]], p[1..], q);
    } else {
      assert (p + q)[0] == p[0];
    }
  }

  lemma GraftRoot(t: Node, m: int, d: Node, c: set<Path>)
    requires t.Dir? && d.Dir?
    ensures Graft(t, d, c).Dir? && Graft(Dir(m, t.kids), d, c) == Dir(m, Graft(t, d, c).kids)
  {
    var u := Dir(m, t.kids);
    forall n
      ensures GraftKid(t, d, c, n) == GraftKid(u, d, c, n)
    {
      if n in d.kids {
        assert KidOrNew(t, d, n) == KidOrNew(u, d, n);
      }
    }
  }
}
