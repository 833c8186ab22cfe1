/** A copy measures as its source: what the sync's fixpoint rests on.  Exactly when the
    directories carried into the copy fall in places the source itself leaves to the seat
    (internal/library/clone.go and internal/library/folder.go together). */
module CloneMeasure {
  import opened FileTree
  import opened SeatPrivate
  import opened TreeEdits

  /** A directory put at `p` in `t` is the seat's: `t` has a wine prefix there, and what it
      has under that name, if anything, is a directory. */
  ghost predicate Lands(t: Node, inDrive: bool, p: Path)
    decreases |p|
  {
    && t.Dir? && p != []
    && if |p| == 1 then inDrive && p[0] == "users" && (p[0] in t.kids ==> t.kids[p[0]].Dir?)
       else IsDirAt(t, p[0]) && !IsSeatPrivate(t, inDrive, p[0]) && Lands(t.kids[p[0]], IsDrive(t, p[0]), p[1..])
  }

  ghost predicate AllLand(t: Node, inDrive: bool, c: set<Path>)
  {
    forall p :: p in c ==> Lands(t, inDrive, p)
  }

  /** Every path of the set leads to a directory. */
  ghost predicate AllDirs(d: Node, c: set<Path>)
  {
    forall p :: p in c ==> DirAt(d, p)
  }

  /** The swapped tree. */
  ghost function Over(s: Node, d: Node, c: set<Path>): Node
  {
    Graft(Without(s, c), d, c)
  }

  lemma OverKid(s: Node, d: Node, c: set<Path>, inDrive: bool, n: string)
    requires s.Dir? && Apart(c) && AllDirs(d, c) && AllLand(s, inDrive, c) && c != {}
    ensures d.Dir? && Over(s, d, c).Dir? && Over(s, d, c).mtime == s.mtime
    ensures AllLandBelow(s, inDrive, c, n)
    ensures var kids := Over(s, d, c).kids;
      if [n] in c then inDrive && n == "users" && n in kids && kids[n].Dir? && (n in s.kids ==> s.kids[n].Dir?)
      else if Sub(c, n) != {} then
        && IsDirAt(s, n) && IsDirAt(d, n) && !IsSeatPrivate(s, inDrive, n)
        && n in kids && kids[n] == Over(s.kids[n], d.kids[n], Sub(c, n))
      else if n in s.kids then n in kids && kids[n] == s.kids[n]
      else n !in kids
  {
    var some :| some in c;
    assert DirAt(d, some) && some != [];
    SubApart(c, n);
    GraftHas(Without(s, c), d, c, n);
    if [n] in c {
      assert Lands(s, inDrive, [n]) && DirAt(d, [n]);
      GetHead(d, n, []);
      assert [n] + [] == [n];
    } else if Sub(c, n) != {} {
      var q :| q in Sub(c, n);
      assert Lands(s, inDrive, [n] + q) && ([n] + q)[1..] == q;
      assert DirAt(d, [n] + q);
      GetHead(d, n, q);
    } else if n in s.kids {
      WithoutNone(s.kids[n]);
    }
    forall q | q in Sub(c, n)
      ensures n in s.kids && Lands(s.kids[n], IsDrive(s, n), q)
      ensures IsDirAt(d, n) && DirAt(d.kids[n], q)
    {
      assert Lands(s, inDrive, [n] + q) && ([n] + q)[1..] == q;
      assert DirAt(d, [n] + q);
      GetHead(d, n, q);
    }
  }

  ghost predicate AllLandBelow(s: Node, inDrive: bool, c: set<Path>, n: string)
  {
    Sub(c, n) != {} ==> s.Dir? && n in s.kids && AllLand(s.kids[n], IsDrive(s, n), Sub(c, n))
  }

  lemma AllDirsBelow(d: Node, c: set<Path>, n: string)
    requires Apart(c) && AllDirs(d, c) && IsDirAt(d, n)
    ensures AllDirs(d.kids[n], Sub(c, n))
  {
    SubApart(c, n);
    forall q | q in Sub(c, n)
      ensures DirAt(d.kids[n], q)
    {
      assert DirAt(d, [n] + q);
      GetHead(d, n, q);
    }
  }

  /** The same entries are wine prefixes and the seat's before and after the swap. */
  lemma SamePlaces(s: Node, d: Node, c: set<Path>, inDrive: bool, n: string)
    requires s.Dir? && Apart(c) && AllDirs(d, c) && AllLand(s, inDrive, c) && c != {}
    ensures var r := Over(s, d, c);
      && r.Dir?
      && (IsDrive(r, n) <==> IsDrive(s, n))
      && (IsSeatPrivate(r, inDrive, n) <==> IsSeatPrivate(s, inDrive, n) || [n] in c)
      && (n in r.kids <==> n in s.kids || [n] in c)
  {
    OverKid(s, d, c, inDrive, n);
    OverKid(s, d, c, inDrive, "drive_c");
    OverKid(s, d, c, inDrive, "system.reg");
    OverKid(s, d, c, inDrive, "user.reg");
  }

  /** Everything that lands: the copy is seen as its source, and what was carried stays the
      seat's. */
  lemma {:induction false} LandedIsSeen(s: Node, d: Node, c: set<Path>, inDrive: bool)
    requires Apart(c) && AllDirs(d, c) && AllLand(s, inDrive, c)
    ensures Seen(Over(s, d, c), inDrive) == Seen(s, inDrive)
    ensures PrivateDirs(Over(s, d, c), inDrive) == PrivateDirs(s, inDrive) + c
    decreases s, 1
  {
    if c == {} {
      WithoutNone(s);
      GraftNone(s, d);
    } else {
      var some :| some in c;
      assert Lands(s, inDrive, some);
      forall n
        ensures KidLanded(s, d, c, inDrive, n)
      {
        LandedKid(s, d, c, inDrive, n);
      }
      LandedNode(s, d, c, inDrive);
      forall p
        ensures p in PrivateDirs(Over(s, d, c), inDrive) <==> p in PrivateDirs(s, inDrive) + c
      {
        LandedAt(s, d, c, inDrive, p);
      }
    }
  }

  /** An entry that is seen is seen alike in both, and holds the same private directories
      and those carried below it. */
  ghost predicate KidLanded(s: Node, d: Node, c: set<Path>, inDrive: bool, n: string)
    requires s.Dir?
  {
    var r := Over(s, d, c);
    && r.Dir?
    && (n in r.kids && !IsSeatPrivate(r, inDrive, n) <==> n in s.kids && !IsSeatPrivate(s, inDrive, n) && [n] !in c)
    && (n in s.kids && !IsSeatPrivate(s, inDrive, n) ==> [n] !in c)
    && (n in r.kids && !IsSeatPrivate(r, inDrive, n) ==>
          && Seen(r.kids[n], IsDrive(r, n)) == Seen(s.kids[n], IsDrive(s, n))
          && PrivateDirs(r.kids[n], IsDrive(r, n)) == PrivateDirs(s.kids[n], IsDrive(s, n)) + Sub(c, n))
  }

  lemma {:induction false} LandedKid(s: Node, d: Node, c: set<Path>, inDrive: bool, n: string)
    requires s.Dir? && Apart(c) && AllDirs(d, c) && AllLand(s, inDrive, c) && c != {}
    ensures KidLanded(s, d, c, inDrive, n)
    decreases s, 0
  {
    SamePlaces(s, d, c, inDrive, n);
    OverKid(s, d, c, inDrive, n);
    SubApart(c, n);
    if [n] !in c && Sub(c, n) != {} {
      AllDirsBelow(d, c, n);
      LandedIsSeen(s.kids[n], d.kids[n], Sub(c, n), IsDrive(s, n));
    }
  }

  lemma LandedNode(s: Node, d: Node, c: set<Path>, inDrive: bool)
    requires s.Dir? && Over(s, d, c).Dir? && Over(s, d, c).mtime == s.mtime
    requires forall n :: KidLanded(s, d, c, inDrive, n)
    ensures Seen(Over(s, d, c), inDrive) == Seen(s, inDrive)
  {
    var a, b := Seen(Over(s, d, c), inDrive).kids, Seen(s, inDrive).kids;
    forall n
      ensures n in a <==> n in b
      ensures n in a ==> a[n] == b[n]
    {
      assert KidLanded(s, d, c, inDrive, n);
    }
  }

  lemma LandedAt(s: Node, d: Node, c: set<Path>, inDrive: bool, p: Path)
    requires s.Dir? && Apart(c) && AllDirs(d, c) && AllLand(s, inDrive, c) && c != {}
    requires forall n :: KidLanded(s, d, c, inDrive, n)
    ensures p in PrivateDirs(Over(s, d, c), inDrive) <==> p in PrivateDirs(s, inDrive) || p in c
  {
    var r := Over(s, d, c);
    InPrivateDirs(r, inDrive, p);
    InPrivateDirs(s, inDrive, p);
    if p != [] {
      var n := p[0];
      assert p == [n] + p[1..];
      assert KidLanded(s, d, c, inDrive, n);
      SamePlaces(s, d, c, inDrive, n);
      SubApart(c, n);
      assert p in c <==> (p == [n] && [n] in c) || p[1..] in Sub(c, n);
      if |p| == 1 {
        assert p[1..] == [];
        if n in s.kids {
          InPrivateDirs(s.kids[n], IsDrive(s, n), []);
        }
        if n in r.kids {
          InPrivateDirs(r.kids[n], IsDrive(r, n), []);
        }
      }
      if [n] in c {
        assert Sub(c, n) == {};
      }
      if Sub(c, n) != {} {
        OverKid(s, d, c, inDrive, n);
      }
    }
  }

  lemma SeenDrive(r: Node, s: Node, inDrive: bool, n: string)
    requires Seen(r, inDrive) == Seen(s, inDrive)
    ensures IsDrive(r, n) <==> IsDrive(s, n)
  {
    if r.Dir? {
      assert forall m :: m != "users" ==> (m in r.kids <==> m in Seen(r, inDrive).kids);
      assert forall m :: m != "users" ==> (m in s.kids <==> m in Seen(s, inDrive).kids);
    }
  }

  /** A directory that is the seat's in a tree lands in every tree seen alike. */
  lemma {:induction false} SeenLands(r: Node, s: Node, inDrive: bool, p: Path)
    requires Seen(r, inDrive) == Seen(s, inDrive) && p in PrivateDirs(r, inDrive)
    ensures Lands(s, inDrive, p)
    decreases |p|
  {
    InPrivateDirs(r, inDrive, p);
    var n := p[0];
    SeenDrive(r, s, inDrive, n);
    if IsSeatPrivate(r, inDrive, n) {
      assert p[1..] == [];
      assert n !in Seen(r, inDrive).kids;
    } else {
      assert n in Seen(s, inDrive).kids && Seen(r, inDrive).kids[n] == Seen(s, inDrive).kids[n];
      PrivateDirsAreDirs(r.kids[n], IsDrive(r, n), p[1..]);
      assert r.kids[n].Dir?;
      SeenLands(r.kids[n], s.kids[n], IsDrive(s, n), p[1..]);
    }
  }

  lemma {:induction false} LandsAlike(r: Node, s: Node, inDrive: bool, p: Path)
    requires Seen(r, inDrive) == Seen(s, inDrive) && Lands(s, inDrive, p)
    ensures Lands(r, inDrive, p)
    decreases |p|
  {
    var n := p[0];
    SeenDrive(r, s, inDrive, n);
    if |p| == 1 {
      assert n in Seen(r, inDrive).kids <==> n in Seen(s, inDrive).kids;
      assert n in s.kids ==> n !in Seen(s, inDrive).kids;
    } else {
      assert n in Seen(s, inDrive).kids && Seen(r, inDrive).kids[n] == Seen(s, inDrive).kids[n];
      LandsAlike(r.kids[n], s.kids[n], IsDrive(s, n), p[1..]);
    }
  }

  /** A clone over a copy with saves is seen as its source, with the saves still the
      seat's, exactly when every one of them lands in the source. */
  lemma CloneIsSeenIff(s: Node, d: Node, inDrive: bool)
    ensures var c := PrivateDirs(d, inDrive);
      AllLand(s, inDrive, c) <==>
        (Seen(Over(s, d, c), inDrive) == Seen(s, inDrive) && c <= PrivateDirs(Over(s, d, c), inDrive))
  {
    var c := PrivateDirs(d, inDrive);
    PrivateDirsApart(d, inDrive);
    forall p | p in c
      ensures DirAt(d, p)
    {
      PrivateDirsAreDirs(d, inDrive, p);
    }
    if AllLand(s, inDrive, c) {
      LandedIsSeen(s, d, c, inDrive);
    }
    if Seen(Over(s, d, c), inDrive) == Seen(s, inDrive) && c <= PrivateDirs(Over(s, d, c), inDrive) {
      forall p | p in c
        ensures Lands(s, inDrive, p)
      {
        SeenLands(Over(s, d, c), s, inDrive, p);
      }
    }
  }

  /** A copy of one game with its wine prefixes where `places` says. */
  ghost predicate Shaped(t: Node, places: set<Path>)
  {
    t.Dir? && PrivateDirs(t, false) <= places && AllLand(t, false, places)
  }

  lemma UntimedNode(d: Node, x: Node, inDrive: bool, n: string)
    requires Untimed(x) == Untimed(d)
    ensures x.Dir? <==> d.Dir?
    ensures d.Dir? ==>
      && (n in x.kids <==> n in d.kids) && (n in d.kids ==> Untimed(x.kids[n]) == Untimed(d.kids[n]))
      && (IsDirAt(x, n) <==> IsDirAt(d, n))
      && (IsDrive(x, n) <==> IsDrive(d, n)) && (IsSeatPrivate(x, inDrive, n) <==> IsSeatPrivate(d, inDrive, n))
  {
    if d.Dir? {
      var a, b := Untimed(x).kids, Untimed(d).kids;
      forall k
        ensures k in x.kids <==> k in d.kids
        ensures k in d.kids ==> Untimed(x.kids[k]) == Untimed(d.kids[k]) && (x.kids[k].Dir? <==> d.kids[k].Dir?)
      {
        assert k in x.kids <==> k in a;
        assert k in d.kids <==> k in b;
        if k in d.kids {
          assert a[k] == b[k];
        }
      }
    }
  }

  /** Times do not matter to what is the seat's, nor to where it may land. */
  lemma {:induction false} UntimedPlace(d: Node, x: Node, inDrive: bool, p: Path)
    requires Untimed(x) == Untimed(d)
    ensures p in PrivateDirs(x, inDrive) <==> p in PrivateDirs(d, inDrive)
    ensures Lands(x, inDrive, p) <==> Lands(d, inDrive, p)
    decreases |p|
  {
    UntimedNode(d, x, inDrive, if p == [] then "" else p[0]);
    InPrivateDirs(d, inDrive, p);
    InPrivateDirs(x, inDrive, p);
    if p != [] && d.Dir? && p[0] in d.kids {
      UntimedPlace(d.kids[p[0]], x.kids[p[0]], IsDrive(d, p[0]), p[1..]);
    }
  }

  lemma UntimedShaped(d: Node, x: Node, places: set<Path>)
    requires Untimed(x) == Untimed(d) && Shaped(d, places)
    ensures Shaped(x, places)
  {
    forall p
      ensures p in PrivateDirs(x, false) <==> p in PrivateDirs(d, false)
      ensures Lands(x, false, p) <==> Lands(d, false, p)
    {
      UntimedPlace(d, x, false, p);
    }
    UntimedNode(d, x, false, "");
  }

  /** Among copies of one game, a clone measures exactly as its source, whatever saves it
      carries, and is such a copy itself. */
  lemma CloneMeasures(s: Node, d: Node, places: set<Path>)
    requires Shaped(s, places) && Shaped(d, places)
    ensures var r := Over(s, d, PrivateDirs(d, false));
      Shaped(r, places) && Measure(r, false) == Measure(s, false)
  {
    var c := PrivateDirs(d, false);
    PrivateDirsApart(d, false);
    forall p | p in c
      ensures DirAt(d, p)
    {
      PrivateDirsAreDirs(d, false, p);
    }
    LandedIsSeen(s, d, c, false);
    var r := Over(s, d, c);
    forall p | p in places
      ensures Lands(r, false, p)
    {
      LandsAlike(r, s, false, p);
    }
    assert Seen(r, false).Dir?;
  }
}
