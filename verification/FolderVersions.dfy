/** What the version of a folder says of the files in it (internal/library/folder.go). */
module FolderVersions {
  import opened FileTree
  import opened SeatPrivate

  /** It is there, and is not the seat's nor lies in anything that is. */
  predicate Counts(t: Node, inDrive: bool, p: Path)
  {
    Get(t, p).Present? && forall k :: 0 < k <= |p| ==> !IsUsers(t, inDrive, p[..k])
  }

  lemma CountsBelow(t: Node, inDrive: bool, n: string, q: Path)
    requires t.Dir? && n in t.kids
    ensures Counts(t, inDrive, [n] + q) <==> !IsSeatPrivate(t, inDrive, n) && Counts(t.kids[n], IsDrive(t, n), q)
  {
    var p := [n] + q;
    assert p[1..] == q && p[..1] == [n];
    UsersHere(t, inDrive, n);
    forall k | 0 < k <= |q|
      ensures IsUsers(t, inDrive, p[..k + 1]) <==> IsUsers(t.kids[n], IsDrive(t, n), q[..k])
    {
      assert p[..k + 1] == [n] + q[..k];
      UsersBelow(t, inDrive, n, q[..k]);
    }
    if !IsSeatPrivate(t, inDrive, n) && Counts(t.kids[n], IsDrive(t, n), q) {
      forall k | 0 < k <= |p|
        ensures !IsUsers(t, inDrive, p[..k])
      {
        if k > 1 {
          var j := k - 1;
          assert IsUsers(t, inDrive, p[..j + 1]) <==> IsUsers(t.kids[n], IsDrive(t, n), q[..j]);
        }
      }
    }
  }

  /** The time of a sum is the latest of its parts. */
  lemma {:induction false} SumNewest(d: Node, names: set<string>)
    requires d.Dir? && names <= d.kids.Keys
    ensures d.mtime <= Sum(d, names).newest && forall n :: n in names ==>
      Total(d.kids[n]).newest <= Sum(d, names).newest
    ensures d.mtime == Sum(d, names).newest || exists n :: n in names && Total(d.kids[n]).newest == Sum(d, names).newest
    decreases |names|
  {
    if names != {} {
      var m := Pick(names);
      SumNewest(d, names - {m});
      forall n | n in names
        ensures Total(d.kids[n]).newest <= Sum(d, names).newest
      {
        assert n != m ==> n in names - {m};
      }
    }
  }

  /** The newest time is the latest of anything that counts, the folder itself among it. */
  lemma {:induction false} NewestIs(t: Node, inDrive: bool) returns (last: Path)
    ensures forall p :: Counts(t, inDrive, p) ==> Get(t, p).node.mtime <= Measure(t, inDrive).newest
    ensures Counts(t, inDrive, last) && Get(t, last).node.mtime == Measure(t, inDrive).newest
    decreases t
  {
    last := [];
    if t.Dir? {
      var seen := Seen(t, inDrive);
      SumNewest(seen, seen.kids.Keys);
      forall p | Counts(t, inDrive, p)
        ensures Get(t, p).node.mtime <= Measure(t, inDrive).newest
      {
        if p != [] {
          var n, q := p[0], p[1..];
          assert p == [n] + q && n in t.kids;
          CountsBelow(t, inDrive, n, q);
          var _ := NewestIs(t.kids[n], IsDrive(t, n));
          assert n in seen.kids;
        }
      }
      if t.mtime != Measure(t, inDrive).newest {
        var n :| n in seen.kids && Total(seen.kids[n]).newest == Measure(t, inDrive).newest;
        var q := NewestIs(t.kids[n], IsDrive(t, n));
        CountsBelow(t, inDrive, n, q);
        last := [n] + q;
        assert last[1..] == q;
      }
    }
  }

  /** The bytes of some entries of a directory, one after the other. */
  ghost function BytesOf(t: Node, inDrive: bool, names: seq<string>): nat
    requires t.Dir? && forall n :: n in names ==> n in t.kids
  {
    if names == [] then 0
    else Measure(t.kids[names[0]], IsDrive(t, names[0])).bytes + BytesOf(t, inDrive, names[1..])
  }

  lemma {:induction false} SumBytes(t: Node, inDrive: bool, names: seq<string>, rest: set<string>)
    requires t.Dir? && (forall n :: n in names ==> n in t.kids && !IsSeatPrivate(t, inDrive, n))
    requires (forall n :: n in names <==> n in rest) && forall i, j :: 0 <= i < j < |names| ==> names[i] != names[j]
    ensures rest <= Seen(t, inDrive).kids.Keys && Sum(Seen(t, inDrive), rest).bytes == BytesOf(t, inDrive, names)
    decreases |names|
  {
    if names == [] {
      assert rest == {};
    } else {
      var n := names[0];
      assert n in names && n !in names[1..] by {
        assert forall j :: 0 < j < |names| ==> names[j] != names[0];
      }
      forall m
        ensures m in names[1..] <==> m in rest - {n}
      {
        assert m in names <==> m == n || m in names[1..];
      }
      SumBytes(t, inDrive, names[1..], rest - {n});
      SumTakes(Seen(t, inDrive), rest, n);
    }
  }

  /** The bytes are those of the files: a file has its own, a directory those of everything
      in it that is not the seat's, and nothing else has any. */
  lemma BytesAre(t: Node, inDrive: bool, names: seq<string>)
    requires t.Dir? ==> forall n :: n in names <==> n in t.kids && !IsSeatPrivate(t, inDrive, n)
    requires forall i, j :: 0 <= i < j < |names| ==> names[i] != names[j]
    ensures t.File? ==> Measure(t, inDrive).bytes == |t.data|
    ensures t.Link? || t.Special? ==> Measure(t, inDrive).bytes == 0
    ensures t.Dir? ==> Measure(t, inDrive).bytes == BytesOf(t, inDrive, names)
  {
    if t.Dir? {
      SumBytes(t, inDrive, names, Seen(t, inDrive).kids.Keys);
    }
  }
}
