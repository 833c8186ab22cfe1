/** Opening a directory by a path through somebody else's files
    (internal/library/nofollow.go, openAnchored and walkAnchored), against pathname
    resolution as section 4.13 of the Base Definitions of IEEE Std 1003.1-2017 has it.

    A path is the list of what stands between its slashes. */
module Anchored {
  import opened Wrappers

  type Path = seq<string>

  datatype Target = Target(absolute: bool, parts: Path)

  /** A directory, and whether only root can change what it holds; a link; anything else. */
  datatype Entry =
    | Folder(rootOnly: bool, kids: map<string, Entry>)
    | Symlink(target: Target)
    | Other

  const PASSES := 40

  /** The directory at a path that has no link in it. */
  function At(root: Entry, p: Path): Option<Entry>
  {
    if p == [] then (if root.Folder? then Some(root) else None)
    else
      var d := At(root, p[..|p| - 1]);
      var name := p[|p| - 1];
      if d.Some? && name in d.value.kids && d.value.kids[name].Folder? then Some(d.value.kids[name]) else None
  }

  predicate IsDir(root: Entry, p: Path)
  {
    At(root, p).Some?
  }

  lemma AtIsFolder(root: Entry, p: Path)
    ensures IsDir(root, p) ==> At(root, p).value.Folder?
  {
  }

  lemma Below(root: Entry, p: Path, name: string)
    ensures At(root, p + [name])
      == (if IsDir(root, p) && name in At(root, p).value.kids && At(root, p).value.kids[name].Folder?
          then Some(At(root, p).value.kids[name]) else None)
  {
    assert (p + [name])[..|p|] == p;
  }

  function Parent(p: Path): Path
  {
    if p == [] then [] else p[..|p| - 1]
  }

  // ---- Pathname resolution

  /** What is left of the path is resolved in the directory reached: a dot is that directory,
      two are the one above it, a directory is entered, and what a link says goes before the
      rest of the path, from the root if it begins there.  At most `links` are followed, and
      with `anchored` only from directories that only root can write. */
  function Resolve(root: Entry, cur: Path, todo: Path, links: nat, anchored: bool): Option<Path>
    requires IsDir(root, []) && IsDir(root, cur)
    decreases links, |todo|
  {
    if todo == [] then Some(cur)
    else if todo[0] == "" || todo[0] == "." then Resolve(root, cur, todo[1..], links, anchored)
    else if todo[0] == ".." then
      assert IsDir(root, Parent(cur));
      Resolve(root, Parent(cur), todo[1..], links, anchored)
    else
      AtIsFolder(root, cur);
      var d := At(root, cur).value;
      Below(root, cur, todo[0]);
      if todo[0] !in d.kids then None
      else if d.kids[todo[0]].Folder? then Resolve(root, cur + [todo[0]], todo[1..], links, anchored)
      else if d.kids[todo[0]].Other? || links == 0 || (anchored && !d.rootOnly) then None
      else
        var t := d.kids[todo[0]].target;
        Resolve(root, if t.absolute then [] else cur, t.parts + todo[1..], links - 1, anchored)
  }

  // ---- The code

  /** filepath.Clean, of a path that starts at the root or at a clean one. */
  function CleanOnto(base: Path, parts: Path): Path
    decreases |parts|
  {
    if parts == [] then base
    else if parts[0] == "" || parts[0] == "." then CleanOnto(base, parts[1..])
    else if parts[0] == ".." then CleanOnto(Parent(base), parts[1..])
    else CleanOnto(base + [parts[0]], parts[1..])
  }

  /** What one pass comes to: the directory, a path to try next for a link in `dir`, or an
      error. */
  datatype Walked = Reached(dir: Path) | Onward(path: Path, dir: Path) | Refused

  function Walk(root: Entry, cur: Path, todo: Path): Walked
    requires IsDir(root, cur)
    decreases |todo|
  {
    if todo == [] then Reached(cur)
    else
      AtIsFolder(root, cur);
      var d := At(root, cur).value;
      Below(root, cur, todo[0]);
      if todo[0] !in d.kids || d.kids[todo[0]].Other? then Refused
      else if d.kids[todo[0]].Folder? then Walk(root, cur + [todo[0]], todo[1..])
      else if !d.rootOnly then Refused
      else
        var t := d.kids[todo[0]].target;
        Onward(CleanOnto(if t.absolute then [] else cur, t.parts + todo[1..]), cur)
  }

  function Opened(root: Entry, path: Path, passes: nat): Option<Path>
    requires IsDir(root, [])
    decreases passes
  {
    if passes == 0 then None
    else
      match Walk(root, [], path)
      case Reached(dir) => Some(dir)
      case Refused => None
      case Onward(next, _) => Opened(root, next, passes - 1)
  }

  /** walkAnchored: one pass over a clean path, a directory at a time. */
  method WalkAnchored(root: Entry, path: Path) returns (w: Walked)
    requires IsDir(root, [])
    ensures w == Walk(root, [], path)
  {
    var cur: Path := [];
    AtIsFolder(root, []);
    var dir := root;
    var i := 0;
    while i < |path|
      invariant i <= |path| && At(root, cur) == Some(dir) && dir.Folder?
      invariant Walk(root, [], path) == Walk(root, cur, path[i..])
    {
      var part := path[i];
      assert path[i..][0] == part && path[i..][1..] == path[i + 1..];
      Below(root, cur, part);
      if part in dir.kids && dir.kids[part].Folder? {
        dir := dir.kids[part];
        cur := cur + [part];
        i := i + 1;
        continue;
      }
      if part !in dir.kids || dir.kids[part].Other? || !dir.rootOnly {
        return Refused;
      }
      var target := dir.kids[part].target;
      var rest := path[i + 1..];
      if target.absolute {
        return Onward(CleanOnto([], target.parts + rest), cur);
      }
      return Onward(CleanOnto(cur, target.parts + rest), cur);
    }
    return Reached(cur);
  }

  /** openAnchored: pass after pass, no more than forty.  The links it followed all lay in
      directories that only root can write. */
  method OpenAnchored(root: Entry, given: Path) returns (dir: Option<Path>, ghost from: seq<Path>)
    requires IsDir(root, [])
    ensures dir == Opened(root, CleanOnto([], given), PASSES) && PASSES == 40
    ensures |from| <= 40 && forall k :: 0 <= k < |from| ==>
      IsDir(root, from[k]) && At(root, from[k]).value.Folder? && At(root, from[k]).value.rootOnly
  {
    var path := CleanOnto([], given);
    from := [];
    for pass := 0 to PASSES
      invariant |from| == pass
      invariant Opened(root, CleanOnto([], given), PASSES) == Opened(root, path, PASSES - pass)
      invariant forall k :: 0 <= k < |from| ==>
        IsDir(root, from[k]) && At(root, from[k]).value.Folder? && At(root, from[k]).value.rootOnly
    {
      var w := WalkAnchored(root, path);
      if w.Refused? {
        return None, from;
      }
      if w.Reached? {
        return Some(w.dir), from;
      }
      OnwardFrom(root, [], path);
      from := from + [w.dir];
      path := w.path;
    }
    dir := None;
  }

  lemma {:induction false} OnwardFrom(root: Entry, cur: Path, todo: Path)
    requires IsDir(root, cur)
    ensures var w := Walk(root, cur, todo);
      w.Onward? ==> IsDir(root, w.dir) && At(root, w.dir).value.Folder? && At(root, w.dir).value.rootOnly
    decreases |todo|
  {
    if todo != [] {
      AtIsFolder(root, cur);
      Below(root, cur, todo[0]);
      if IsDir(root, cur + [todo[0]]) {
        OnwardFrom(root, cur + [todo[0]], todo[1..]);
      }
    }
  }

  // ---- Lexically is right here

  predicate NoUps(p: Path)
  {
    forall i :: 0 <= i < |p| ==> p[i] != ".."
  }

  predicate IsClean(p: Path)
  {
    forall i :: 0 <= i < |p| ==> p[i] != "" && p[i] != "." && p[i] != ".."
  }

  /** Every `..` comes before every name. */
  predicate UpsFirst(p: Path)
  {
    p == [] || (if p[0] == "" || p[0] == "." || p[0] == ".." then UpsFirst(p[1..]) else NoUps(p[1..]))
  }

  /** So do those of every link there is. */
  ghost predicate LinksUpsFirst(e: Entry)
  {
    match e
    case Folder(_, kids) => forall n :: n in kids ==> LinksUpsFirst(kids[n])
    case Symlink(t) => UpsFirst(t.parts)
    case Other => true
  }

  function Named(p: Path): Path
  {
    if p == [] then [] else (if p[0] == "" || p[0] == "." then [] else [p[0]]) + Named(p[1..])
  }

  lemma {:induction false} CleanNames(base: Path, parts: Path)
    requires NoUps(parts)
    ensures CleanOnto(base, parts) == base + Named(parts)
    decreases |parts|
  {
    if parts != [] {
      assert NoUps(parts[1..]);
      CleanNames(if parts[0] == "" || parts[0] == "." then base else base + [parts[0]], parts[1..]);
    }
  }

  lemma {:induction false} CleanIsClean(base: Path, parts: Path)
    requires IsClean(base)
    ensures IsClean(CleanOnto(base, parts))
    decreases |parts|
  {
    if parts != [] {
      var next := if parts[0] == "" || parts[0] == "." then base
                  else if parts[0] == ".." then Parent(base)
                  else base + [parts[0]];
      CleanIsClean(next, parts[1..]);
    }
  }

  /** Dots and empty parts lead nowhere else. */
  lemma {:induction false} NamedResolves(root: Entry, cur: Path, x: Path, y: Path, links: nat, anchored: bool)
    requires IsDir(root, []) && IsDir(root, cur)
    ensures Resolve(root, cur, x + y, links, anchored) == Resolve(root, cur, x + Named(y), links, anchored)
    decreases links, |x| + |y|
  {
    if x == [] {
      assert x + y == y && x + Named(y) == Named(y);
      if y != [] {
        if y[0] == "" || y[0] == "." {
          NamedResolves(root, cur, [], y[1..], links, anchored);
          assert [] + y[1..] == y[1..] && [] + Named(y[1..]) == Named(y[1..]);
        } else {
          assert [y[0]] + y[1..] == y;
          NamedStep(root, cur, y[0], [], y[1..], links, anchored);
          assert [y[0]] + ([] + y[1..]) == y && [y[0]] + ([] + Named(y[1..])) == Named(y);
        }
      }
    } else {
      NamedStep(root, cur, x[0], x[1..], y, links, anchored);
      assert [x[0]] + (x[1..] + y) == x + y && [x[0]] + (x[1..] + Named(y)) == x + Named(y);
    }
  }

  lemma {:induction false} NamedStep(root: Entry, cur: Path, p: string, x: Path, y: Path, links: nat, anchored: bool)
    requires IsDir(root, []) && IsDir(root, cur)
    ensures Resolve(root, cur, [p] + (x + y), links, anchored)
      == Resolve(root, cur, [p] + (x + Named(y)), links, anchored)
    decreases links, |x| + |y| + 1, 0
  {
    var a, b := [p] + (x + y), [p] + (x + Named(y));
    assert a[1..] == x + y && b[1..] == x + Named(y);
    if p == "" || p == "." {
      NamedResolves(root, cur, x, y, links, anchored);
    } else if p == ".." {
      NamedResolves(root, Parent(cur), x, y, links, anchored);
    } else {
      AtIsFolder(root, cur);
      Below(root, cur, p);
      var d := At(root, cur).value;
      if p in d.kids && d.kids[p].Folder? {
        NamedResolves(root, cur + [p], x, y, links, anchored);
      } else if p in d.kids && d.kids[p].Symlink? && links > 0 {
        var t := d.kids[p].target;
        NamedResolves(root, if t.absolute then [] else cur, t.parts + x, y, links - 1, anchored);
        assert t.parts + (x + y) == (t.parts + x) + y && t.parts + (x + Named(y)) == (t.parts + x) + Named(y);
      }
    }
  }

  /** A path of directories leads to where it says. */
  lemma {:induction false} Enter(root: Entry, base: Path, todo: Path, links: nat, anchored: bool)
    requires IsDir(root, []) && IsDir(root, base) && IsClean(base)
    ensures Resolve(root, [], base + todo, links, anchored) == Resolve(root, base, todo, links, anchored)
    decreases |base|
  {
    if base == [] {
      assert base + todo == todo;
    } else {
      var n := |base| - 1;
      assert IsDir(root, base[..n]);
      Enter(root, base[..n], [base[n]] + todo, links, anchored);
      assert base[..n] + ([base[n]] + todo) == base + todo;
      assert base[..n] + [base[n]] == base && ([base[n]] + todo)[1..] == todo;
      AtIsFolder(root, base[..n]);
      Below(root, base[..n], base[n]);
    }
  }

  /** From a directory that no link led to, a path whose `..` come first means what it says. */
  lemma {:induction false} CleanResolves(root: Entry, base: Path, parts: Path, links: nat, anchored: bool)
    requires IsDir(root, []) && IsDir(root, base) && IsClean(base) && UpsFirst(parts)
    ensures Resolve(root, [], CleanOnto(base, parts), links, anchored) == Resolve(root, base, parts, links, anchored)
    decreases |parts|
  {
    if parts == [] {
      Enter(root, base, [], links, anchored);
      assert base + [] == base;
    } else if parts[0] == "" || parts[0] == "." {
      CleanResolves(root, base, parts[1..], links, anchored);
    } else if parts[0] == ".." {
      CleanResolves(root, Parent(base), parts[1..], links, anchored);
    } else {
      assert NoUps(parts);
      CleanNames(base, parts);
      Enter(root, base, Named(parts), links, anchored);
      NamedResolves(root, base, [], parts, links, anchored);
      assert [] + parts == parts && [] + Named(parts) == Named(parts);
    }
  }

  lemma {:induction false} LinkAt(root: Entry, cur: Path, name: string)
    requires LinksUpsFirst(root) && IsDir(root, cur) && At(root, cur).value.Folder? && name in At(root, cur).value.kids
    ensures LinksUpsFirst(At(root, cur).value.kids[name])
    decreases |cur|
  {
    if cur != [] {
      AtIsFolder(root, cur[..|cur| - 1]);
      LinkAt(root, cur[..|cur| - 1], cur[|cur| - 1]);
    }
  }

  lemma {:induction false} UpsFirstThenClean(a: Path, b: Path)
    requires UpsFirst(a) && IsClean(b)
    ensures UpsFirst(a + b)
    decreases |a|
  {
    if a == [] {
      assert a + b == b;
      if b != [] {
        assert NoUps(b[1..]);
      }
    } else {
      assert (a + b)[1..] == a[1..] + b;
      if a[0] == "" || a[0] == "." || a[0] == ".." {
        UpsFirstThenClean(a[1..], b);
      }
    }
  }

  /** One pass is resolution up to the first link. */
  lemma {:induction false} WalkResolves(root: Entry, cur: Path, todo: Path, links: nat)
    requires IsDir(root, []) && IsDir(root, cur) && IsClean(cur) && IsClean(todo) && LinksUpsFirst(root)
    ensures Resolve(root, cur, todo, links, true) ==
      match Walk(root, cur, todo)
      case Reached(dir) => Some(dir)
      case Refused => None
      case Onward(next, _) => if links == 0 then None else Resolve(root, [], next, links - 1, true)
    ensures var w := Walk(root, cur, todo); w.Onward? ==> IsClean(w.path)
    decreases |todo|
  {
    if todo != [] {
      AtIsFolder(root, cur);
      Below(root, cur, todo[0]);
      var d := At(root, cur).value;
      if todo[0] in d.kids && d.kids[todo[0]].Folder? {
        WalkResolves(root, cur + [todo[0]], todo[1..], links);
      } else if todo[0] in d.kids && d.kids[todo[0]].Symlink? {
        var t := d.kids[todo[0]].target;
        var base := if t.absolute then [] else cur;
        LinkAt(root, cur, todo[0]);
        UpsFirstThenClean(t.parts, todo[1..]);
        CleanIsClean(base, t.parts + todo[1..]);
        if links > 0 {
          CleanResolves(root, base, t.parts + todo[1..], links - 1, true);
        }
      }
    }
  }

  lemma {:induction false} OpenedResolves(root: Entry, path: Path, passes: nat)
    requires IsDir(root, []) && IsClean(path) && LinksUpsFirst(root) && passes > 0
    ensures Opened(root, path, passes) == Resolve(root, [], path, passes - 1, true)
    decreases passes
  {
    WalkResolves(root, [], path, passes - 1);
    var w := Walk(root, [], path);
    if w.Onward? && passes > 1 {
      OpenedResolves(root, w.path, passes - 1);
    }
  }

  /** What is reached through anchored links only is what is reached. */
  lemma {:induction false} AnchoredIsPlain(root: Entry, cur: Path, todo: Path, links: nat)
    requires IsDir(root, []) && IsDir(root, cur) && Resolve(root, cur, todo, links, true).Some?
    ensures Resolve(root, cur, todo, links, false) == Resolve(root, cur, todo, links, true)
    decreases links, |todo|
  {
    if todo != [] {
      if todo[0] == "" || todo[0] == "." {
        AnchoredIsPlain(root, cur, todo[1..], links);
      } else if todo[0] == ".." {
        AnchoredIsPlain(root, Parent(cur), todo[1..], links);
      } else {
        AtIsFolder(root, cur);
        Below(root, cur, todo[0]);
        var d := At(root, cur).value;
        if d.kids[todo[0]].Folder? {
          AnchoredIsPlain(root, cur + [todo[0]], todo[1..], links);
        } else {
          var t := d.kids[todo[0]].target;
          AnchoredIsPlain(root, if t.absolute then [] else cur, t.parts + todo[1..], links - 1);
        }
      }
    }
  }

  /** For a path without `..`, and links whose `..` come first: openAnchored opens exactly
      what pathname resolution reaches over at most 39 links, all of them in directories that
      only root can write; and then that is what resolution without that rule reaches. */
  lemma OpensWhatResolves(root: Entry, given: Path)
    requires IsDir(root, []) && LinksUpsFirst(root) && NoUps(given)
    ensures Opened(root, CleanOnto([], given), PASSES) == Resolve(root, [], given, PASSES - 1, true)
    ensures Opened(root, CleanOnto([], given), PASSES).Some?
      ==> Opened(root, CleanOnto([], given), PASSES) == Resolve(root, [], given, PASSES - 1, false)
  {
    NoUpsFirst(given);
    CleanIsClean([], given);
    OpenedResolves(root, CleanOnto([], given), PASSES);
    CleanResolves(root, [], given, PASSES - 1, true);
    if Resolve(root, [], given, PASSES - 1, true).Some? {
      AnchoredIsPlain(root, [], given, PASSES - 1);
    }
  }

  lemma {:induction false} NoUpsFirst(p: Path)
    requires NoUps(p)
    ensures UpsFirst(p)
  {
    if p != [] {
      assert NoUps(p[1..]);
      NoUpsFirst(p[1..]);
    }
  }

  // ---- And where it is not

  function Ups(n: nat): Path
  {
    if n == 0 then [] else [".."] + Ups(n - 1)
  }

  /** The directory so many above this one. */
  function UpBy(p: Path, n: nat): Path
  {
    if n == 0 then p else UpBy(Parent(p), n - 1)
  }

  lemma {:induction false} UpByIsDir(root: Entry, p: Path, n: nat)
    requires IsDir(root, []) && IsDir(root, p) && IsClean(p)
    ensures IsDir(root, UpBy(p, n)) && IsClean(UpBy(p, n))
  {
    if n > 0 {
      UpByIsDir(root, Parent(p), n - 1);
    }
  }

  lemma {:induction false} UpsResolve(root: Entry, p: Path, n: nat, rest: Path, links: nat, anchored: bool)
    requires IsDir(root, []) && IsDir(root, p) && IsDir(root, UpBy(p, n))
    ensures Resolve(root, p, Ups(n) + rest, links, anchored) == Resolve(root, UpBy(p, n), rest, links, anchored)
    decreases n
  {
    if n == 0 {
      assert Ups(n) + rest == rest;
    } else {
      assert (Ups(n) + rest)[1..] == Ups(n - 1) + rest;
      UpsResolve(root, Parent(p), n - 1, rest, links, anchored);
    }
  }

  lemma {:induction false} UpsClean(base: Path, n: nat, rest: Path)
    ensures CleanOnto(base, Ups(n) + rest) == CleanOnto(UpBy(base, n), rest)
    decreases n
  {
    if n == 0 {
      assert Ups(n) + rest == rest;
    } else {
      assert (Ups(n) + rest)[1..] == Ups(n - 1) + rest;
      UpsClean(Parent(base), n - 1, rest);
    }
  }

  lemma {:induction false} CleanPrefix(base: Path, q: Path, rest: Path)
    requires IsClean(q)
    ensures CleanOnto(base, q + rest) == CleanOnto(base + q, rest)
    decreases |q|
  {
    if q == [] {
      assert base + q == base && q + rest == rest;
    } else {
      assert (q + rest)[1..] == q[1..] + rest && base + q == (base + [q[0]]) + q[1..];
      CleanPrefix(base + [q[0]], q[1..], rest);
    }
  }

  /** Where a link leads whose target is the clean path of a directory. */
  function Destination(q: Path, t: Target): Path
  {
    if t.absolute then t.parts else q + t.parts
  }

  ghost predicate LinksTo(root: Entry, q: Path, l: string, t: Target)
  {
    && IsDir(root, []) && IsDir(root, q) && IsClean(q) && At(root, q).value.Folder? && At(root, q).value.rootOnly
    && l in At(root, q).value.kids && At(root, q).value.kids[l] == Symlink(t)
    && IsClean([l]) && IsClean(t.parts) && IsDir(root, Destination(q, t))
  }

  /** Cleaning takes the link away with the first `..`. */
  lemma LinkIsCleaned(q: Path, l: string, n: nat, rest: Path)
    requires IsClean(q) && IsClean([l]) && n > 0
    ensures CleanOnto([], q + [l] + Ups(n) + rest) == CleanOnto(UpBy(q, n - 1), rest)
  {
    assert [l][0] == l;
    assert q + [l] + Ups(n) + rest == (q + [l]) + (Ups(n) + rest) && [] + (q + [l]) == q + [l];
    CleanPrefix([], q + [l], Ups(n) + rest);
    UpsClean(q + [l], n, rest);
    assert Parent(q + [l]) == q;
  }

  lemma OneLink(root: Entry, q: Path, l: string, t: Target, todo: Path, links: nat, anchored: bool)
    requires LinksTo(root, q, l, t) && links > 0
    ensures var base := if t.absolute then [] else q;
      Resolve(root, q, [l] + todo, links, anchored) == Resolve(root, base, t.parts + todo, links - 1, anchored)
  {
    assert [l][0] == l;
    assert ([l] + todo)[0] == l && ([l] + todo)[1..] == todo;
  }

  lemma TargetEntered(root: Entry, base: Path, to: Path, all: Path, more: Path, todo: Path, links: nat, anchored: bool)
    requires IsDir(root, []) && IsDir(root, base) && IsClean(base) && IsDir(root, to) && IsClean(to)
    requires base + more == all == to + todo
    ensures Resolve(root, base, more, links, anchored) == Resolve(root, to, todo, links, anchored)
  {
    Enter(root, base, more, links, anchored);
    Enter(root, to, todo, links, anchored);
  }

  /** Resolution goes on from where the link leads. */
  lemma LinkIsFollowed(root: Entry, q: Path, l: string, t: Target, todo: Path, links: nat, anchored: bool)
    requires LinksTo(root, q, l, t) && links > 0
    ensures Resolve(root, [], q + [l] + todo, links, anchored)
      == Resolve(root, Destination(q, t), todo, links - 1, anchored)
  {
    var to := Destination(q, t);
    Joins(q, l, t, todo);
    OneLink(root, q, l, t, todo, links, anchored);
    TargetEntered(root, if t.absolute then [] else q, to, to + todo, t.parts + todo, todo, links - 1, anchored);
    Enter(root, q, [l] + todo, links, anchored);
  }

  lemma Joins(q: Path, l: string, t: Target, todo: Path)
    ensures (if t.absolute then [] else q) + (t.parts + todo) == Destination(q, t) + todo
    ensures q + ([l] + todo) == q + [l] + todo
  {
  }

  /** With `..` behind a link this fails: the path is cleaned as text before anything is
      opened.  Behind any directory, a link in it and any number of `..`, what is opened is
      found from the directories above the link, and what is meant from those above the
      directory it leads to. */
  lemma UpsBehindALink(root: Entry, q: Path, l: string, t: Target, n: nat, rest: Path)
    requires LinksTo(root, q, l, t) && LinksUpsFirst(root) && n > 0 && NoUps(rest)
    ensures IsDir(root, UpBy(q, n - 1)) && IsDir(root, UpBy(Destination(q, t), n))
    ensures var given := q + [l] + Ups(n) + rest;
      && Opened(root, CleanOnto([], given), PASSES) == Resolve(root, UpBy(q, n - 1), rest, PASSES - 1, true)
      && Resolve(root, [], given, PASSES - 1, true) == Resolve(root, UpBy(Destination(q, t), n), rest, PASSES - 2, true)
  {
    UpsOpened(root, q, l, n, rest);
    UpsFollowed(root, q, l, t, n, rest, true);
  }

  lemma UpsOpened(root: Entry, q: Path, l: string, n: nat, rest: Path)
    requires IsDir(root, []) && IsDir(root, q) && IsClean(q) && IsClean([l]) && n > 0
    requires LinksUpsFirst(root) && NoUps(rest)
    ensures IsDir(root, UpBy(q, n - 1))
    ensures Opened(root, CleanOnto([], q + [l] + Ups(n) + rest), PASSES)
      == Resolve(root, UpBy(q, n - 1), rest, PASSES - 1, true)
  {
    UpByIsDir(root, q, n - 1);
    LinkIsCleaned(q, l, n, rest);
    OpensFrom(root, UpBy(q, n - 1), rest, PASSES);
  }

  lemma OpensFrom(root: Entry, base: Path, rest: Path, passes: nat)
    requires IsDir(root, []) && IsDir(root, base) && IsClean(base) && LinksUpsFirst(root) && NoUps(rest) && passes > 0
    ensures Opened(root, CleanOnto(base, rest), passes) == Resolve(root, base, rest, passes - 1, true)
  {
    NoUpsFirst(rest);
    CleanIsClean(base, rest);
    OpenedResolves(root, CleanOnto(base, rest), passes);
    CleanResolves(root, base, rest, passes - 1, true);
  }

  lemma UpsFollowed(root: Entry, q: Path, l: string, t: Target, n: nat, rest: Path, anchored: bool)
    requires LinksTo(root, q, l, t)
    ensures IsDir(root, UpBy(Destination(q, t), n))
    ensures Resolve(root, [], q + [l] + Ups(n) + rest, PASSES - 1, anchored)
      == Resolve(root, UpBy(Destination(q, t), n), rest, PASSES - 2, anchored)
  {
    var to := Destination(q, t);
    UpByIsDir(root, to, n);
    assert q + [l] + Ups(n) + rest == q + [l] + (Ups(n) + rest);
    LinkIsFollowed(root, q, l, t, Ups(n) + rest, PASSES - 1, anchored);
    UpsResolve(root, to, n, rest, PASSES - 2, anchored);
  }

  /** Where nothing follows the `..`, the directory that is opened is the one that is meant
      exactly when these two are one. */
  lemma UpsAreTakenAsText(root: Entry, q: Path, l: string, t: Target, n: nat, anchored: bool)
    requires LinksTo(root, q, l, t) && n > 0
    ensures var given := q + [l] + Ups(n);
      && Opened(root, CleanOnto([], given), PASSES) == Some(UpBy(q, n - 1))
      && Resolve(root, [], given, PASSES - 1, anchored) == Some(UpBy(Destination(q, t), n))
      && (Opened(root, CleanOnto([], given), PASSES) == Resolve(root, [], given, PASSES - 1, anchored) <==>
            UpBy(q, n - 1) == UpBy(Destination(q, t), n))
  {
    var above := UpBy(q, n - 1);
    assert q + [l] + Ups(n) + [] == q + [l] + Ups(n);
    LinkIsCleaned(q, l, n, []);
    UpByIsDir(root, q, n - 1);
    OpensAtOnce(root, above, PASSES);
    UpsFollowed(root, q, l, t, n, [], anchored);
  }

  lemma OpensAtOnce(root: Entry, p: Path, passes: nat)
    requires IsDir(root, []) && IsDir(root, p) && passes > 0
    ensures Opened(root, p, passes) == Some(p)
  {
    assert [] + p == p;
    WalkEnters(root, [], p);
  }

  lemma {:induction false} WalkEnters(root: Entry, cur: Path, todo: Path)
    requires IsDir(root, cur) && IsDir(root, cur + todo)
    ensures Walk(root, cur, todo) == Reached(cur + todo)
    decreases |todo|
  {
    if todo == [] {
      assert cur + todo == cur;
    } else {
      assert cur + [todo[0]] + todo[1..] == cur + todo;
      OnTheWay(root, cur + [todo[0]], todo[1..]);
      Below(root, cur, todo[0]);
      WalkEnters(root, cur + [todo[0]], todo[1..]);
    }
  }

  lemma {:induction false} OnTheWay(root: Entry, p: Path, rest: Path)
    requires IsDir(root, p + rest)
    ensures IsDir(root, p)
    decreases |rest|
  {
    if rest == [] {
      assert p + rest == p;
    } else {
      var n := |rest| - 1;
      assert (p + rest)[..|p + rest| - 1] == p + rest[..n];
      OnTheWay(root, p, rest[..n]);
    }
  }

  /** Not to be had by another name: /l leads two down, /l/.. is opened as the root. */
  lemma UpsGoElsewhere() returns (root: Entry, q: Path, l: string, t: Target)
    ensures LinksTo(root, q, l, t)
    ensures Opened(root, CleanOnto([], q + [l] + Ups(1)), PASSES)
      != Resolve(root, [], q + [l] + Ups(1), PASSES - 1, true)
  {
    var a := Folder(true, map["b" := Folder(true, map[])]);
    q, l, t := [], "l", Target(true, ["a", "b"]);
    root := Folder(true, map["a" := a, "l" := Symlink(t)]);
    Below(root, [], "a");
    Below(root, ["a"], "b");
    assert [] + ["a"] == ["a"] && ["a"] + ["b"] == ["a", "b"];
    UpsAreTakenAsText(root, q, l, t, 1, true);
    assert Parent(["a", "b"]) == ["a"];
    assert UpBy(["a"], 0) == ["a"] && UpBy(["a", "b"], 1) == UpBy(["a"], 0);
  }
}
