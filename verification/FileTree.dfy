/** The file system as the shared library sees it: trees of named entries with
    modification times, the line between what a shared folder is and what belongs
    to the seat holding it, and the measure that stands in for a version.

    Models internal/library/private.go and internal/library/folder.go.  A directory
    is a map from names to entries, so the order in which names are read is open. */
module FileTree {

  type Path = seq<string>

  type Byte = b: int | 0 <= b < 256

  datatype Node =
    | Dir(mtime: int, kids: map<string, Node>)
    | File(mtime: int, data: seq<Byte>)
    | Link(mtime: int, target: string)
    | Special(mtime: int)

  predicate IsDirAt(d: Node, name: string)
  {
    d.Dir? && name in d.kids && d.kids[name].Dir?
  }

  /** A wine prefix is a drive_c with a registry beside it. */
  predicate IsWinePrefix(d: Node)
  {
    && IsDirAt(d, "drive_c")
    && ("system.reg" in d.kids || "user.reg" in d.kids)
  }

  /** Whether the entry called `name` of `d` is the drive of a wine prefix. */
  predicate IsDrive(d: Node, name: string)
  {
    name == "drive_c" && IsWinePrefix(d)
  }

  /** Whether entry `name` of `d` belongs to the seat.  `inDrive` says that `d` itself
      is the drive of a wine prefix, which depends on the directory holding `d`. */
  predicate IsSeatPrivate(d: Node, inDrive: bool, name: string)
  {
    inDrive && name == "users" && IsDirAt(d, name)
  }

  /** The relative paths of the seat private directories of a tree. */
  ghost function PrivateDirs(d: Node, inDrive: bool): set<Path>
    decreases d
  {
    if !d.Dir? then {} else
    set n, q | n in d.kids && q in PrivateUnder(d, inDrive, n) :: [n] + q
  }

  ghost function PrivateUnder(d: Node, inDrive: bool, n: string): set<Path>
    requires d.Dir? && n in d.kids
    decreases d, 0
  {
    if IsSeatPrivate(d, inDrive, n) then {[]} else PrivateDirs(d.kids[n], IsDrive(d, n))
  }

  /** The entry at a relative path, links not followed. */
  datatype Found = Missing | Present(node: Node)

  function Get(d: Node, p: Path): Found
    decreases |p|
  {
    if p == [] then Present(d)
    else if d.Dir? && p[0] in d.kids then Get(d.kids[p[0]], p[1..])
    else Missing
  }

  /** The paths of a set that start with `n`, with that first part taken off. */
  ghost function Sub(c: set<Path>, n: string): set<Path>
  {
    set p | p in c && |p| > 1 && p[0] == n :: p[1..]
  }

  /** The tree with every entry named by a path in `c` left out. */
  ghost function Without(d: Node, c: set<Path>): Node
    decreases d
  {
    match d
    case Dir(m, kids) => Dir(m, map n | n in kids && [n] !in c :: Without(kids[n], Sub(c, n)))
    case _ => d
  }

  // ---------------------------------------------------------------- measuring

  /** The newest time and the number of bytes in a tree: what stands in for a version. */
  datatype Version = Version(newest: int, bytes: nat)

  function Join(a: Version, b: Version): Version
  {
    Version(if a.newest >= b.newest then a.newest else b.newest, a.bytes + b.bytes)
  }

  /** What one entry contributes by itself. */
  function Own(t: Node): Version
  {
    Version(t.mtime, if t.File? then |t.data| else 0)
  }

  /** The newest time and the byte count over every entry of a tree. */
  ghost function Total(t: Node): Version
    decreases t, 1
  {
    if t.Dir? then Sum(t, t.kids.Keys) else Own(t)
  }

  ghost function Sum(d: Node, names: set<string>): Version
    requires d.Dir? && names <= d.kids.Keys
    decreases d, 0, |names|
  {
    if names == {} then Own(d) else
    var n := Pick(names);
    Join(Total(d.kids[n]), Sum(d, names - {n}))
  }

  ghost function Pick(names: set<string>): string
    requires names != {}
    ensures Pick(names) in names
  {
    var n :| n in names; n
  }

  /** The order in which a sum is taken does not matter. */
  lemma {:induction false} SumTakes(d: Node, names: set<string>, n: string)
    requires d.Dir? && names <= d.kids.Keys && n in names
    ensures Sum(d, names) == Join(Total(d.kids[n]), Sum(d, names - {n}))
    decreases |names|
  {
    var m := Pick(names);
    if m != n {
      SumTakes(d, names - {m}, n);
      SumTakes(d, names - {n}, m);
      assert names - {m} - {n} == names - {n} - {m};
    }
  }

  /** The part of a tree that is the folder and not the seat's. */
  ghost function Seen(t: Node, inDrive: bool): Node
    decreases t
  {
    match t
    case Dir(m, kids) =>
      Dir(m, map n | n in kids && !IsSeatPrivate(t, inDrive, n) :: Seen(kids[n], IsDrive(t, n)))
    case _ => t
  }

  ghost function Measure(t: Node, inDrive: bool): Version
  {
    Total(Seen(t, inDrive))
  }

  /** Newer and Settled of a folder's version. */
  predicate NewerVersion(a: Version, b: Version)
  {
    a.newest > b.newest || (a.newest == b.newest && a.bytes > b.bytes)
  }

  predicate Settled(v: Version, now: int, quiet: int)
  {
    now - v.newest >= quiet
  }

  /** The names of a directory, in whatever order the file system gives them. */
  method ReadNames(d: Node) returns (names: seq<string>)
    requires d.Dir?
    ensures forall n :: n in names <==> n in d.kids
    ensures forall i, j :: 0 <= i < j < |names| ==> names[i] != names[j]
  {
    names := [];
    var rest := d.kids.Keys;
    while rest != {}
      invariant rest <= d.kids.Keys
      invariant forall n :: n in names <==> n in d.kids && n !in rest
      invariant forall i, j :: 0 <= i < j < |names| ==> names[i] != names[j]
    {
      var n :| n in rest;
      names := names + [n];
      rest := rest - {n};
    }
  }

  /** measureAt: the version of a tree found as `name` in the directory `parent`. */
  method MeasureAt(parent: Node, name: string) returns (folder: Version)
    requires IsDirAt(parent, name)
    ensures folder == Measure(parent.kids[name], IsDrive(parent, name))
  {
    var root := parent.kids[name];
    folder := Version(root.mtime, 0);
    folder := MeasureTree(parent, root, name, folder);
    TotalCoversOwn(Seen(root, IsDrive(parent, name)));
  }

  /** The walk of measureTree: adds everything below `dir` that is not the seat's to the
      running newest time and byte count. */
  method MeasureTree(up: Node, dir: Node, dirName: string, folder: Version) returns (r: Version)
    requires dir.Dir? && folder.newest >= dir.mtime
    ensures r == Join(folder, Measure(dir, IsDrive(up, dirName)))
    decreases dir
  {
    ghost var inDrive := IsDrive(up, dirName);
    ghost var seen := Seen(dir, inDrive);
    ghost var done: set<string> := {};
    var names := ReadNames(dir);
    r := folder;
    for i := 0 to |names|
      invariant forall n :: n in done <==> n in seen.kids && n in names[..i]
      invariant r.newest >= folder.newest
      invariant r == Join(folder, Sum(seen, done))
    {
      var name := names[i];
      var st := dir.kids[name];
      if !(st.Dir? && dirName == "drive_c" && name == "users" && IsWinePrefix(up)) {
        ghost var before := r;
        if st.mtime > r.newest {
          r := Version(st.mtime, r.bytes);
        }
        if st.File? {
          r := Version(r.newest, r.bytes + |st.data|);
        }
        if st.Dir? {
          r := MeasureTree(dir, st, name, r);
        }
        SumStep(dir, inDrive, done, name, folder, before, r);
        done := done + {name};
      }
    }
    assert done == seen.kids.Keys;
  }

  lemma SumStep(dir: Node, inDrive: bool, done: set<string>, name: string, folder: Version, before: Version, r: Version)
    requires dir.Dir? && done <= Seen(dir, inDrive).kids.Keys
    requires name in dir.kids && !IsSeatPrivate(dir, inDrive, name) && name !in done
    requires before == Join(folder, Sum(Seen(dir, inDrive), done))
    requires var st := dir.kids[name];
      r == if st.Dir? then Join(Join(before, Own(st)), Measure(st, IsDrive(dir, name))) else Join(before, Own(st))
    ensures r == Join(folder, Sum(Seen(dir, inDrive), done + {name}))
  {
    var seen := Seen(dir, inDrive);
    assert seen.kids[name] == Seen(dir.kids[name], IsDrive(dir, name));
    TotalCoversOwn(seen.kids[name]);
    SumTakes(seen, done + {name}, name);
    assert done + {name} - {name} == done;
  }

  lemma TotalCoversOwn(t: Node)
    ensures Total(t).newest >= t.mtime
  {
    if t.Dir? {
      SumCoversOwn(t, t.kids.Keys);
    }
  }

  lemma {:induction false} SumCoversOwn(d: Node, names: set<string>)
    requires d.Dir? && names <= d.kids.Keys
    ensures Sum(d, names).newest >= d.mtime
    decreases |names|
  {
    if names != {} {
      SumCoversOwn(d, names - {Pick(names)});
    }
  }
}
