/** What an edit at one offset of the text is as an edit of the tree the text says. */
module SteamTrees {
  import opened Wrappers
  import opened Vdf
  import opened VdfEdits
  import opened VdfPrint
  import opened Text
  import opened SteamPlay

  // ---- The tree edit

  function TreeKeys(ts: seq<Tree>): (r: seq<string>)
    ensures |r| == |ts| && forall i :: 0 <= i < |ts| ==> r[i] == ts[i].key
  {
    seq(|ts|, i requires 0 <= i < |ts| => ts[i].key)
  }

  /** What Steam writes beside a choice of tool made for everything. */
  function Beside(key: string): seq<Tree>
  {
    if key == GLOBAL then [Leaf("config", ""), Leaf("priority", "75")] else []
  }

  /** A setting with the blocks it lives under. */
  function New(path: seq<string>, value: string): Tree
    requires path != []
  {
    if |path| == 1 then Leaf(path[0], value)
    else Branch(path[0], [New(path[1..], value)] + Beside(path[0]))
  }

  /** The tree with a setting: what is there of the path is followed, the first of several
      blocks of one name; what is not is put first where the path ends; and nothing else
      changes. */
  function With(ts: seq<Tree>, path: seq<string>, value: string): seq<Tree>
    requires path != []
    decreases |path|
  {
    var i := Find(TreeKeys(ts), path[0]);
    if i == |ts| then [New(path, value)] + ts
    else if |path| == 1 then ts[i := Leaf(ts[i].key, value)]
    else if ts[i].Branch? then ts[i := Branch(ts[i].key, With(ts[i].kids, path[1..], value))]
    else ts
  }

  /** What of the path is there is of the right kind: blocks, and a value at its end. */
  predicate Fits(ts: seq<Tree>, path: seq<string>)
    requires path != []
    decreases |path|
  {
    var i := Find(TreeKeys(ts), path[0]);
    i < |ts| ==> if |path| == 1 then ts[i].Leaf? else ts[i].Branch? && Fits(ts[i].kids, path[1..])
  }

  /** The way along these keys is there, every one but the last a block. */
  predicate Has(ts: seq<Tree>, keys: seq<string>)
    requires keys != []
    decreases |keys|
  {
    var i := Find(TreeKeys(ts), keys[0]);
    i < |ts| && (|keys| == 1 || (ts[i].Branch? && Has(ts[i].kids, keys[1..])))
  }

  /** The value at the end of a path. */
  function Lookup(ts: seq<Tree>, path: seq<string>): Option<string>
    requires path != []
    decreases |path|
  {
    var i := Find(TreeKeys(ts), path[0]);
    if i == |ts| then None
    else if |path| == 1 then (if ts[i].Leaf? then Some(ts[i].value) else None)
    else if ts[i].Branch? then Lookup(ts[i].kids, path[1..]) else None
  }

  lemma FindAt(keys: seq<string>, key: string, i: nat)
    requires i < |keys| && EqualFold(keys[i], key) && forall j :: 0 <= j < i ==> !EqualFold(keys[j], key)
    ensures Find(keys, key) == i
  {
  }

  lemma FindNone(keys: seq<string>, key: string)
    requires forall j :: 0 <= j < |keys| ==> !EqualFold(keys[j], key)
    ensures Find(keys, key) == |keys|
  {
  }

  lemma {:induction false} NewHas(path: seq<string>, value: string)
    requires path != []
    ensures Lookup([New(path, value)], path) == Some(value) && Fits([New(path, value)], path)
    decreases |path|
  {
    FindAt(TreeKeys([New(path, value)]), path[0], 0);
    if |path| > 1 {
      NewHas(path[1..], value);
      FirstFound(New(path[1..], value), Beside(path[0]), path[1..]);
    }
  }

  /** What stands first is what is found. */
  lemma FirstFound(t: Tree, ts: seq<Tree>, path: seq<string>)
    requires path != [] && EqualFold(t.key, path[0])
    ensures Lookup([t] + ts, path) == Lookup([t], path) && Fits([t] + ts, path) == Fits([t], path)
  {
    FindAt(TreeKeys([t] + ts), path[0], 0);
    FindAt(TreeKeys([t]), path[0], 0);
  }

  /** The setting is there afterwards, and still fits. */
  lemma {:induction false} WithHas(ts: seq<Tree>, path: seq<string>, value: string)
    requires path != [] && Fits(ts, path)
    ensures Lookup(With(ts, path, value), path) == Some(value) && Fits(With(ts, path, value), path)
    decreases |path|
  {
    var i := Find(TreeKeys(ts), path[0]);
    var r := With(ts, path, value);
    if i == |ts| {
      NewHas(path, value);
      FirstFound(New(path, value), ts, path);
    } else {
      assert TreeKeys(r) == TreeKeys(ts);
      if |path| > 1 {
        WithHas(ts[i].kids, path[1..], value);
      }
    }
  }

  /** The way to a setting stays there. */
  lemma {:induction false} WithStillHas(ts: seq<Tree>, keys: seq<string>, rest: seq<string>, value: string)
    requires keys != [] && rest != [] && Has(ts, keys)
    ensures Has(With(ts, keys + rest, value), keys)
    decreases |keys|
  {
    var i := Find(TreeKeys(ts), keys[0]);
    assert TreeKeys(With(ts, keys + rest, value)) == TreeKeys(ts);
    if |keys| > 1 {
      assert (keys + rest)[1..] == keys[1..] + rest;
      WithStillHas(ts[i].kids, keys[1..], rest, value);
    }
  }

  /** No key is found for both. */
  predicate Differ(a: string, b: string)
  {
    |a| != |b| || exists i :: 0 <= i < |a| && Fold(a[i]) != Fold(b[i])
  }

  /** A setting put in one place leaves what another path leads to as it was. */
  lemma WithKeeps(ts: seq<Tree>, path: seq<string>, value: string, other: seq<string>)
    requires path != [] && other != [] && Differ(path[0], other[0])
    ensures Lookup(With(ts, path, value), other) == Lookup(ts, other)
    ensures Fits(With(ts, path, value), other) == Fits(ts, other)
    ensures Has(With(ts, path, value), other) == Has(ts, other)
  {
    var i := Find(TreeKeys(ts), path[0]);
    if i == |ts| {
      NotFirst(New(path, value), ts, other);
    } else {
      OneKept(ts, i, With(ts, path, value)[i], other);
    }
  }

  /** One that a path does not lead to can stand first. */
  lemma NotFirst(t: Tree, ts: seq<Tree>, other: seq<string>)
    requires other != [] && !EqualFold(t.key, other[0])
    ensures Lookup([t] + ts, other) == Lookup(ts, other) && Fits([t] + ts, other) == Fits(ts, other)
    ensures Has([t] + ts, other) == Has(ts, other)
  {
    var r := [t] + ts;
    var j := Find(TreeKeys(ts), other[0]);
    assert forall k :: 0 < k < |r| ==> TreeKeys(r)[k] == TreeKeys(ts)[k - 1];
    if j == |ts| {
      FindNone(TreeKeys(r), other[0]);
    } else {
      FindAt(TreeKeys(r), other[0], j + 1);
    }
  }

  /** One that a path does not lead to can be any other of its name. */
  lemma OneKept(ts: seq<Tree>, i: nat, t: Tree, other: seq<string>)
    requires other != [] && i < |ts| && t.key == ts[i].key && !EqualFold(t.key, other[0])
    ensures Lookup(ts[i := t], other) == Lookup(ts, other) && Fits(ts[i := t], other) == Fits(ts, other)
    ensures Has(ts[i := t], other) == Has(ts, other)
  {
    assert TreeKeys(ts[i := t]) == TreeKeys(ts);
  }

  /** The same for two settings under one block that is there. */
  lemma WithKeepsUnder(ts: seq<Tree>, path: seq<string>, value: string, other: seq<string>)
    requires |path| > 1 && |other| > 1 && path[0] == other[0] && Differ(path[1], other[1])
    requires Find(TreeKeys(ts), path[0]) < |ts|
    ensures Lookup(With(ts, path, value), other) == Lookup(ts, other)
    ensures Fits(With(ts, path, value), other) == Fits(ts, other)
    ensures Has(With(ts, path, value), other) == Has(ts, other)
    ensures Find(TreeKeys(With(ts, path, value)), path[0]) == Find(TreeKeys(ts), path[0]) < |With(ts, path, value)|
  {
    var i := Find(TreeKeys(ts), path[0]);
    assert TreeKeys(With(ts, path, value)) == TreeKeys(ts);
    if ts[i].Branch? {
      WithKeeps(ts[i].kids, path[1..], value, other[1..]);
    }
  }

  // ---- The edit of the text, as an edit of the nodes read from it

  lemma {:induction false} PlacesWithin(ns: seq<Node>, i: nat) returns (o: nat)
    requires i < |ns|
    ensures o == |PlacesAll(ns[..i])| && o + |Places(ns[i])| <= |PlacesAll(ns)|
    ensures PlacesAll(ns)[o..o + |Places(ns[i])|] == Places(ns[i])
    decreases |ns|
  {
    var init := ns[..|ns| - 1];
    if i == |ns| - 1 {
      o := |PlacesAll(init)|;
    } else {
      o := PlacesWithin(init, i);
      assert init[..i] == ns[..i];
      assert init[i] == ns[i];
    }
  }

  lemma PlaceWithin(ns: seq<Node>, i: nat, p: nat)
    requires i < |ns| && p in Places(ns[i])
    ensures p in PlacesAll(ns)
  {
    var o := PlacesWithin(ns, i);
    assert p in PlacesAll(ns)[o..o + |Places(ns[i])|];
  }

  lemma SliceRises(p: seq<nat>, from: nat, end: nat)
    requires Rising(p) && from <= end <= |p|
    ensures Rising(p[from..end])
  {
  }

  /** Where in all the places a place of one node is. */
  lemma PlaceAt(ns: seq<Node>, i: nat, p: nat) returns (a: nat)
    requires i < |ns| && p in Places(ns[i])
    ensures |PlacesAll(ns[..i])| <= a < |PlacesAll(ns[..i])| + |Places(ns[i])|
    ensures a < |PlacesAll(ns)| && PlacesAll(ns)[a] == p
  {
    var o := PlacesWithin(ns, i);
    var s := Places(ns[i]);
    var k :| 0 <= k < |s| && s[k] == p;
    a := o + k;
    assert PlacesAll(ns)[o..o + |s|][k] == PlacesAll(ns)[a];
  }

  /** Of several nodes in order, every place in one lies before every place in a later. */
  lemma PlacesOrdered(ns: seq<Node>, i: nat, j: nat, p: nat, q: nat)
    requires i < j < |ns| && Rising(PlacesAll(ns)) && p in Places(ns[i]) && q in Places(ns[j])
    ensures p < q
  {
    var a := PlaceAt(ns, i, p);
    var b := PlaceAt(ns, j, q);
    LaterPlaces(ns, i, j);
  }

  /** An offset that belongs to one node belongs to no other. */
  lemma PlacesApart(ns: seq<Node>, i: nat, j: nat, p: nat)
    requires i < |ns| && j < |ns| && i != j && Rising(PlacesAll(ns)) && p in Places(ns[i])
    ensures p !in Places(ns[j])
  {
    if p in Places(ns[j]) {
      if i < j {
        PlacesOrdered(ns, i, j, p, p);
      } else {
        PlacesOrdered(ns, j, i, p, p);
      }
    }
  }

  lemma {:induction false} LaterPlaces(ns: seq<Node>, i: nat, j: nat)
    requires i < j <= |ns|
    ensures |PlacesAll(ns[..i])| + |Places(ns[i])| <= |PlacesAll(ns[..j])|
    decreases j
  {
    assert ns[..j][..j - 1] == ns[..j - 1];
    if i < j - 1 {
      LaterPlaces(ns, i, j - 1);
    }
  }

  lemma {:induction false} Elsewhere(n: Node, e: Edit)
    requires e.from !in Places(n)
    ensures Erase(EditNode(n, e)) == Erase(n)
    decreases n, 1
  {
    if n.Block? {
      assert forall p :: p in PlacesAll(n.kids) ==> p in Places(n);
      assert n.afterBrace == Places(n)[1];
      ElsewhereAll(n.kids, e);
      assert [] + EditAll(n.kids, e) == EditAll(n.kids, e);
    } else {
      assert n.valueEnd == Places(n)[2];
    }
  }

  lemma {:induction false} ElsewhereAll(ns: seq<Node>, e: Edit)
    requires e.from !in PlacesAll(ns)
    ensures EraseAll(EditAll(ns, e)) == EraseAll(ns)
    decreases ns, 0
  {
    forall i | 0 <= i < |ns| ensures Erase(EditNode(ns[i], e)) == Erase(ns[i]) {
      if e.from in Places(ns[i]) {
        PlaceWithin(ns, i, e.from);
      }
      Elsewhere(ns[i], e);
    }
    var r := EditAll(ns, e);
    assert forall i :: 0 <= i < |ns| ==> EraseAll(r)[i] == Erase(r[i]) == EraseAll(ns)[i];
  }

  /** Where an edit that belongs to one node of several leaves the rest. */
  lemma Inside(ns: seq<Node>, i: nat, e: Edit)
    requires i < |ns| && e.from in Places(ns[i]) && Rising(PlacesAll(ns))
    ensures EraseAll(EditAll(ns, e)) == EraseAll(ns)[i := Erase(EditNode(ns[i], e))]
  {
    var r := EditAll(ns, e);
    forall j | 0 <= j < |ns| && j != i ensures Erase(r[j]) == Erase(ns[j]) {
      PlacesApart(ns, i, j, e.from);
      Elsewhere(ns[j], e);
    }
    var w := EraseAll(ns)[i := Erase(EditNode(ns[i], e))];
    assert forall j :: 0 <= j < |ns| ==> EraseAll(r)[j] == Erase(r[j]) == w[j];
  }

  lemma AfterFirst(p: seq<nat>, k: nat)
    requires Rising(p) && k < |p|
    ensures Rising(p[k + 1..]) && p[k] !in p[k + 1..]
  {
  }

  lemma KidsRise(ns: seq<Node>, i: nat)
    requires i < |ns| && Rising(PlacesAll(ns)) && ns[i].Block?
    ensures Rising(PlacesAll(ns[i].kids)) && ns[i].afterBrace !in PlacesAll(ns[i].kids)
  {
    var o := PlacesWithin(ns, i);
    SliceRises(PlacesAll(ns), o, o + |Places(ns[i])|);
    AfterFirst(Places(ns[i]), 1);
    assert Places(ns[i])[2..] == PlacesAll(ns[i].kids);
  }

  /** The node where the way along a path ends, and what of the path is left. */
  function Stop(ns: seq<Node>, path: seq<string>): (r: (Node, seq<string>))
    requires path != [] && Find(Keys(ns), path[0]) < |ns|
    ensures |r.1| < |path|
    decreases |path|
  {
    var n := ns[Find(Keys(ns), path[0])];
    if |path| == 1 || Find(Keys(Children(n)), path[1]) == |Children(n)| then (n, path[1..])
    else Stop(Children(n), path[1..])
  }

  /** The edit is at the node where the way ends: the rest of the path first in the block,
      or the value in place of the old one. */
  predicate Aimed(n: Node, rest: seq<string>, e: Edit, value: string)
  {
    if rest != [] then n.Block? && n.afterBrace == e.from && EraseAll(e.added) == [New(rest, value)]
    else n.Pair? && n.valueEnd == e.from && e.value == value
  }

  lemma KeysErase(ns: seq<Node>)
    ensures TreeKeys(EraseAll(ns)) == Keys(ns)
  {
  }

  /** The edit at the node where the way ends is the edit of the tree along the way. */
  lemma {:induction false} AimedMeans(ns: seq<Node>, path: seq<string>, e: Edit, value: string)
    requires path != [] && Find(Keys(ns), path[0]) < |ns| && Rising(PlacesAll(ns))
    requires Fits(EraseAll(ns), path)
    requires var (n, rest) := Stop(ns, path); Aimed(n, rest, e, value)
    ensures EraseAll(EditAll(ns, e)) == With(EraseAll(ns), path, value)
    ensures e.from in PlacesAll(ns)
    decreases |path|
  {
    KeysErase(ns);
    var i := Find(Keys(ns), path[0]);
    var n := ns[i];
    if |path| == 1 {
      assert Places(n)[2] == e.from;
    } else {
      KidsRise(ns, i);
      if Find(Keys(n.kids), path[1]) == |n.kids| {
        AimedHere(n, path, e, value);
      } else {
        KeysErase(n.kids);
        AimedMeans(n.kids, path[1..], e, value);
        AimedBelow(n, e);
      }
    }
    PlaceWithin(ns, i, e.from);
    Inside(ns, i, e);
  }

  lemma AimedBelow(n: Node, e: Edit)
    requires n.Block? && e.from in PlacesAll(n.kids) && n.afterBrace != e.from
    ensures e.from in Places(n) && Erase(EditNode(n, e)) == Branch(n.key, EraseAll(EditAll(n.kids, e)))
  {
    assert [] + EditAll(n.kids, e) == EditAll(n.kids, e);
  }

  lemma AimedHere(n: Node, path: seq<string>, e: Edit, value: string)
    requires n.Block? && |path| > 1 && Find(Keys(n.kids), path[1]) == |n.kids|
    requires Aimed(n, path[1..], e, value) && n.afterBrace !in PlacesAll(n.kids)
    ensures e.from in Places(n)
    ensures Erase(EditNode(n, e)) == Branch(n.key, With(EraseAll(n.kids), path[1..], value))
  {
    KeysErase(n.kids);
    assert Places(n)[1] == e.from;
    ElsewhereAll(n.kids, e);
    EraseJoin(e.added, EditAll(n.kids, e));
  }

  lemma EraseJoin(a: seq<Node>, b: seq<Node>)
    ensures EraseAll(a + b) == EraseAll(a) + EraseAll(b)
  {
    var r := EraseAll(a + b);
    assert forall i :: 0 <= i < |a + b| ==> r[i] == Erase((a + b)[i]) == (EraseAll(a) + EraseAll(b))[i];
  }
}
