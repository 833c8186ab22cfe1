/** Files whose blocks each start a line stay such files under the edits of SteamSettings. */
module SteamTidy {
  import opened Wrappers
  import opened Vdf
  import opened VdfEdits
  import opened VdfPrint
  import opened SteamPlay
  import opened SteamTrees
  import opened SteamSettings

  /** Only blanks stand before `at` on its line. */
  predicate FirstOnLine(text: string, at: nat)
    requires at <= |text|
  {
    at == 0 || text[at - 1] == '\n' || (IsBlank(text[at - 1]) && FirstOnLine(text, at - 1))
  }

  lemma BlankToo(s: string, c: char)
    ensures AllBlank(s + [c]) <==> AllBlank(s) && IsBlank(c)
  {
    assert (s + [c])[|s|] == c;
    assert forall i :: 0 <= i < |s| ==> (s + [c])[i] == s[i];
  }

  lemma {:induction false} FirstIsBlank(text: string, at: nat)
    requires at <= |text|
    ensures FirstOnLine(text, at) <==> AllBlank(IndentBefore(text, at))
  {
    if at > 0 && text[at - 1] != '\n' {
      FirstIsBlank(text, at - 1);
      assert IndentBefore(text, at) == IndentBefore(text, at - 1) + [text[at - 1]];
      BlankToo(IndentBefore(text, at - 1), text[at - 1]);
    }
  }

  lemma {:induction false} FirstInFront(text: string, other: string, at: nat)
    requires at <= |text| && at <= |other| && text[..at] == other[..at]
    ensures FirstOnLine(text, at) == FirstOnLine(other, at)
  {
    if at > 0 {
      assert text[at - 1] == text[..at][at - 1] == other[..at][at - 1];
      assert text[..at - 1] == text[..at][..at - 1];
      assert other[..at - 1] == other[..at][..at - 1];
      FirstInFront(text, other, at - 1);
    }
  }

  /** Behind something that is no blank, a line is its own. */
  lemma {:induction false} FirstBehind(text: string, from: nat, other: string, to: nat, at: nat)
    requires 0 < from <= at <= |text| && to <= |other| && text[from..] == other[to..]
    requires !IsBlank(text[from - 1]) && FirstOnLine(text, at)
    ensures FirstOnLine(other, at - from + to)
  {
    if at > from {
      assert text[at - 1] == text[from..][at - 1 - from] == other[to..][at - 1 - from];
      if text[at - 1] != '\n' {
        FirstBehind(text, from, other, to, at - 1);
      }
    }
  }

  /** Every block's key is the first thing on its line. */
  ghost predicate TidyNode(text: string, n: Node)
  {
    n.Block? ==> n.at <= |text| && FirstOnLine(text, n.at) && Tidy(text, n.kids)
  }

  ghost predicate Tidy(text: string, ns: seq<Node>)
  {
    forall n :: n in ns ==> TidyNode(text, n)
  }

  lemma {:induction false} TidyStop(text: string, ns: seq<Node>, path: seq<string>)
    requires path != [] && Find(Keys(ns), path[0]) < |ns| && Tidy(text, ns)
    ensures TidyNode(text, Stop(ns, path).0)
    decreases |path|
  {
    var n := ns[Find(Keys(ns), path[0])];
    assert n in ns;
    if |path| > 1 && Find(Keys(Children(n)), path[1]) < |Children(n)| {
      TidyStop(text, Children(n), path[1..]);
    }
  }

  // ---- Through an edit

  /** No block's key starts in the text the edit takes away. */
  ghost predicate Clear(n: Node, front: nat, from: nat)
  {
    n.Block? ==> (n.at < front || n.at >= from) && forall k :: k in n.kids ==> Clear(k, front, from)
  }

  lemma {:induction false} ClearWhole(n: Node, front: nat, from: nat, before: bool)
    requires forall p :: p in Places(n) ==> if before then p <= front else p > from
    ensures Clear(n, front, from)
    decreases n
  {
    if n.Block? {
      assert n.at + 1 == Places(n)[0] && n.at + 1 in Places(n);
      forall k | k in n.kids ensures Clear(k, front, from) {
        var i :| 0 <= i < |n.kids| && n.kids[i] == k;
        forall p | p in Places(k) ensures p in Places(n) {
          PlaceWithin(n.kids, i, p);
        }
        ClearWhole(k, front, from, before);
      }
    }
  }

  /** No other node has a block's key between two places of one. */
  lemma ClearBeside(ns: seq<Node>, i: nat, j: nat, front: nat, from: nat)
    requires i < |ns| && j < |ns| && i != j && Rising(PlacesAll(ns))
    requires front + 1 in Places(ns[i]) && from in Places(ns[i])
    ensures Clear(ns[j], front, from)
  {
    forall p | p in Places(ns[j]) ensures if j < i then p <= front else p > from {
      if j < i {
        PlacesOrdered(ns, j, i, p, front + 1);
      } else {
        PlacesOrdered(ns, i, j, from, p);
      }
    }
    ClearWhole(ns[j], front, from, j < i);
  }

  /** These two places are in these nodes, and no block's key is between them. */
  ghost predicate Apart(ns: seq<Node>, front: nat, from: nat)
  {
    front + 1 in PlacesAll(ns) && from in PlacesAll(ns) && forall k :: k in ns ==> Clear(k, front, from)
  }

  /** The value where a way ends has no block's key inside it. */
  lemma {:induction false} ClearStop(ns: seq<Node>, path: seq<string>)
    requires path != [] && Find(Keys(ns), path[0]) < |ns| && Rising(PlacesAll(ns))
    requires Stop(ns, path).0.Pair?
    ensures var n := Stop(ns, path).0; Apart(ns, n.valueStart, n.valueEnd)
    decreases |path|
  {
    var i := Find(Keys(ns), path[0]);
    if ns[i].Pair? {
      ClearHere(ns, i);
    } else {
      KidsRise(ns, i);
      var n := StopBelow(ns, path);
      ClearStop(ns[i].kids, path[1..]);
      ClearOver(ns, i, n.valueStart, n.valueEnd);
    }
  }

  lemma ClearHere(ns: seq<Node>, i: nat)
    requires i < |ns| && Rising(PlacesAll(ns)) && ns[i].Pair?
    ensures Apart(ns, ns[i].valueStart, ns[i].valueEnd)
  {
    ClearPair(ns[i]);
    ClearFrom(ns, i, ns[i].valueStart, ns[i].valueEnd);
  }

  lemma ClearOver(ns: seq<Node>, i: nat, front: nat, from: nat)
    requires i < |ns| && Rising(PlacesAll(ns)) && ns[i].Block? && Apart(ns[i].kids, front, from)
    ensures Apart(ns, front, from)
  {
    ClearOwner(ns, i, front, from);
    ClearFrom(ns, i, front, from);
  }

  lemma StopBelow(ns: seq<Node>, path: seq<string>) returns (n: Node)
    requires path != [] && Find(Keys(ns), path[0]) < |ns| && ns[Find(Keys(ns), path[0])].Block?
    requires Stop(ns, path).0.Pair?
    ensures n == Stop(ns, path).0
    ensures var kids := ns[Find(Keys(ns), path[0])].kids;
      |path| > 1 && Find(Keys(kids), path[1]) < |kids| && Stop(kids, path[1..]).0 == n
  {
    n := Stop(ns, path).0;
  }

  /** Two places inside one of the nodes, which is clear of them. */
  lemma ClearFrom(ns: seq<Node>, i: nat, front: nat, from: nat)
    requires i < |ns| && Rising(PlacesAll(ns)) && front + 1 in Places(ns[i]) && from in Places(ns[i])
    requires Clear(ns[i], front, from)
    ensures Apart(ns, front, from)
  {
    PlaceWithin(ns, i, front + 1);
    PlaceWithin(ns, i, from);
    ClearAround(ns, i, front, from);
  }

  lemma ClearPair(n: Node)
    requires n.Pair?
    ensures n.valueStart + 1 in Places(n) && n.valueEnd in Places(n) && Clear(n, n.valueStart, n.valueEnd)
  {
    assert Places(n)[1] == n.valueStart + 1 && Places(n)[2] == n.valueEnd;
  }

  lemma ClearOwner(ns: seq<Node>, i: nat, front: nat, from: nat)
    requires i < |ns| && Rising(PlacesAll(ns)) && ns[i].Block?
    requires front + 1 in PlacesAll(ns[i].kids) && from in PlacesAll(ns[i].kids)
    requires forall k :: k in ns[i].kids ==> Clear(k, front, from)
    ensures Clear(ns[i], front, from) && front + 1 in Places(ns[i]) && from in Places(ns[i])
  {
    KeyBeforeKids(ns, i, front + 1);
    KeyBeforeKids(ns, i, from);
  }

  lemma ClearAround(ns: seq<Node>, i: nat, front: nat, from: nat)
    requires i < |ns| && Rising(PlacesAll(ns)) && front + 1 in Places(ns[i]) && from in Places(ns[i])
    requires Clear(ns[i], front, from)
    ensures forall k :: k in ns ==> Clear(k, front, from)
  {
    forall k | k in ns ensures Clear(k, front, from) {
      var j :| 0 <= j < |ns| && ns[j] == k;
      if j != i {
        ClearBeside(ns, i, j, front, from);
      }
    }
  }

  lemma KeyBeforeKids(ns: seq<Node>, i: nat, p: nat)
    requires i < |ns| && Rising(PlacesAll(ns)) && ns[i].Block? && p in PlacesAll(ns[i].kids)
    ensures ns[i].at + 1 < p && p in Places(ns[i])
  {
    var o := PlacesWithin(ns, i);
    SliceRises(PlacesAll(ns), o, o + |Places(ns[i])|);
    assert Places(ns[i])[2..] == PlacesAll(ns[i].kids);
    var k :| 0 <= k < |PlacesAll(ns[i].kids)| && PlacesAll(ns[i].kids)[k] == p;
    assert Places(ns[i])[k + 2] == p && Places(ns[i])[0] == ns[i].at + 1;
  }

  lemma {:induction false} ClearAt(n: Node, at: nat)
    ensures Clear(n, at, at)
    decreases n
  {
    if n.Block? {
      forall k | k in n.kids ensures Clear(k, at, at) {
        ClearAt(k, at);
      }
    }
  }

  /** A text that is `text` up to `front` and, from `e.to`, what `text` is from `e.from`. */
  ghost predicate Around(text: string, front: nat, e: Edit, other: string)
  {
    && front <= e.from <= |text| && front <= e.to <= |other| && 0 < e.from
    && other[..front] == text[..front] && other[e.to..] == text[e.from..] && !IsBlank(text[e.from - 1])
  }

  lemma {:induction false} TidyEdit(text: string, front: nat, e: Edit, other: string, n: Node)
    requires Around(text, front, e, other) && TidyNode(text, n) && Clear(n, front, e.from) && Tidy(other, e.added)
    ensures TidyNode(other, EditNode(n, e))
    decreases n
  {
    if n.Block? {
      if n.at < front {
        assert other[..n.at] == other[..front][..n.at] == text[..front][..n.at] == text[..n.at];
        FirstInFront(text, other, n.at);
      } else {
        assert |other| - e.to == |other[e.to..]| == |text| - e.from;
        FirstBehind(text, e.from, other, e.to, n.at);
      }
      var r := EditAll(n.kids, e);
      forall m | m in r ensures TidyNode(other, m) {
        var i :| 0 <= i < |r| && r[i] == m;
        TidyEdit(text, front, e, other, n.kids[i]);
      }
    }
  }

  // ---- In what the edits write

  /** Every block of the layout starts a line. */
  predicate OwnLines(l: Laid)
  {
    l.LaidBlock? ==>
      (exists i :: 0 <= i < |l.before| && l.before[i] == '\n' && AllBlank(l.before[i + 1..]))
        && forall k :: k in l.kids ==> OwnLines(k)
  }

  lemma {:induction false} FirstAfterBreak(text: string, at: nat, i: nat)
    requires i < at <= |text| && text[i] == '\n' && forall j :: i < j < at ==> IsBlank(text[j])
    ensures FirstOnLine(text, at)
    decreases at
  {
    if i + 1 < at {
      FirstAfterBreak(text, at - 1, i);
    }
  }

  lemma {:induction false} TidyWritten(text: string, p: nat, l: Laid)
    requires OwnLines(l) && p + |Written(l)| <= |text| && text[p..p + |Written(l)|] == Written(l)
    ensures TidyNode(text, Placed(l, p))
    decreases l, 1
  {
    if l.LaidBlock? {
      KeyFirstOnLine(text, p, l);
      var from := KidsText(text, p, l);
      TidyAllWritten(text, from, l.kids);
    }
  }

  lemma KidsText(text: string, p: nat, l: Laid) returns (from: nat)
    requires l.LaidBlock? && p + |Written(l)| <= |text| && text[p..p + |Written(l)|] == Written(l)
    ensures from == Placed(l, p).afterBrace
    ensures from + |AllWritten(l.kids)| <= |text| && text[from..from + |AllWritten(l.kids)|] == AllWritten(l.kids)
  {
    var head := l.before + Raw(l.key) + l.between + "{";
    from := p + |head|;
    WrittenKids(l, head);
    Part(text, p, Written(l), |head|, |AllWritten(l.kids)|);
  }

  lemma Part(text: string, p: nat, w: string, from: nat, length: nat)
    requires p + |w| <= |text| && text[p..p + |w|] == w && from + length <= |w|
    ensures text[p + from..p + from + length] == w[from..from + length]
  {
    forall k | 0 <= k < |w| ensures text[p + k] == w[k] {
      assert text[p..p + |w|][k] == text[p + k];
    }
  }

  lemma BeforeFirst(l: Laid)
    requires l.LaidBlock?
    ensures |l.before| <= |Written(l)| && Written(l)[..|l.before|] == l.before
  {
  }

  lemma BreakBefore(text: string, p: nat, w: string, before: string, i: nat)
    requires p + |w| <= |text| && text[p..p + |w|] == w && |before| <= |w| && w[..|before|] == before
    requires i < |before| && before[i] == '\n' && AllBlank(before[i + 1..])
    ensures FirstOnLine(text, p + |before|)
  {
    Part(text, p, w, i, |before| - i);
    assert w[i..|before|] == w[..|before|][i..] == ['\n'] + before[i + 1..];
    BreakThenBlank(text, p + i, p + |before|, before[i + 1..]);
  }

  lemma KeyFirstOnLine(text: string, p: nat, l: Laid)
    requires l.LaidBlock? && OwnLines(l) && p + |Written(l)| <= |text| && text[p..p + |Written(l)|] == Written(l)
    ensures FirstOnLine(text, p + |l.before|)
  {
    var i :| 0 <= i < |l.before| && l.before[i] == '\n' && AllBlank(l.before[i + 1..]);
    BeforeFirst(l);
    BreakBefore(text, p, Written(l), l.before, i);
  }

  lemma BreakThenBlank(text: string, i: nat, at: nat, blank: string)
    requires i < at <= |text| && text[i..at] == ['\n'] + blank && AllBlank(blank)
    ensures FirstOnLine(text, at)
  {
    assert text[i] == text[i..at][0];
    forall j | i < j < at ensures IsBlank(text[j]) {
      assert text[j] == text[i..at][j - i] == blank[j - i - 1];
    }
    FirstAfterBreak(text, at, i);
  }

  lemma WrittenKids(l: Laid, head: string)
    requires l.LaidBlock? && head == l.before + Raw(l.key) + l.between + "{"
    ensures |head| + |AllWritten(l.kids)| <= |Written(l)|
    ensures Written(l)[|head|..|head| + |AllWritten(l.kids)|] == AllWritten(l.kids)
  {
    assert Written(l) == head + AllWritten(l.kids) + (l.last + "}");
  }

  lemma SliceIs(text: string, p: nat, s: string)
    requires p + |s| <= |text| && forall k :: 0 <= k < |s| ==> text[p + k] == s[k]
    ensures text[p..p + |s|] == s
  {
  }

  lemma TwoParts(text: string, p: nat, w: string, a: string, b: string)
    requires w == a + b && p + |w| <= |text| && text[p..p + |w|] == w
    ensures text[p..p + |a|] == a && text[p + |a|..p + |a| + |b|] == b
  {
    forall k | 0 <= k < |w|
      ensures text[p + k] == w[k]
    {
      assert text[p..p + |w|][k] == text[p + k];
    }
    forall k | 0 <= k < |a|
      ensures text[p + k] == a[k]
    {
      assert w[k] == a[k];
    }
    forall k | 0 <= k < |b|
      ensures text[p + |a| + k] == b[k]
    {
      assert w[|a| + k] == b[k];
    }
    SliceIs(text, p, a);
    SliceIs(text, p + |a|, b);
  }

  lemma {:induction false} TidyAllWritten(text: string, p: nat, ls: seq<Laid>)
    requires (forall l :: l in ls ==> OwnLines(l)) && p + |AllWritten(ls)| <= |text|
    requires text[p..p + |AllWritten(ls)|] == AllWritten(ls)
    ensures Tidy(text, AllPlaced(ls, p))
    decreases ls, 0
  {
    if ls != [] {
      var init, last := ls[..|ls| - 1], ls[|ls| - 1];
      var a := |AllWritten(init)|;
      TwoParts(text, p, AllWritten(ls), AllWritten(init), Written(last));
      TidyAllWritten(text, p, init);
      TidyWritten(text, p + a, last);
    }
  }

  lemma {:induction false} NewOwnLines(path: seq<string>, indent: string, value: string)
    requires path != [] && AllBlank(indent)
    ensures OwnLines(LaidNew(path, indent, value))
    decreases |path|
  {
    if |path| > 1 {
      NewOwnLines(path[1..], indent + "\t", value);
      assert ("\n" + indent)[0] == '\n' && ("\n" + indent)[1..] == indent;
    }
  }

  /** After a change the file is as tidy as it was. */
  lemma ChangeTidy(text: string, ns: seq<Node>, path: seq<string>, value: string)
    requires Parse(text) == Some(ns) && PlainPath(path) && Find(Keys(ns), path[0]) < |ns| && Fits(EraseAll(ns), path)
    requires Tidy(text, ns)
    ensures var (n, rest) := Stop(ns, path);
      && In(text, n) && Sited(text, n, rest) && (if rest != [] then n.Block? else n.Pair?)
      && Tidy(Change(text, n, rest, value), EditAll(ns, ChangeEdit(text, n, rest, value)))
  {
    SpansAreExact(text, ns);
    StopKnown(text, ns, path);
    TidyStop(text, ns, path);
    var (n, rest) := Stop(ns, path);
    var e := ChangeEdit(text, n, rest, value);
    var other := Change(text, n, rest, value);
    var front := if rest != [] then n.afterBrace else n.valueStart;
    if rest != [] {
      FirstIsBlank(text, n.at);
      InsertedTidy(text, n, rest, value);
      forall m | m in ns ensures Clear(m, front, e.from) {
        ClearAt(m, front);
      }
    } else {
      ClearStop(ns, path);
      ReplacedAround(text, n, value);
    }
    forall m | m in EditAll(ns, e) ensures TidyNode(other, m) {
      var i :| 0 <= i < |ns| && EditAll(ns, e)[i] == m;
      TidyEdit(text, front, e, other, ns[i]);
    }
  }

  lemma InsertedTidy(text: string, n: Node, rest: seq<string>, value: string)
    requires Known(text, n) && n.Block? && rest != [] && AllBlank(IndentBefore(text, n.at))
    ensures var e := ChangeEdit(text, n, rest, value); var other := Change(text, n, rest, value);
      Around(text, n.afterBrace, e, other) && Tidy(other, e.added)
  {
    var indent := IndentBefore(text, n.at) + "\t";
    var l := LaidNew(rest, indent, Escape(value));
    var other := Change(text, n, rest, value);
    NewOwnLines(rest, indent, Escape(value));
    assert other[n.afterBrace..n.afterBrace + |Written(l)|] == Written(l);
    TidyWritten(other, n.afterBrace, l);
    assert other[..n.afterBrace] == text[..n.afterBrace];
    assert other[n.afterBrace + |Written(l)|..] == text[n.afterBrace..];
  }

  lemma ReplacedAround(text: string, n: Node, value: string)
    requires Known(text, n) && n.Pair?
    ensures var e := ChangeEdit(text, n, [], value); var other := Change(text, n, [], value);
      Around(text, n.valueStart, e, other)
  {
    var other := Change(text, n, [], value);
    assert other[..n.valueStart] == text[..n.valueStart];
    assert other[n.valueStart + |Quote(value)|..] == text[n.valueEnd..];
    assert text[n.valueEnd - 1] == text[n.valueStart..n.valueEnd][n.valueEnd - n.valueStart - 1] == '"';
  }
}
