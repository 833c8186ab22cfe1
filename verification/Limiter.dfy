/** The login limiter (internal/auth/auth.go): how often one bucket of addresses may try a
    password.  Times are nanoseconds on a clock that never goes back. */
module Limiter {
  import opened Wrappers

  const SECOND := 1_000_000_000
  const FAIL_WINDOW := 900 * SECOND
  const FREE_ATTEMPTS := 5
  const MAX_SOURCES := 4096

  /** One bucket's record; `until` is none until there is something to wait for. */
  datatype Record = Record(count: nat, last: int, until: Option<int>)

  predicate Expired(r: Record, now: int)
  {
    now - r.last > FAIL_WINDOW
  }

  predicate Waits(r: Record, now: int)
  {
    r.until.Some? && r.until.value > now
  }

  function Shift(n: nat): (r: nat)
    ensures r >= 1
  {
    if n == 0 then 1 else 2 * Shift(n - 1)
  }

  /** How long the try after this many has to wait. */
  function Delay(count: nat): nat
    requires count > FREE_ATTEMPTS
  {
    Shift(if count - FREE_ATTEMPTS < 6 then count - FREE_ATTEMPTS else 6) * SECOND
  }

  // ---- One bucket

  /** What can happen to one bucket's record within a call, and when.  `passed` says that a
      try was let through: looked at when the clock said `seen`, and counted. */
  datatype Act =
    | Idle(from: int, end: int)
    | Lapsed(from: int, end: int)
    | Counted(passed: bool, from: int, seen: int, last: int, stamp: int, end: int)

  /** One try more in a record, or in a new one. */
  function Bumped(was: Option<Record>, last: int, stamp: int): Record
  {
    var a := if was.None? then Record(0, last, None) else was.value;
    Record(a.count + 1, last, if a.count + 1 > FREE_ATTEMPTS then Some(stamp + Delay(a.count + 1)) else a.until)
  }

  /** What a counted try makes of the record: a new one if there was none worth keeping. */
  function Count(r: Option<Record>, seen: int, last: int, stamp: int): Record
  {
    Bumped(if r.None? || Expired(r.value, seen) then None else r, last, stamp)
  }

  /** The record allows a try at a time. */
  predicate Open(r: Option<Record>, now: int)
  {
    r.None? || Expired(r.value, now) || !Waits(r.value, now)
  }

  predicate Moves(r: Option<Record>, act: Act, next: Option<Record>)
  {
    act.from <= act.end &&
    match act
    case Idle(_, _) => next == r
    case Lapsed(_, end) => r.Some? && Expired(r.value, end) && next == None
    case Counted(passed, from, seen, last, stamp, end) =>
      && from <= seen <= last <= stamp <= end && next == Some(Count(r, seen, last, stamp))
      && (passed ==> Open(r, seen))
  }

  /** A record as the limiter keeps it: it counts something, none of it later than now, and
      past the free tries it says when the next may come. */
  predicate Sound(r: Option<Record>, now: int)
  {
    r.Some? ==>
      && r.value.count >= 1 && r.value.last <= now
      && (r.value.count > FREE_ATTEMPTS ==>
          r.value.until.Some? && r.value.until.value >= r.value.last + Delay(r.value.count))
  }

  /** When the act before the i-th was over. */
  function Clock(start: int, acts: seq<Act>, i: nat): int
    requires i <= |acts|
  {
    if i == 0 then start else acts[i - 1].end
  }

  /** A run of one bucket that nothing but its own waiting clears: no success, and no other
      bucket pushing a record out that is still live. */
  ghost predicate Run(start: int, acts: seq<Act>, records: seq<Option<Record>>)
  {
    && |records| == |acts| + 1 && Sound(records[0], start)
    && forall i :: 0 <= i < |acts| ==> MovesAt(start, acts, records, i)
  }

  predicate MovesAt(start: int, acts: seq<Act>, records: seq<Option<Record>>, i: nat)
    requires |records| == |acts| + 1 && i < |acts|
  {
    Moves(records[i], acts[i], records[i + 1]) && acts[i].from >= Clock(start, acts, i)
  }

  function End(start: int, acts: seq<Act>): int
  {
    Clock(start, acts, |acts|)
  }

  function Passes(acts: seq<Act>): nat
  {
    if acts == [] then 0
    else Passes(acts[..|acts| - 1]) + if acts[|acts| - 1].Counted? && acts[|acts| - 1].passed then 1 else 0
  }

  /** The seconds that this many tries have not yet paid for at 64 a try. */
  function Debt(count: nat): nat
  {
    if count <= 6 then 64 * count
    else if count == 7 then 446
    else if count == 8 then 506
    else if count == 9 then 562
    else if count == 10 then 610
    else 642
  }

  lemma DelayIs(count: nat)
    requires count > FREE_ATTEMPTS
    ensures Delay(count) == (if count == 6 then 2 else if count == 7 then 4 else if count == 8 then 8
                             else if count == 9 then 16 else if count == 10 then 32 else 64) * SECOND
  {
    assert Shift(1) == 2 && Shift(2) == 4 && Shift(3) == 8;
    assert Shift(4) == 16 && Shift(5) == 32 && Shift(6) == 64;
  }

  /** A counted try: one more than were counted in the last quarter of an hour, and past the
      fifth a time to wait for, twice as long each time up to 64 seconds. */
  lemma CountIs(r: Option<Record>, seen: int, last: int, stamp: int)
    ensures var lapsed := r.None? || seen - r.value.last > 900_000_000_000;
      var n := if lapsed then 1 else r.value.count + 1;
      Count(r, seen, last, stamp) == Record(n, last,
        if n <= 5 then (if lapsed then None else r.value.until)
        else Some(stamp + 1_000_000_000 * (if n == 6 then 2 else if n == 7 then 4 else if n == 8 then 8
                                           else if n == 9 then 16 else if n == 10 then 32 else 64)))
  {
    var lapsed := r.None? || seen - r.value.last > 900_000_000_000;
    var n := if lapsed then 1 else r.value.count + 1;
    if n > FREE_ATTEMPTS {
      DelayIs(n);
    }
  }

  /** A try is never dearer than what it has to wait for, but for the first six. */
  lemma DebtGrows(count: nat)
    ensures Debt(count) <= Debt(count + 1) <= 642
    ensures count <= FREE_ATTEMPTS ==> 64 * SECOND + Debt(count) * SECOND == Debt(count + 1) * SECOND
    ensures count > FREE_ATTEMPTS ==> 64 * SECOND + Debt(count) * SECOND <= Delay(count) + Debt(count + 1) * SECOND
  {
    if count > FREE_ATTEMPTS {
      DelayIs(count);
    }
  }

  /** What the tries let through so far have cost, against the time they took. */
  ghost predicate Paid(start: int, now: int, passes: nat, r: Option<Record>)
  {
    && start <= now
    && (r.None? ==> 64 * SECOND * passes <= now - start)
    && (r.Some? ==>
          || passes == 0
          || (r.value.last >= start && 64 * SECOND * passes <= r.value.last - start + Debt(r.value.count) * SECOND))
  }

  lemma CountedPays(start: int, now: int, passes: nat, r: Option<Record>, act: Act, next: Option<Record>)
    requires Paid(start, now, passes, r) && Sound(r, now) && act.Counted? && Moves(r, act, next) && act.from >= now
    ensures Paid(start, act.end, if act.passed then passes + 1 else passes, next)
    ensures Sound(next, act.end)
  {
    if r.Some? {
      DebtGrows(r.value.count);
    }
  }

  /** As many tries as 64 seconds each allow, and what 642 seconds are good for. */
  ghost predicate Bounded(passes: nat, time: int)
  {
    64 * SECOND * passes <= time + 642 * SECOND && passes <= 11 + time / (64 * SECOND)
  }

  lemma Quotient(passes: nat, time: int)
    requires 64 * SECOND * passes <= time + 642 * SECOND
    ensures Bounded(passes, time)
  {
    var d := time / (64 * SECOND);
    assert time < 64 * SECOND * (d + 1);
    assert 64 * SECOND * passes < 64 * SECOND * (d + 12);
  }

  /** Over any run of a bucket that neither a success nor another bucket clears, however
      often its record lapses and whatever else is counted against it: in T seconds no more
      tries are let through than 11 and one for every 64 seconds. */
  lemma {:induction false} TriesAreBounded(start: int, acts: seq<Act>, records: seq<Option<Record>>)
    requires Run(start, acts, records)
    ensures Bounded(Passes(acts), End(start, acts) - start)
    ensures Passes(acts) <= 11 + (End(start, acts) - start) / 64_000_000_000
  {
    RunPays(start, acts, records);
    PaidIsBounded(start, End(start, acts), Passes(acts), records[|acts|]);
  }

  lemma PaidIsBounded(start: int, now: int, passes: nat, r: Option<Record>)
    requires Paid(start, now, passes, r) && Sound(r, now)
    ensures Bounded(passes, now - start)
  {
    if r.Some? {
      DebtGrows(r.value.count);
    }
    Quotient(passes, now - start);
  }

  lemma RunBefore(start: int, acts: seq<Act>, records: seq<Option<Record>>)
    requires Run(start, acts, records) && acts != []
    ensures var n := |acts| - 1;
      Run(start, acts[..n], records[..n + 1]) && Clock(start, acts, n) == End(start, acts[..n])
  {
    var n := |acts| - 1;
    var before, were := acts[..n], records[..n + 1];
    forall i: nat | i < n
      ensures MovesAt(start, before, were, i)
    {
      assert MovesAt(start, acts, records, i);
      assert were[i] == records[i] && were[i + 1] == records[i + 1];
      assert Clock(start, before, i) == Clock(start, acts, i);
    }
  }

  lemma StepPays(start: int, now: int, passes: nat, r: Option<Record>, act: Act, next: Option<Record>)
    requires Paid(start, now, passes, r) && Sound(r, now) && Moves(r, act, next) && act.from >= now
    ensures Paid(start, act.end, if act.Counted? && act.passed then passes + 1 else passes, next)
    ensures Sound(next, act.end)
  {
    if act.Counted? {
      CountedPays(start, now, passes, r, act, next);
    } else if r.Some? {
      DebtGrows(r.value.count);
    }
  }

  lemma {:induction false} RunPays(start: int, acts: seq<Act>, records: seq<Option<Record>>)
    requires Run(start, acts, records)
    ensures Paid(start, End(start, acts), Passes(acts), records[|acts|]) && Sound(records[|acts|], End(start, acts))
    decreases |acts|
  {
    if acts != [] {
      var n := |acts| - 1;
      RunBefore(start, acts, records);
      RunPays(start, acts[..n], records[..n + 1]);
      assert MovesAt(start, acts, records, n);
      StepPays(start, End(start, acts[..n]), Passes(acts[..n]), records[n], acts[n], records[n + 1]);
    }
  }

  lemma BumpedSound(was: Option<Record>, last: int, stamp: int, now: int)
    requires last <= stamp <= now
    ensures Sound(Some(Bumped(was, last, stamp)), now)
  {
  }

  // ---- The limiter itself

  class Ticker {
    var now: int

    /** The time; never earlier than it was before. */
    method Now() returns (t: int)
      modifies this
      ensures t == now >= old(now)
    {
      t :| t >= now;
      now := t;
    }
  }

  /** What making room took away: records that had lapsed, and at most one that had not,
      the one heard from longest ago, of a table that was full. */
  ghost predicate Room(was: map<string, Record>, left: map<string, Record>, now: int)
  {
    && (forall k :: k in left ==> k in was && left[k] == was[k])
    && (|was| < MAX_SOURCES ==> left == was)
    && exists gone: string :: LetGo(was, left, now, gone)
  }

  ghost predicate LetGo(was: map<string, Record>, left: map<string, Record>, now: int, gone: string)
  {
    forall k :: k in was && k !in left ==>
      Expired(was[k], now) || (k == gone && forall j :: j in left && j in was ==> was[k].last <= was[j].last)
  }

  // ---- Calls

  function At(table: map<string, Record>, key: string): Option<Record>
  {
    if key in table then Some(table[key]) else None
  }

  /** A call of the limiter, with what it did to its own bucket. */
  datatype Call =
    | Asked(key: string)
    | Tried(key: string, act: Act)
    | Failed(key: string, act: Act)
    | Cleared(key: string)

  /** What a call that lasted from the one time to the other did to the table. */
  ghost predicate Called(was: map<string, Record>, from: int, call: Call, left: map<string, Record>, end: int)
  {
    && from <= end
    && match call
       case Asked(key) =>
         left == was || (key in was && Expired(was[key], end) && left == was - {key})
       case Tried(key, act) =>
         && Moves(At(was, key), act, At(left, key)) && act.from == from && act.end == end
         && ((act.Counted? && act.passed) || (act.Idle? && left == was))
         && Room(was - {key}, left - {key}, end)
       case Failed(key, act) =>
         && Moves(At(was, key), act, At(left, key)) && act.from == from && act.end == end
         && act.Counted? && !act.passed && Room(was - {key}, left - {key}, end)
       case Cleared(key) => left == was - {key}
  }

  datatype Moment = Moment(call: Call, from: int, end: int)

  function Over(start: int, calls: seq<Moment>, i: nat): int
    requires i <= |calls|
  {
    if i == 0 then start else calls[i - 1].end
  }

  /** A sequence of calls, for any buckets, with the tables between them. */
  ghost predicate Calls(start: int, calls: seq<Moment>, tables: seq<map<string, Record>>)
  {
    |tables| == |calls| + 1 && forall i :: 0 <= i < |calls| ==> CalledAt(start, calls, tables, i)
  }

  ghost predicate CalledAt(start: int, calls: seq<Moment>, tables: seq<map<string, Record>>, i: nat)
    requires |tables| == |calls| + 1 && i < |calls|
  {
    && Called(tables[i], calls[i].from, calls[i].call, tables[i + 1], calls[i].end)
    && calls[i].from >= Over(start, calls, i)
  }

  /** No call clears the bucket or pushes out its record while that is live. */
  ghost predicate Spared(calls: seq<Moment>, tables: seq<map<string, Record>>, key: string)
  {
    |tables| == |calls| + 1 && forall i :: 0 <= i < |calls| ==> SparedAt(calls, tables, key, i)
  }

  ghost predicate SparedAt(calls: seq<Moment>, tables: seq<map<string, Record>>, key: string, i: nat)
    requires |tables| == |calls| + 1 && i < |calls|
  {
    Spares(tables[i], calls[i], tables[i + 1], key)
  }

  ghost predicate Spares(was: map<string, Record>, m: Moment, left: map<string, Record>, key: string)
  {
    && m.call != Cleared(key)
    && (key in was && key !in left ==> Expired(was[key], m.end))
  }

  /** The tries of a bucket that were let through. */
  function PassesOf(calls: seq<Moment>, key: string): nat
  {
    if calls == [] then 0
    else
      var c := calls[|calls| - 1].call;
      PassesOf(calls[..|calls| - 1], key) + if c.Tried? && c.key == key && c.act.Counted? then 1 else 0
  }

  /** What a call is to one bucket. */
  function ActOf(was: map<string, Record>, m: Moment, left: map<string, Record>, key: string): Act
  {
    if (m.call.Tried? || m.call.Failed?) && m.call.key == key then m.call.act
    else if key in was && key !in left then Lapsed(m.from, m.end)
    else Idle(m.from, m.end)
  }

  /** To a bucket it spares every call is idle, a lapse, or its own count. */
  lemma CallMoves(was: map<string, Record>, m: Moment, left: map<string, Record>, key: string)
    requires Called(was, m.from, m.call, left, m.end) && Spares(was, m, left, key)
    ensures var act := ActOf(was, m, left, key);
      && Moves(At(was, key), act, At(left, key)) && act.from == m.from && act.end == m.end
      && (act.Counted? && act.passed <==> m.call.Tried? && m.call.key == key && m.call.act.Counted?)
  {
    if !m.call.Asked? && !m.call.Cleared? && m.call.key != key {
      var w, l := was - {m.call.key}, left - {m.call.key};
      assert key in was <==> key in w;
      assert key in left <==> key in l;
    }
  }

  function ActsOf(calls: seq<Moment>, tables: seq<map<string, Record>>, key: string): seq<Act>
    requires |tables| == |calls| + 1
  {
    seq(|calls|, i requires 0 <= i < |calls| => ActOf(tables[i], calls[i], tables[i + 1], key))
  }

  function RecordsOf(tables: seq<map<string, Record>>, key: string): seq<Option<Record>>
  {
    seq(|tables|, i requires 0 <= i < |tables| => At(tables[i], key))
  }

  lemma CallMovesAt(start: int, calls: seq<Moment>, tables: seq<map<string, Record>>, key: string, i: nat)
    requires |tables| == |calls| + 1 && i < |calls| && CalledAt(start, calls, tables, i)
    requires SparedAt(calls, tables, key, i)
    ensures var act := ActsOf(calls, tables, key)[i];
      && Moves(RecordsOf(tables, key)[i], act, RecordsOf(tables, key)[i + 1])
      && act.from == calls[i].from >= Over(start, calls, i) && act.end == calls[i].end
      && (act.Counted? && act.passed <==>
          calls[i].call.Tried? && calls[i].call.key == key && calls[i].call.act.Counted?)
  {
    CallMoves(tables[i], calls[i], tables[i + 1], key);
  }

  /** The calls are a run of every bucket they spare. */
  lemma CallsAreRun(start: int, calls: seq<Moment>, tables: seq<map<string, Record>>, key: string)
    requires Calls(start, calls, tables) && Spared(calls, tables, key) && Sound(At(tables[0], key), start)
    ensures Run(start, ActsOf(calls, tables, key), RecordsOf(tables, key))
    ensures End(start, ActsOf(calls, tables, key)) == Over(start, calls, |calls|)
  {
    var acts, records := ActsOf(calls, tables, key), RecordsOf(tables, key);
    forall i: nat | i < |calls|
      ensures MovesAt(start, acts, records, i) && acts[i].end == calls[i].end
    {
      assert CalledAt(start, calls, tables, i) && SparedAt(calls, tables, key, i);
      CallMovesAt(start, calls, tables, key, i);
      if i > 0 {
        assert CalledAt(start, calls, tables, i - 1) && SparedAt(calls, tables, key, i - 1);
        CallMovesAt(start, calls, tables, key, i - 1);
      }
    }
  }

  lemma CallsBefore(start: int, calls: seq<Moment>, tables: seq<map<string, Record>>, key: string)
    requires Calls(start, calls, tables) && Spared(calls, tables, key) && calls != []
    ensures var n := |calls| - 1;
      && Calls(start, calls[..n], tables[..n + 1]) && Spared(calls[..n], tables[..n + 1], key)
      && ActsOf(calls, tables, key)[..n] == ActsOf(calls[..n], tables[..n + 1], key)
  {
    var n := |calls| - 1;
    var before, were := calls[..n], tables[..n + 1];
    forall i: nat | i < n
      ensures CalledAt(start, before, were, i) && SparedAt(before, were, key, i)
    {
      assert CalledAt(start, calls, tables, i) && SparedAt(calls, tables, key, i);
      assert were[i] == tables[i] && were[i + 1] == tables[i + 1];
      assert Over(start, before, i) == Over(start, calls, i);
    }
  }

  lemma {:induction false} PassesAre(start: int, calls: seq<Moment>, tables: seq<map<string, Record>>, key: string)
    requires Calls(start, calls, tables) && Spared(calls, tables, key)
    ensures Passes(ActsOf(calls, tables, key)) == PassesOf(calls, key)
    decreases |calls|
  {
    if calls != [] {
      var n := |calls| - 1;
      CallsBefore(start, calls, tables, key);
      PassesAre(start, calls[..n], tables[..n + 1], key);
      assert CalledAt(start, calls, tables, n) && SparedAt(calls, tables, key, n);
      CallMovesAt(start, calls, tables, key, n);
    }
  }

  /** Over any sequence of calls of the limiter, for whatever buckets, none of which clears
      this one or pushes out its live record: in T seconds no more tries of it are let
      through than 11 and one for every 64 seconds. */
  lemma CallsAreBounded(start: int, calls: seq<Moment>, tables: seq<map<string, Record>>, key: string)
    requires Calls(start, calls, tables) && Spared(calls, tables, key) && Sound(At(tables[0], key), start)
    ensures Bounded(PassesOf(calls, key), Over(start, calls, |calls|) - start)
    ensures PassesOf(calls, key) <= 11 + (Over(start, calls, |calls|) - start) / 64_000_000_000
  {
    CallsAreRun(start, calls, tables, key);
    PassesAre(start, calls, tables, key);
    TriesAreBounded(start, ActsOf(calls, tables, key), RecordsOf(tables, key));
  }

  /** A call for another bucket pushes a live record out only of a full table, and then the
      one heard from longest ago. */
  lemma PushedOut(was: map<string, Record>, m: Moment, left: map<string, Record>, key: string)
    requires Called(was, m.from, m.call, left, m.end) && m.call.key != key
    requires key in was && key !in left && m.end - was[key].last <= 900_000_000_000
    ensures |was| >= 4096
    ensures forall j :: j in left && j in was && j != m.call.key ==> was[key].last <= was[j].last
  {
    var w, l := was - {m.call.key}, left - {m.call.key};
    assert key in w && key !in l;
    var gone :| LetGo(w, l, m.end, gone);
    assert w != l;
    Fewer(was, w);
    forall j | j in left && j in was && j != m.call.key
      ensures was[key].last <= was[j].last
    {
      assert j in l && j in w;
    }
  }

  /** The bucket has a record of less than a quarter of an hour that says to wait, this long
      from now. */
  ghost predicate Held(table: map<string, Record>, key: string, from: int, now: int, wait: int)
  {
    && key in table && table[key].until.Some? && 0 < wait == table[key].until.value - now
    && from - table[key].last <= 900_000_000_000
  }

  class Sources {
    var table: map<string, Record>
    const ticker: Ticker

    constructor ()
      ensures Valid() && table == map[] && fresh(ticker)
    {
      table := map[];
      ticker := new Ticker;
    }

    ghost predicate Valid()
      reads this, ticker
    {
      |table| <= MAX_SOURCES && "" !in table && forall k :: k in table ==> Sound(Some(table[k]), ticker.now)
    }

    function Get(key: string): Option<Record>
      reads this
    {
      At(table, key)
    }

    /** allow: whether a bucket may try; a record that has lapsed is dropped on the way. */
    method AllowKey(key: string) returns (ok: bool, wait: int)
      requires Valid()
      modifies this`table, ticker
      ensures Valid() && ticker.now >= old(ticker.now)
      ensures if key in old(table) && key !in table then
          table == old(table) - {key} && Expired(old(table)[key], ticker.now) && ok
        else table == old(table)
      ensures ok ==> Open(old(Get(key)), ticker.now) && wait == 0
      ensures ok ==> key in old(table) ==>
        var r := old(table)[key];
        ticker.now - r.last > 900_000_000_000 || r.until.None? || r.until.value <= ticker.now
      ensures !ok ==> Held(table, key, old(ticker.now), ticker.now, wait)
      ensures Called(old(table), old(ticker.now), Asked(key), table, ticker.now)
    {
      if key !in table {
        return true, 0;
      }
      var a := table[key];
      var t := ticker.Now();
      if t - a.last > FAIL_WINDOW {
        table := table - {key};
        return true, 0;
      }
      t := ticker.Now();
      if a.until.Some? && a.until.value - t > 0 {
        return false, a.until.value - t;
      }
      return true, 0;
    }

    /** makeRoom: the table is visited in no particular order. */
    method MakeRoom()
      requires Valid()
      modifies this`table, ticker
      ensures Valid() && |table| < MAX_SOURCES == 4096 && ticker.now >= old(ticker.now)
      ensures Room(old(table), table, ticker.now)
    {
      if |table| < MAX_SOURCES {
        RoomSame(table, ticker.now);
        return;
      }
      ghost var was := table;
      var oldest := "";
      var left := table.Keys;
      while left != {}
        invariant ticker.now >= old(ticker.now)
        invariant Swept(was, table, left, oldest, ticker.now)
      {
        ghost var before := ticker.now;
        var key :| key in left;
        var a := table[key];
        var t := ticker.Now();
        SweptMore(was, table, left, oldest, key, before, t);
        left := left - {key};
        if t - a.last > FAIL_WINDOW {
          table := table - {key};
        } else if oldest == "" || a.last < table[oldest].last {
          oldest := key;
        }
      }
      SweptEnd(was, table, oldest, ticker.now);
      if |table| >= MAX_SOURCES && oldest != "" {
        table := table - {oldest};
      }
    }

    /** The record of a bucket as a try is about to be counted in it, whether it is one to
        keep, and room for it if there is none. */
    method Look(key: string) returns (renew: bool, seen: int)
      requires Valid() && key != ""
      modifies this`table, ticker
      ensures Valid() && old(ticker.now) <= seen <= ticker.now && (key in table || |table| < MAX_SOURCES)
      ensures Get(key) == old(Get(key)) && (renew <==> key !in table || Expired(table[key], seen))
      ensures Room(old(table) - {key}, table - {key}, ticker.now)
    {
      ghost var was := table;
      seen := ticker.Now();
      renew := key !in table || seen - table[key].last > FAIL_WINDOW;
      if key !in table {
        MakeRoom();
        RoomLess(was, table, key, ticker.now, ticker.now);
      } else {
        RoomSame(was - {key}, ticker.now);
      }
    }

    /** The count itself: one more, from now, and past the free tries a time to wait for. */
    method Bump(key: string, renew: bool) returns (last: int, stamp: int)
      requires Valid() && key != "" && (key in table || |table| < MAX_SOURCES) && (renew || key in table)
      modifies this`table, ticker
      ensures Valid() && old(ticker.now) <= last <= stamp <= ticker.now
      ensures table == old(table)[key := Bumped(if renew then None else Some(old(table)[key]), last, stamp)]
    {
      var a := if renew then Record(0, 0, None) else table[key];
      ghost var r := if renew then None else Some(table[key]);
      last := ticker.Now();
      var until := a.until;
      stamp := last;
      if a.count + 1 > FREE_ATTEMPTS {
        stamp := ticker.Now();
        until := Some(stamp + Delay(a.count + 1));
      }
      var record := Record(a.count + 1, last, until);
      assert record == Bumped(r, last, stamp);
      BumpedSound(r, last, stamp, ticker.now);
      Added(table, key, table[key := record]);
      table := table[key := record];
    }

    /** failed: the try is counted, in a new record if there is none worth keeping. */
    method FailedKey(key: string) returns (ghost act: Act)
      requires Valid() && key != ""
      modifies this`table, ticker
      ensures Valid() && act.Counted? && !act.passed && act.from == old(ticker.now) && act.end == ticker.now
      ensures Moves(old(Get(key)), act, Get(key))
      ensures Called(old(table), old(ticker.now), Failed(key, act), table, ticker.now)
    {
      ghost var from, was := ticker.now, table;
      var renew, seen := Look(key);
      ghost var left, between := table, ticker.now;
      var last, stamp := Bump(key, renew);
      OthersSame(left, table, key);
      RoomLater(was - {key}, left - {key}, between, ticker.now);
      act := Counted(false, from, seen, last, stamp, ticker.now);
    }

    /** Attempt: allowed or not, and counted before the password is looked at. */
    method Attempt(key: string) returns (ok: bool, wait: int, ghost act: Act)
      requires Valid() && key != ""
      modifies this`table, ticker
      ensures Valid() && Moves(old(Get(key)), act, Get(key)) && act.from == old(ticker.now) && act.end == ticker.now
      ensures if ok then act.Counted? && act.passed
        else act.Idle? && table == old(table) && Held(table, key, old(ticker.now), ticker.now, wait)
      ensures Called(old(table), old(ticker.now), Tried(key, act), table, ticker.now)
    {
      ghost var from, r, was := ticker.now, Get(key), table;
      ok, wait := AllowKey(key);
      act := Idle(from, ticker.now);
      assert table - {key} == was - {key};
      RoomSame(was - {key}, ticker.now);
      if ok {
        ghost var counted := FailedKey(key);
        act := Counted(true, from, counted.seen, counted.last, counted.stamp, counted.end);
      }
    }

    /** Succeeded: the record is cleared. */
    method Succeeded(key: string)
      requires Valid()
      modifies this`table
      ensures Valid() && table == old(table) - {key}
      ensures Called(old(table), ticker.now, Cleared(key), table, ticker.now)
    {
      table := table - {key};
    }
  }

  /** The sweep so far: what is gone had lapsed, and of what was visited and is still there
      `oldest` is the one heard from longest ago. */
  ghost predicate Swept(was: map<string, Record>, table: map<string, Record>, left: set<string>, oldest: string,
                        now: int)
  {
    && "" !in was && left <= table.Keys <= was.Keys
    && (forall k :: k in table ==> table[k] == was[k])
    && (forall k :: k in was && k !in table ==> Expired(was[k], now))
    && (if oldest == "" then left == table.Keys
        else oldest in table && oldest !in left && forall k :: k in table && k !in left ==>
          table[oldest].last <= table[k].last)
  }

  lemma SweptMore(was: map<string, Record>, table: map<string, Record>, left: set<string>, oldest: string, key: string,
                  now: int, later: int)
    requires Swept(was, table, left, oldest, now) && key in left && now <= later
    ensures if Expired(table[key], later) then Swept(was, table - {key}, left - {key}, oldest, later)
            else if oldest == "" || table[key].last < table[oldest].last then
              Swept(was, table, left - {key}, key, later)
            else Swept(was, table, left - {key}, oldest, later)
  {
  }

  /** With the oldest taken out of a table still full there is room. */
  lemma SweptEnd(was: map<string, Record>, table: map<string, Record>, oldest: string, now: int)
    requires Swept(was, table, {}, oldest, now) && MAX_SOURCES == |was|
    ensures var left := if |table| >= MAX_SOURCES && oldest != "" then table - {oldest} else table;
      Room(was, left, now) && |left| < MAX_SOURCES
  {
    var left := if |table| >= MAX_SOURCES && oldest != "" then table - {oldest} else table;
    Fewer(was, table);
    Fewer(table, left);
    assert LetGo(was, left, now, oldest);
  }

  lemma Fewer(a: map<string, Record>, b: map<string, Record>)
    requires b.Keys <= a.Keys
    ensures |b| <= |a| && (b.Keys != a.Keys ==> |b| < |a|)
  {
    assert a.Keys == b.Keys + (a.Keys - b.Keys);
    assert |a| == |a.Keys| && |b| == |b.Keys|;
  }

  lemma RoomSame(a: map<string, Record>, now: int)
    ensures Room(a, a, now)
  {
    assert LetGo(a, a, now, "");
  }

  lemma RoomLater(was: map<string, Record>, left: map<string, Record>, now: int, later: int)
    requires Room(was, left, now) && now <= later
    ensures Room(was, left, later)
  {
    var gone :| LetGo(was, left, now, gone);
    assert LetGo(was, left, later, gone);
  }

  lemma OthersSame(left: map<string, Record>, table: map<string, Record>, key: string)
    requires key in table && table == left[key := table[key]]
    ensures table - {key} == left - {key}
  {
  }

  lemma Added(left: map<string, Record>, key: string, table: map<string, Record>)
    requires table.Keys == left.Keys + {key}
    ensures |table| == |left| + if key in left then 0 else 1
  {
    assert |table| == |table.Keys| && |left| == |left.Keys|;
    if key in left {
      assert table.Keys == left.Keys;
    }
  }

  lemma RoomLess(was: map<string, Record>, left: map<string, Record>, key: string, now: int, later: int)
    requires Room(was, left, now) && key !in was && now <= later
    ensures Room(was - {key}, left - {key}, later)
  {
    assert was - {key} == was && left - {key} == left;
    var gone :| LetGo(was, left, now, gone);
    assert LetGo(was, left, later, gone);
  }
}
