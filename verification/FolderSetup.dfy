/** Setup scripts that wait for a person (internal/seat/foldersetup.go): which are allowed,
    which wait where, and when one runs.

    Every operation on the record is one step under its lock.  Between any two of them the
    others may do theirs, so the record keeps, for the proofs only, the log of all of them. */
module FolderSetup {
  import opened Wrappers
  import opened FileTree
  import opened Text

  type Bytes = seq<Byte>

  datatype Approval = Approval(script: string, version: Version)

  /** One run that waits. */
  datatype Waiting = Waiting(member: string, folder: string, version: Version)

  /** What lies where a folder's script should: nothing, something that is no plain file, or
      a plain file. */
  datatype Script = NoScript | NotPlain | PlainFile(executable: bool, data: Bytes)

  /** What happened, in order: a folder with a script arrived, a wait or a folder was
      forgotten, a person allowed a script, a round of runs began, a run was tried, and what
      was found at the member was run.  Whoever owns the files there may put anything in the
      place of a script at any time. */
  datatype Event =
    | Expected(member: string, folder: string, version: Version)
    | Dropped(member: string, folder: string)
    | Forgotten(folder: string)
    | Allowed(folder: string, script: string, version: Version)
    | Listed
    | Tried(run: Waiting)
    | Ran(run: Waiting, found: Script)
    | Placed(member: string, folder: string, lies: Script)

  // ---- The record as the log tells it

  function Granted(a: map<string, Approval>, e: Event): map<string, Approval>
  {
    if e.Allowed? then a[e.folder := Approval(e.script, e.version)]
    else if e.Forgotten? then a - {e.folder}
    else a
  }

  function Wait(p: map<(string, string), Version>, e: Event): map<(string, string), Version>
  {
    if e.Expected? then p[(e.member, e.folder) := e.version]
    else if e.Dropped? then p - {(e.member, e.folder)}
    else if e.Forgotten? then Unwait(p, e.folder)
    else p
  }

  function Unwait(p: map<(string, string), Version>, folder: string): map<(string, string), Version>
  {
    map k | k in p && k.1 != folder :: p[k]
  }

  function ApprovedAfter(log: seq<Event>): map<string, Approval>
  {
    if log == [] then map[] else Granted(ApprovedAfter(log[..|log| - 1]), log[|log| - 1])
  }

  function PendingAfter(log: seq<Event>): map<(string, string), Version>
  {
    if log == [] then map[] else Wait(PendingAfter(log[..|log| - 1]), log[|log| - 1])
  }

  /** What lies at the members. */
  function FilesAfter(log: seq<Event>): map<(string, string), Script>
  {
    if log == [] then map[] else Put(FilesAfter(log[..|log| - 1]), log[|log| - 1])
  }

  function Put(f: map<(string, string), Script>, e: Event): map<(string, string), Script>
  {
    if e.Placed? then f[(e.member, e.folder) := e.lies] else f
  }

  function FileAt(f: map<(string, string), Script>, member: string, folder: string): Script
  {
    if (member, folder) in f then f[(member, folder)] else NoScript
  }

  /** A run is due: it waits with the version that was allowed, and the script is the one
      that was allowed with it. */
  predicate Due(log: seq<Event>, w: Waiting, script: string)
  {
    var p, a := PendingAfter(log), ApprovedAfter(log);
    (w.member, w.folder) in p && p[(w.member, w.folder)] == w.version && w.folder in a
      && a[w.folder] == Approval(script, w.version)
  }

  /** What ran lay at the member just then, a script by whose hash it was due when a round
      began. */
  ghost predicate Right(before: seq<Event>, w: Waiting, found: Script, sum: Bytes -> string)
  {
    && found == FileAt(FilesAfter(before), w.member, w.folder)
    && ReadSetup(found).Some? && WasDue(before, w, sum(ReadSetup(found).value))
  }

  ghost predicate Safe(log: seq<Event>, sum: Bytes -> string)
  {
    log == [] ||
    var before, e := log[..|log| - 1], log[|log| - 1];
    Safe(before, sum) && (e.Ran? ==> Right(before, e.run, e.found, sum))
  }

  /** It was due when a round began that is in this log. */
  ghost predicate WasDue(log: seq<Event>, w: Waiting, script: string)
  {
    exists r :: 0 <= r < |log| && log[r] == Listed && Due(log[..r], w, script)
  }

  lemma OneMore(log: seq<Event>, e: Event)
    ensures ApprovedAfter(log + [e]) == Granted(ApprovedAfter(log), e)
    ensures PendingAfter(log + [e]) == Wait(PendingAfter(log), e)
    ensures FilesAfter(log + [e]) == Put(FilesAfter(log), e)
  {
    assert (log + [e])[..|log|] == log;
  }

  lemma DueLater(log: seq<Event>, longer: seq<Event>, w: Waiting, script: string)
    requires log <= longer && WasDue(log, w, script)
    ensures WasDue(longer, w, script)
  {
    var r :| 0 <= r < |log| && log[r] == Listed && Due(log[..r], w, script);
    assert longer[..r] == log[..r] && longer[r] == Listed;
  }

  /** A log stays safe with one event more, if that is no run, or a right one. */
  lemma SafeMore(log: seq<Event>, e: Event, sum: Bytes -> string)
    requires Safe(log, sum) && (e.Ran? ==> Right(log, e.run, e.found, sum))
    ensures Safe(log + [e], sum)
  {
    assert (log + [e])[..|log|] == log;
  }

  lemma {:induction false} SafeAt(log: seq<Event>, i: nat, sum: Bytes -> string)
    requires Safe(log, sum) && i < |log| && log[i].Ran?
    ensures Right(log[..i], log[i].run, log[i].found, sum)
    decreases |log|
  {
    var n := |log| - 1;
    if i < n {
      SafeAt(log[..n], i, sum);
      assert log[..n][..i] == log[..i];
    }
  }

  // ---- Where an approval and a wait come from

  /** From `i` on nothing was said about an approval of this folder. */
  ghost predicate Stands(log: seq<Event>, i: nat, folder: string)
  {
    forall j :: i <= j < |log| ==> log[j] != Forgotten(folder) && !(log[j].Allowed? && log[j].folder == folder)
  }

  /** From `i` on nothing was said about this folder waiting at this member. */
  ghost predicate Waits(log: seq<Event>, i: nat, member: string, folder: string)
  {
    forall j :: i <= j < |log| ==>
      log[j] != Forgotten(folder) && log[j] != Dropped(member, folder)
      && !(log[j].Expected? && log[j].member == member && log[j].folder == folder)
  }

  lemma {:induction false} ApprovalStems(log: seq<Event>, folder: string) returns (i: nat)
    requires folder in ApprovedAfter(log)
    ensures i < |log| && Stands(log, i + 1, folder)
    ensures var a := ApprovedAfter(log)[folder]; log[i] == Allowed(folder, a.script, a.version)
    decreases |log|
  {
    var n := |log| - 1;
    if log[n].Allowed? && log[n].folder == folder {
      i := n;
    } else {
      i := ApprovalStems(log[..n], folder);
      forall j | i + 1 <= j < |log|
        ensures log[j] != Forgotten(folder) && !(log[j].Allowed? && log[j].folder == folder)
      {
        assert j < n ==> log[j] == log[..n][j];
      }
    }
  }

  lemma {:induction false} WaitStems(log: seq<Event>, member: string, folder: string) returns (i: nat)
    requires (member, folder) in PendingAfter(log)
    ensures i < |log| && Waits(log, i + 1, member, folder)
    ensures log[i] == Expected(member, folder, PendingAfter(log)[(member, folder)])
    decreases |log|
  {
    var n := |log| - 1;
    if log[n].Expected? && log[n].member == member && log[n].folder == folder {
      i := n;
    } else {
      i := WaitStems(log[..n], member, folder);
      forall j | i + 1 <= j < |log|
        ensures log[j] != Forgotten(folder) && log[j] != Dropped(member, folder)
                && !(log[j].Expected? && log[j].member == member && log[j].folder == folder)
      {
        assert j < n ==> log[j] == log[..n][j];
      }
    }
  }

  /** From `i` on nothing was put in the place of this folder's script at this member. */
  ghost predicate Lies(log: seq<Event>, i: nat, member: string, folder: string)
  {
    forall j :: i <= j < |log| ==> !(log[j].Placed? && log[j].member == member && log[j].folder == folder)
  }

  lemma {:induction false} FileStems(log: seq<Event>, member: string, folder: string) returns (i: nat)
    requires (member, folder) in FilesAfter(log)
    ensures i < |log| && Lies(log, i + 1, member, folder)
    ensures log[i] == Placed(member, folder, FilesAfter(log)[(member, folder)])
    decreases |log|
  {
    var n := |log| - 1;
    if log[n].Placed? && log[n].member == member && log[n].folder == folder {
      i := n;
    } else {
      i := FileStems(log[..n], member, folder);
      forall j | i + 1 <= j < |log|
        ensures !(log[j].Placed? && log[j].member == member && log[j].folder == folder)
      {
        assert j < n ==> log[j] == log[..n][j];
      }
    }
  }

  /** Over every interleaving: what runs is the file that was last put in the place of the
      folder's script at that member, plain, executable and no longer than a script may be;
      and when a round began before it, somebody had allowed a script with the hash of that
      very file for that folder, in the version that had last arrived at that member, and
      neither had been taken back since. */
  lemma RunsOnlyWhatWasAllowed(log: seq<Event>, i: nat, sum: Bytes -> string)
    returns (round: nat, allowed: nat, arrived: nat, placed: nat)
    requires Safe(log, sum) && i < |log| && log[i].Ran?
    ensures var w, found := log[i].run, log[i].found;
      && allowed < round < i && arrived < round && log[round] == Listed
      && placed < i && log[placed] == Placed(w.member, w.folder, found)
      && Lies(log[..i], placed + 1, w.member, w.folder)
      && found.PlainFile? && found.executable && |found.data| <= 1048576
      && log[allowed] == Allowed(w.folder, sum(found.data), w.version)
      && log[arrived] == Expected(w.member, w.folder, w.version)
      && Stands(log[..round], allowed + 1, w.folder)
      && Waits(log[..round], arrived + 1, w.member, w.folder)
  {
    var w := log[i].run;
    SafeAt(log, i, sum);
    var script := sum(ReadSetup(log[i].found).value);
    round :| 0 <= round < i && log[..i][round] == Listed && Due(log[..i][..round], w, script);
    assert log[..i][..round] == log[..round];
    allowed := ApprovalStems(log[..round], w.folder);
    arrived := WaitStems(log[..round], w.member, w.folder);
    placed := FileStems(log[..i], w.member, w.folder);
  }

  // ---- What a worker tries and starts

  /** The runs that were tried, and those whose script was started, in order. */
  function Tries(log: seq<Event>): seq<Waiting>
  {
    if log == [] then [] else
    Tries(log[..|log| - 1]) + if log[|log| - 1].Tried? then [log[|log| - 1].run] else []
  }

  function Starts(log: seq<Event>): seq<Waiting>
  {
    if log == [] then [] else
    Starts(log[..|log| - 1]) + if log[|log| - 1].Ran? then [log[|log| - 1].run] else []
  }

  lemma OneMoreTry(log: seq<Event>, e: Event)
    ensures Tries(log + [e]) == Tries(log) + if e.Tried? then [e.run] else []
    ensures Starts(log + [e]) == Starts(log) + if e.Ran? then [e.run] else []
  {
    assert (log + [e])[..|log|] == log;
  }

  /** From the one log to the other no round began, and nothing was tried or started. */
  ghost predicate Idle(log: seq<Event>, longer: seq<Event>)
  {
    NoRound(log, longer) && Tries(longer) == Tries(log) && Starts(longer) == Starts(log)
  }

  ghost predicate NoRound(log: seq<Event>, longer: seq<Event>)
  {
    log <= longer && forall j :: |log| <= j < |longer| ==> longer[j] != Listed
  }

  lemma IdleStep(log: seq<Event>, longer: seq<Event>)
    requires |longer| == |log| + 1 && longer[..|log|] == log
    requires !longer[|log|].Tried? && !longer[|log|].Ran? && !longer[|log|].Listed?
    ensures Idle(log, longer)
  {
    assert longer == log + [longer[|log|]];
    OneMoreTry(log, longer[|log|]);
    assert Tries(log) + [] == Tries(log) && Starts(log) + [] == Starts(log);
  }

  lemma IdleJoined(log: seq<Event>, mid: seq<Event>, longer: seq<Event>)
    requires Idle(log, mid) && Idle(mid, longer)
    ensures Idle(log, longer)
  {
  }

  /** One run was tried in between, and its script started at most once. */
  ghost predicate OneTry(log: seq<Event>, longer: seq<Event>, w: Waiting)
  {
    && NoRound(log, longer) && Tries(longer) == Tries(log) + [w]
    && (Starts(longer) == Starts(log) || Starts(longer) == Starts(log) + [w])
  }

  ghost predicate AtMostStarted(log: seq<Event>, longer: seq<Event>, w: Waiting)
  {
    && NoRound(log, longer) && Tries(longer) == Tries(log)
    && (Starts(longer) == Starts(log) || Starts(longer) == Starts(log) + [w])
  }

  lemma TryJoined(log: seq<Event>, mid: seq<Event>, longer: seq<Event>, w: Waiting)
    requires mid == log + [Tried(w)] && AtMostStarted(mid, longer, w)
    ensures OneTry(log, longer, w)
  {
    OneMoreTry(log, Tried(w));
    assert Starts(log) + [] == Starts(log);
    RoundsJoined(log, mid, longer);
  }

  lemma RoundsJoined(log: seq<Event>, mid: seq<Event>, longer: seq<Event>)
    requires NoRound(log, mid) && NoRound(mid, longer)
    ensures NoRound(log, longer)
  {
  }

  ghost predicate NoRepeats(runs: seq<Waiting>)
  {
    forall i, j :: 0 <= i < j < |runs| ==> runs[i] != runs[j]
  }

  /** What was added to a list: these runs, each once; or some of them, none twice. */
  ghost predicate Adds(x: seq<Waiting>, y: seq<Waiting>, runs: set<Waiting>)
  {
    exists t :: y == x + t && NoRepeats(t) && forall w :: w in t <==> w in runs
  }

  ghost predicate AddsAtMost(x: seq<Waiting>, y: seq<Waiting>, runs: set<Waiting>)
  {
    exists t :: y == x + t && NoRepeats(t) && forall w :: w in t ==> w in runs
  }

  /** From the one log to the other exactly these runs were tried, each once, and none of
      them was started twice. */
  ghost predicate EachOnce(log: seq<Event>, longer: seq<Event>, runs: set<Waiting>)
  {
    Adds(Tries(log), Tries(longer), runs) && AddsAtMost(Starts(log), Starts(longer), runs)
  }

  lemma NoneYet(log: seq<Event>, longer: seq<Event>)
    requires Tries(longer) == Tries(log) && Starts(longer) == Starts(log)
    ensures EachOnce(log, longer, {})
  {
    assert Tries(longer) == Tries(log) + [] && Starts(longer) == Starts(log) + [];
  }

  lemma OnceMore(log: seq<Event>, mid: seq<Event>, longer: seq<Event>, a: set<Waiting>, b: set<Waiting>)
    requires EachOnce(log, mid, a) && EachOnce(mid, longer, b) && a !! b
    ensures EachOnce(log, longer, a + b)
  {
    AddsMore(Tries(log), Tries(mid), Tries(longer), a, b);
    AddsAtMostMore(Starts(log), Starts(mid), Starts(longer), a, b);
  }

  lemma AddsMore(x: seq<Waiting>, y: seq<Waiting>, z: seq<Waiting>, a: set<Waiting>, b: set<Waiting>)
    requires Adds(x, y, a) && Adds(y, z, b) && a !! b
    ensures Adds(x, z, a + b)
  {
    var t :| y == x + t && NoRepeats(t) && forall w :: w in t <==> w in a;
    var u :| z == y + u && NoRepeats(u) && forall w :: w in u <==> w in b;
    JoinApart(t, u, a, b);
    assert z == x + (t + u);
  }

  lemma AddsAtMostMore(x: seq<Waiting>, y: seq<Waiting>, z: seq<Waiting>, a: set<Waiting>, b: set<Waiting>)
    requires AddsAtMost(x, y, a) && AddsAtMost(y, z, b) && a !! b
    ensures AddsAtMost(x, z, a + b)
  {
    var t :| y == x + t && NoRepeats(t) && forall w :: w in t ==> w in a;
    var u :| z == y + u && NoRepeats(u) && forall w :: w in u ==> w in b;
    JoinApart(t, u, a, b);
    assert z == x + (t + u);
  }

  lemma JoinApart(t: seq<Waiting>, u: seq<Waiting>, a: set<Waiting>, b: set<Waiting>)
    requires NoRepeats(t) && NoRepeats(u) && a !! b
    requires (forall w :: w in t ==> w in a) && (forall w :: w in u ==> w in b)
    ensures NoRepeats(t + u) && forall w :: w in t + u <==> w in t || w in u
  {
    forall i, j | 0 <= i < j < |t + u|
      ensures (t + u)[i] != (t + u)[j]
    {
      if i < |t| <= j {
        assert (t + u)[i] in a && (t + u)[j] == u[j - |t|] && u[j - |t|] in u;
      }
    }
  }

  lemma TriedOnce(log: seq<Event>, longer: seq<Event>, w: Waiting)
    requires OneTry(log, longer, w)
    ensures EachOnce(log, longer, {w})
  {
    if Starts(longer) == Starts(log) {
      assert Starts(longer) == Starts(log) + [];
    }
  }

  // ---- The record

  const FOLDER_SETUP_MAX := 1048576
  const HOST := "host"

  /** readSetup: a plain executable file of a sensible size. */
  function ReadSetup(f: Script): Option<Bytes>
  {
    if f.PlainFile? && f.executable && |f.data| <= FOLDER_SETUP_MAX then Some(f.data) else None
  }

  /** The runs that wait. */
  function Runs(p: map<(string, string), Version>): set<Waiting>
  {
    set k | k in p :: Waiting(k.0, k.1, p[k])
  }

  function DueRuns(p: map<(string, string), Version>, a: map<string, Approval>): set<Waiting>
  {
    set k | k in p && k.1 in a && a[k.1].version == p[k] :: Waiting(k.0, k.1, p[k])
  }

  /** What one try comes to.  A member that can be looked at has `there` in the place of the
      script.  That is started, and noted as run, exactly when it is a plain executable file
      of at most a mebibyte with the hash that was allowed; otherwise nothing is started and
      the wait is taken back.  Of a member that cannot be looked at the wait is kept, or
      taken back with the member, which the host never is. */
  ghost predicate Tells(log: seq<Event>, longer: seq<Event>, w: Waiting, allowed: string, there: Script,
                        sum: Bytes -> string, ran: bool, looked: bool, found: Script)
  {
    && (looked ==>
          && found == there
          && if found.PlainFile? && found.executable && |found.data| <= 1048576 && sum(found.data) == allowed then
               log + [Ran(w, found)] <= longer && (w.member == "host" ==> ran)
             else !ran && longer == log + [Dropped(w.member, w.folder)])
    && (!looked ==>
          !ran && (longer == log || (w.member != "host" && longer == log + [Dropped(w.member, w.folder)])))
  }

  class Setups {
    var approved: map<string, Approval>
    var pending: map<(string, string), Version>

    /** What lies at the members, which is not the daemon's. */
    var files: map<(string, string), Script>
    ghost var log: seq<Event>

    /** The hash a script is known by, and how many more things others will do. */
    const sum: Bytes -> string
    var left: nat

    constructor (sum: Bytes -> string, left: nat)
      ensures Valid() && log == [] && this.sum == sum && this.left == left
    {
      approved, pending, files, log := map[], map[], map[], [];
      this.sum, this.left := sum, left;
    }

    /** The record and the files are what the log says, and whatever ran was right. */
    ghost predicate Valid()
      reads this
    {
      && approved == ApprovedAfter(log) && pending == PendingAfter(log) && files == FilesAfter(log)
      && Safe(log, sum)
    }

    /** expect: a folder with a script arrived at a member. */
    method Expect(member: string, name: string, version: Version) returns (allowed: bool)
      requires Valid()
      modifies this`pending, this`log
      ensures Valid() && log == old(log) + [Expected(member, name, version)]
      ensures allowed <==> name in approved && approved[name].version == version
    {
      pending := pending[(member, name) := version];
      Noted(Expected(member, name, version));
      allowed := name in approved && approved[name].version == version;
    }

    /** drop: one member's run is forgotten. */
    method Drop(member: string, name: string)
      requires Valid()
      modifies this`pending, this`log
      ensures Valid() && log == old(log) + [Dropped(member, name)] && pending == old(pending) - {(member, name)}
    {
      if (member, name) in pending {
        pending := pending - {(member, name)};
      }
      Noted(Dropped(member, name));
    }

    /** forget: everything about one folder. */
    method Forget(name: string)
      requires Valid()
      modifies this`approved, this`pending, this`log
      ensures Valid() && log == old(log) + [Forgotten(name)]
    {
      approved := approved - {name};
      ghost var was := pending;
      var rest := pending.Keys;
      while rest != {}
        invariant rest <= pending.Keys <= was.Keys && log == old(log) && approved == old(approved) - {name}
        invariant forall k :: k in pending ==> pending[k] == was[k]
        invariant forall k :: k in was && k !in rest ==> (k in pending <==> k.1 != name)
      {
        var k :| k in rest;
        rest := rest - {k};
        if k.1 == name {
          pending := pending - {k};
        }
      }
      assert pending == Unwait(was, name);
      Noted(Forgotten(name));
    }

    /** approve: one script, in one version of its folder, may run. */
    method Approve(name: string, script: string, version: Version)
      requires Valid()
      modifies this`approved, this`log
      ensures Valid() && log == old(log) + [Allowed(name, script, version)]
    {
      approved := approved[name := Approval(script, version)];
      Noted(Allowed(name, script, version));
    }

    /** due: the runs that are due now, with the scripts they were allowed with. */
    method ListDue() returns (out: seq<Waiting>, scripts: map<string, string>)
      requires Valid()
      modifies this`log
      ensures Valid() && log == old(log) + [Listed]
      ensures (set w | w in out) == DueRuns(PendingAfter(log), ApprovedAfter(log))
      ensures forall i, j :: 0 <= i < j < |out| ==> out[i] != out[j]
      ensures forall w :: w in out ==> w.folder in scripts && WasDue(log, w, scripts[w.folder])
    {
      out, scripts := [], map[];
      var flat := pending;
      var rest := flat.Keys;
      while rest != {}
        invariant rest <= flat.Keys
        invariant forall w :: w in out <==>
          (w.member, w.folder) in flat.Keys - rest && flat[(w.member, w.folder)] == w.version
          && w.folder in approved && approved[w.folder].version == w.version
        invariant forall i, j :: 0 <= i < j < |out| ==> out[i] != out[j]
        invariant forall w :: w in out ==> w.folder in scripts && scripts[w.folder] == approved[w.folder].script
        invariant forall f :: f in scripts ==> f in approved && scripts[f] == approved[f].script
      {
        var k :| k in rest;
        rest := rest - {k};
        if k.1 in approved && approved[k.1].version == flat[k] {
          out := out + [Waiting(k.0, k.1, flat[k])];
          scripts := scripts[k.1 := approved[k.1].script];
        }
      }
      ghost var was := log;
      Noted(Listed);
      forall w | w in out ensures WasDue(log, w, scripts[w.folder]) {
        assert log[..|was|] == was && log[|was|] == Listed && Due(log[..|was|], w, scripts[w.folder]);
      }
    }

    /** Somebody puts something in the place of a folder's script at a member. */
    method Place(member: string, name: string, script: Script)
      requires Valid()
      modifies this`files, this`log
      ensures Valid() && log == old(log) + [Placed(member, name, script)]
    {
      files := files[(member, name) := script];
      Noted(Placed(member, name, script));
    }

    /** ApproveFolderSetup: a person allows what the pool holds now, if it is still what they
        were shown. */
    method ApproveFolderSetup(name: string, shown: string, version: Option<Version>, script: Script) returns (ok: bool)
      requires Valid()
      modifies this`approved, this`log
      ensures Valid()
      ensures ok <==>
        && version.Some? && script.PlainFile? && script.executable && |script.data| <= 1048576
        && EqualFold(sum(script.data), TrimSpace(shown))
      ensures log == if ok then old(log) + [Allowed(name, sum(script.data), version.value)] else old(log)
    {
      if version.None? {
        return false;
      }
      var data := ReadSetup(script);
      if data.None? || !EqualFold(sum(data.value), TrimSpace(shown)) {
        return false;
      }
      Approve(name, sum(data.value), version.value);
      ok := true;
    }

    /** A folder was delivered: with a script that can run it waits in the version the pool
        holds, and without one it takes back what the old version waited for. */
    method Arrived(member: string, name: string, version: Option<Version>)
      requires Valid()
      modifies this`pending, this`log
      ensures Valid()
      ensures var script := FileAt(files, member, name);
        log == old(log) + if !(script.PlainFile? && script.executable) then [Dropped(member, name)]
                          else if version.Some? then [Expected(member, name, version.value)] else []
    {
      var script := FileAt(files, member, name);
      if !(script.PlainFile? && script.executable) {
        Drop(member, name);
      } else if version.Some? {
        var _ := Expect(member, name, version.value);
      }
    }

    /** What the rest of the daemon does to the record meanwhile, and everybody to their own
        files: anything but run a script, since there is one worker. */
    method Others()
      requires Valid()
      modifies this
      ensures Valid() && Idle(old(log), log) && left <= old(left)
      ensures left == old(left) ==>
        log == old(log) && pending == old(pending) && approved == old(approved)
    {
      var more: bool := *;
      while more && left > 0
        invariant Valid() && Idle(old(log), log) && left <= old(left)
        invariant left == old(left) ==>
        log == old(log) && pending == old(pending) && approved == old(approved)
        decreases left
      {
        ghost var mid := log;
        left := left - 1;
        Other();
        IdleJoined(old(log), mid, log);
        more := *;
      }
    }

    /** One such thing. */
    method Other()
      requires Valid()
      modifies this`approved, this`pending, this`files, this`log
      ensures Valid() && Idle(old(log), log)
    {
      var m: string, f: string, v: Version, c: int := *, *, *, *;
      if c == 1 {
        var _ := Expect(m, f, v);
      } else if c == 2 {
        Drop(m, f);
      } else if c == 3 {
        Forget(f);
      } else if c == 4 {
        var script: Script := *;
        Place(m, f, script);
      } else {
        var script: string := *;
        Approve(f, script, v);
      }
      IdleStep(old(log), log);
    }

    /** runFolderSetup: one due run, where its folder now lives; whether it got as far as
        running it.  `looked` says that the member was there to be looked at, and `found`
        what lay there in the place of the script. */
    method RunFolderSetup(w: Waiting, allowed: string) returns (ran: bool, looked: bool, found: Script)
      requires Valid() && WasDue(log, w, allowed)
      modifies this
      ensures Valid() && OneTry(old(log), log, w) && left <= old(left)
      ensures left == old(left) ==> Runs(pending) <= old(Runs(pending))
      ensures Tells(old(log) + [Tried(w)], log, w, allowed, FileAt(old(files), w.member, w.folder), sum, ran, looked,
                    found)
      ensures ran ==> (w.member, w.folder) !in pending
    {
      Noted(Tried(w));
      DueLater(old(log), log, w, allowed);
      ghost var mid := log;
      ran, looked, found := TryRun(w, allowed);
      TryJoined(old(log), mid, log, w);
    }

    /** Whether the member can be looked at is open. */
    method TryRun(w: Waiting, allowed: string) returns (ran: bool, looked: bool, found: Script)
      requires Valid() && WasDue(log, w, allowed)
      modifies this
      ensures Valid() && AtMostStarted(old(log), log, w) && left <= old(left)
      ensures left == old(left) ==> Runs(pending) <= old(Runs(pending))
      ensures Tells(old(log), log, w, allowed, FileAt(old(files), w.member, w.folder), sum, ran, looked, found)
      ensures ran ==> (w.member, w.folder) !in pending
    {
      var there, gone: bool := *, *;
      looked, found := false, NoScript;
      FewerRuns(pending, (w.member, w.folder));
      if w.member != HOST && gone {
        Drop(w.member, w.folder);
        IdleStep(old(log), log);
        return false, looked, found;
      }
      if !there {
        return false, looked, found;
      }
      looked, found := true, FileAt(files, w.member, w.folder);
      var data := ReadSetup(found);
      if data.None? || sum(data.value) != allowed {
        Drop(w.member, w.folder);
        IdleStep(old(log), log);
        return false, looked, found;
      }
      ran := Start(w, found);
    }

    /** The run itself, which takes its time, and whether the member was there for it. */
    method Start(w: Waiting, found: Script) returns (ran: bool)
      requires Valid() && Right(log, w, found, sum)
      modifies this
      ensures Valid() && NoRound(old(log), log) && Tries(log) == Tries(old(log)) && left <= old(left)
      ensures Starts(log) == Starts(old(log)) + [w] && old(log) + [Ran(w, found)] <= log
      ensures (w.member == "host" ==> ran) && (ran ==> (w.member, w.folder) !in pending)
      ensures left == old(left) ==> Runs(pending) <= old(Runs(pending))
    {
      ghost var was := pending;
      Noted(Ran(w, found));
      assert pending == was && Valid();
      Others();
      ran := Finish(w);
    }

    /** A member that went away under the run is asked again; any other run is done with. */
    method Finish(w: Waiting) returns (ran: bool)
      requires Valid()
      modifies this`pending, this`log
      ensures Valid() && Idle(old(log), log) && Runs(pending) <= old(Runs(pending))
      ensures (w.member == "host" ==> ran) && (ran ==> (w.member, w.folder) !in pending)
    {
      var reached: bool := *;
      if w.member != HOST && !reached {
        return false;
      }
      FewerRuns(pending, (w.member, w.folder));
      Drop(w.member, w.folder);
      IdleStep(old(log), log);
      ran := true;
    }

    /** settle: rounds until one runs nothing.  No waiting run is tried or started twice, and
        of what was due when the last round began everything has been tried.  It ends as soon
        as nothing new arrives. */
    method Settle() returns (ghost tried: set<Waiting>, ghost last: nat)
      requires Valid()
      modifies this
      ensures Valid() && old(log) <= log
      ensures EachOnce(old(log), log, tried)
      ensures |old(log)| <= last && LastRound(log, last)
      ensures forall w, script :: Due(log[..last], w, script) ==> w in tried
    {
      var done: set<Waiting> := {};
      NoneYet(log, log);
      while true
        invariant Valid() && old(log) <= log && EachOnce(old(log), log, done)
        decreases left, Runs(pending) - done
      {
        ghost var before, early, was, start := left, Runs(pending) - done, done, log;
        var ran, due;
        ran, due, last := ListAndRun(done);
        done := done + set w | w in due;
        OnceMore(old(log), start, log, was, (set w | w in due) - was);
        assert done == was + ((set w | w in due) - was);
        if !ran {
          tried := done;
          return;
        }
        if left == before {
          Shrinks(early, Runs(pending), was, set w | w in due);
        }
      }
    }

    /** What is due, and a round over it. */
    method ListAndRun(done: set<Waiting>) returns (ran: bool, due: seq<Waiting>, ghost last: nat)
      requires Valid()
      modifies this
      ensures Valid() && old(log) <= log && left <= old(left)
      ensures EachOnce(old(log), log, (set w | w in due) - done)
      ensures |old(log)| <= last && LastRound(log, last) && AllOf(log[..last], due)
      ensures left == old(left) ==> Runs(pending) <= old(Runs(pending))
      ensures ran ==> exists w :: w in due && w !in done && (left == old(left) ==> w in old(Runs(pending)))
    {
      ghost var mid;
      var scripts;
      due, scripts, mid := ListAfterOthers();
      ghost var listed := log;
      ran := Round(due, scripts, done);
      last := |mid|;
      RoundJoined(old(log), mid, listed, log, (set w | w in due) - done);
    }

    method ListAfterOthers() returns (due: seq<Waiting>, scripts: map<string, string>, ghost mid: seq<Event>)
      requires Valid()
      modifies this
      ensures Valid() && Idle(old(log), mid) && log == mid + [Listed] && left <= old(left)
      ensures AllOf(mid, due)
      ensures forall w :: w in due ==> w.folder in scripts && WasDue(log, w, scripts[w.folder])
      ensures left == old(left) ==> pending == old(pending) && forall w :: w in due ==> w in old(Runs(pending))
    {
      Others();
      mid := log;
      due, scripts := ListDue();
      DueIsListed(mid, due);
      DueIsWaiting(mid, due);
    }

    /** One round over the runs that were due when it began: each of them is tried once,
        unless it was before. */
    method Round(due: seq<Waiting>, scripts: map<string, string>, tried: set<Waiting>) returns (ran: bool)
      requires Valid() && forall w :: w in due ==> w.folder in scripts && WasDue(log, w, scripts[w.folder])
      modifies this
      ensures Valid() && NoRound(old(log), log) && left <= old(left)
      ensures EachOnce(old(log), log, (set w | w in due) - tried)
      ensures left == old(left) ==> Runs(pending) <= old(Runs(pending))
      ensures ran ==> exists w :: w in due && w !in tried
    {
      ran := false;
      var i, seen := 0, tried;
      NoneYet(log, log);
      assert seen - tried == {};
      while i < |due|
        invariant i <= |due| && Valid() && NoRound(old(log), log) && left <= old(left)
        invariant left == old(left) ==> Runs(pending) <= old(Runs(pending))
        invariant seen == tried + set w | w in due[..i]
        invariant EachOnce(old(log), log, seen - tried)
        invariant ran ==> exists w :: w in due && w !in tried
      {
        ghost var was, had := log, seen - tried;
        assert due[..i + 1] == due[..i] + [due[i]];
        if due[i] !in seen {
          seen := seen + {due[i]};
          DueLater(old(log), log, due[i], scripts[due[i].folder]);
          var r, _, _ := RunFolderSetup(due[i], scripts[due[i].folder]);
          TriedOnce(was, log, due[i]);
          OnceMore(old(log), was, log, had, {due[i]});
          assert seen - tried == had + {due[i]};
          ran := ran || r;
        }
        i := i + 1;
      }
      assert due[..|due|] == due;
      assert seen - tried == (set w | w in due) - tried;
    }

    /** The log, which only the proofs read, has one event more. */
    ghost method Noted(e: Event)
      requires Safe(log, sum) && (e.Ran? ==> Right(log, e.run, e.found, sum))
      modifies this`log
      ensures log == old(log) + [e] && Safe(log, sum)
      ensures ApprovedAfter(log) == Granted(ApprovedAfter(old(log)), e)
      ensures PendingAfter(log) == Wait(PendingAfter(old(log)), e)
      ensures FilesAfter(log) == Put(FilesAfter(old(log)), e)
      ensures Tries(log) == Tries(old(log)) + if e.Tried? then [e.run] else []
      ensures Starts(log) == Starts(old(log)) + if e.Ran? then [e.run] else []
    {
      SafeMore(log, e, sum);
      OneMore(log, e);
      OneMoreTry(log, e);
      log := log + [e];
    }
  }

  /** The last round that began is this one. */
  ghost predicate LastRound(log: seq<Event>, last: nat)
  {
    last < |log| && log[last] == Listed && NoRound(log[..last + 1], log)
  }

  /** Nothing that counts, the begin of a round, and the round. */
  lemma RoundJoined(log: seq<Event>, mid: seq<Event>, listed: seq<Event>, longer: seq<Event>, runs: set<Waiting>)
    requires Idle(log, mid) && listed == mid + [Listed] && NoRound(listed, longer) && EachOnce(listed, longer, runs)
    ensures EachOnce(log, longer, runs) && |log| <= |mid| && log <= longer
    ensures |mid| < |longer| && longer[..|mid|] == mid && LastRound(longer, |mid|)
  {
    OneMoreTry(mid, Listed);
    assert Tries(mid) + [] == Tries(mid) && Starts(mid) + [] == Starts(mid);
    assert longer[..|mid|] == mid && longer[..|mid| + 1] == listed;
  }

  lemma DueIsWaiting(log: seq<Event>, due: seq<Waiting>)
    requires (set w | w in due) == DueRuns(PendingAfter(log + [Listed]), ApprovedAfter(log + [Listed]))
    ensures forall w :: w in due ==> w in Runs(PendingAfter(log))
  {
    OneMore(log, Listed);
    forall w | w in due
      ensures w in Runs(PendingAfter(log))
    {
      assert w in DueRuns(PendingAfter(log), ApprovedAfter(log));
    }
  }

  /** Everything that is due is in the list. */
  ghost predicate AllOf(log: seq<Event>, due: seq<Waiting>)
  {
    forall w, script :: Due(log, w, script) ==> w in due
  }

  lemma DueIsListed(log: seq<Event>, due: seq<Waiting>)
    requires (set w | w in due) == DueRuns(PendingAfter(log + [Listed]), ApprovedAfter(log + [Listed]))
    ensures AllOf(log, due)
  {
    OneMore(log, Listed);
    forall w, script | Due(log, w, script)
      ensures w in due
    {
      var k := (w.member, w.folder);
      assert Waiting(k.0, k.1, PendingAfter(log)[k]) == w;
      assert w in DueRuns(PendingAfter(log), ApprovedAfter(log));
      assert w in set v | v in due;
    }
  }

  lemma FewerRuns(p: map<(string, string), Version>, k: (string, string))
    ensures Runs(p - {k}) <= Runs(p)
  {
  }

  lemma Shrinks(early: set<Waiting>, now: set<Waiting>, tried: set<Waiting>, due: set<Waiting>)
    requires exists w :: w in due && w in early && w !in tried
    requires forall w :: w in now && w !in tried ==> w in early
    ensures now - (tried + due) < early
  {
  }
}
