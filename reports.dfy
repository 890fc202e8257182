/** The reports service: registered report scripts, the runs started from
    them, and the WebSocket subscribers of each run, all kept in memory. A
    run goes `pending → running → completed | failed`; a running run may be
    marked `cancelled`. Time, run ids and the outcome of sending to a
    socket are parameters. */
module Reports {
  import opened Base
  import opened Text
  import opened ODict
  import opened Sorting

  datatype ReportScript = ReportScript(scriptId: string, name: string, description: string, scriptPath: string,
                                       category: string, timeout: int)

  datatype ReportRun = ReportRun(runId: string, scriptId: string, target: string, status: string, startedAt: int,
                                 completedAt: Option<int>, exitCode: Option<int>, output: string)

  /** A WebSocket connection, by identity. */
  type Conn = int

  /** What the agent call of a run produced: the agent was not found, the
      script finished with the result's `exit_code` and `output` entries,
      or the call raised an error. */
  datatype AgentOutcome = AgentMissing | Finished(exitCode: Option<int>, output: Option<string>) | Raised(error: string)

  /** The answer of `run_report`. */
  datatype RunStarted = RunStarted(runId: string, status: string, wsUrl: string)

  /** A message pushed to a subscriber. */
  datatype WsMessage = OutputMessage(data: string) | CompleteMessage(status: string, exitCode: Option<int>)

  predicate Distinct<T(==)>(s: seq<T>)
  {
    forall i, j :: 0 <= i < j < |s| ==> s[i] != s[j]
  }

  /** The connections of `s` not in `drop`, in order. */
  function Keep(s: seq<Conn>, drop: set<Conn>): (r: seq<Conn>)
    ensures forall c :: c in r <==> c in s && c !in drop
    ensures |r| <= |s|
  {
    if s == [] then [] else (if s[0] in drop then [] else [s[0]]) + Keep(s[1..], drop)
  }

  /** `s.remove(x)` when present: the first occurrence goes. */
  function RemoveFirst(s: seq<Conn>, x: Conn): (r: seq<Conn>)
    ensures x !in s ==> r == s
  {
    if s == [] then [] else if s[0] == x then s[1..] else [s[0]] + RemoveFirst(s[1..], x)
  }

  lemma {:induction false} KeepIgnores(s: seq<Conn>, drop: set<Conn>, x: Conn)
    requires x !in s
    ensures Keep(s, drop + {x}) == Keep(s, drop)
  {
    if s != [] {
      KeepIgnores(s[1..], drop, x);
    }
  }

  lemma {:induction false} KeepSame(s: seq<Conn>, d1: set<Conn>, d2: set<Conn>)
    requires forall i :: 0 <= i < |s| ==> (s[i] in d1 <==> s[i] in d2)
    ensures Keep(s, d1) == Keep(s, d2)
  {
    if s != [] {
      assert forall i :: 0 <= i < |s[1..]| ==> s[1..][i] == s[i + 1];
      KeepSame(s[1..], d1, d2);
    }
  }

  /** On a list without repeats, removing one more connection is keeping
      the others. */
  lemma {:induction false} RemoveFromKeep(s: seq<Conn>, drop: set<Conn>, x: Conn)
    requires Distinct(s)
    ensures RemoveFirst(Keep(s, drop), x) == Keep(s, drop + {x})
  {
    if s != [] {
      assert Distinct(s[1..]) by {
        forall i, j | 0 <= i < j < |s[1..]| ensures s[1..][i] != s[1..][j] {
          assert s[1..][i] == s[i + 1] && s[1..][j] == s[j + 1];
        }
      }
      if s[0] == x {
        assert x !in s[1..] by {
          forall i | 0 <= i < |s[1..]| ensures s[1..][i] != x {
            assert s[1..][i] == s[i + 1];
          }
        }
        KeepIgnores(s[1..], drop, x);
        if x !in drop {
          assert Keep(s, drop) == [x] + Keep(s[1..], drop);
        } else {
          assert x !in Keep(s, drop);
        }
      } else {
        RemoveFromKeep(s[1..], drop, x);
        if s[0] in drop {
          assert Keep(s, drop) == Keep(s[1..], drop);
        } else {
          assert Keep(s, drop) == [s[0]] + Keep(s[1..], drop);
        }
      }
    }
  }

  lemma {:induction false} KeepDistinct(s: seq<Conn>, drop: set<Conn>)
    requires Distinct(s)
    ensures Distinct(Keep(s, drop))
  {
    if s != [] {
      assert Distinct(s[1..]) by {
        forall i, j | 0 <= i < j < |s[1..]| ensures s[1..][i] != s[1..][j] {
          assert s[1..][i] == s[i + 1] && s[1..][j] == s[j + 1];
        }
      }
      KeepDistinct(s[1..], drop);
      assert s[0] !in s[1..] by {
        forall i | 0 <= i < |s[1..]| ensures s[1..][i] != s[0] {
          assert s[1..][i] == s[i + 1];
        }
      }
      assert s[0] !in Keep(s[1..], drop);
    }
  }

  /** The runs by start time, latest first, cut to `limit` as a Python
      slice `[:limit]` cuts. */
  function History(runs: Dict<string, ReportRun>, limit: int): (r: seq<ReportRun>)
  {
    Slice(SortDesc(Values(runs), (run: ReportRun) => run.startedAt), 0, limit)
  }

  lemma PrefixSorted(s: seq<ReportRun>, b: nat, key: ReportRun -> int)
    requires b <= |s| && SortedDesc(s, key)
    ensures SortedDesc(s[..b], key)
  {
    forall i, j | 0 <= i < j < b ensures key(s[..b][i]) >= key(s[..b][j]) {
      assert s[..b][i] == s[i] && s[..b][j] == s[j];
    }
  }

  lemma PrefixMultiset(s: seq<ReportRun>, b: nat)
    requires b <= |s|
    ensures multiset(s[..b]) <= multiset(s)
    ensures b == |s| ==> multiset(s[..b]) == multiset(s)
  {
    assert s == s[..b] + s[b..];
  }

  /** The history is ordered latest first and holds only stored runs; every
      stored run left out started no later than every run kept, so the kept
      runs are the most recent ones; with a limit of at least the number of
      runs it holds all of them. */
  lemma HistoryProps(runs: Dict<string, ReportRun>, limit: int)
    ensures SortedDesc(History(runs, limit), (run: ReportRun) => run.startedAt)
    ensures multiset(History(runs, limit)) <= multiset(Values(runs))
    ensures forall r, s :: r in History(runs, limit) && s in multiset(Values(runs)) - multiset(History(runs, limit)) ==>
      s.startedAt <= r.startedAt
    ensures limit >= |runs| ==> multiset(History(runs, limit)) == multiset(Values(runs))
  {
    var key := (run: ReportRun) => run.startedAt;
    var sorted := SortDesc(Values(runs), key);
    SortDescCorrect(Values(runs), key);
    var b := ClampIndex(limit, |sorted|);
    assert History(runs, limit) == sorted[..b];
    PrefixSorted(sorted, b, key);
    PrefixMultiset(sorted, b);
    PrefixNewest(sorted, b, key);
  }

  /** In a list sorted latest first, every entry after the first `b`
      has a key no greater than each of the first `b`. */
  lemma PrefixNewest(s: seq<ReportRun>, b: nat, key: ReportRun -> int)
    requires b <= |s| && SortedDesc(s, key)
    ensures forall r, t :: r in s[..b] && t in multiset(s) - multiset(s[..b]) ==> key(t) <= key(r)
  {
    assert s == s[..b] + s[b..];
    assert multiset(s) - multiset(s[..b]) == multiset(s[b..]);
    forall r, t | r in s[..b] && t in multiset(s) - multiset(s[..b]) ensures key(t) <= key(r) {
      assert t in s[b..];
      var i :| 0 <= i < b && s[..b][i] == r;
      var j :| 0 <= j < |s[b..]| && s[b..][j] == t;
      assert s[i] == r && s[b + j] == t;
    }
  }

  /** The history has `limit` entries when that many runs exist, none for
      a limit of zero, and all but the last `-limit` for a negative one. */
  lemma HistoryLength(runs: Dict<string, ReportRun>, limit: int)
    ensures 0 <= limit <= |runs| ==> |History(runs, limit)| == limit
    ensures limit >= |runs| ==> |History(runs, limit)| == |runs|
    ensures limit < 0 ==> |History(runs, limit)| == if |runs| + limit < 0 then 0 else |runs| + limit
  {
    var key := (run: ReportRun) => run.startedAt;
    var sorted := SortDesc(Values(runs), key);
    assert |sorted| == |runs|;
    assert History(runs, limit) == sorted[..ClampIndex(limit, |sorted|)];
  }

  /** What a new subscriber is sent first: the output so far, if any, and
      the final status of a finished run. */
  function Greeting(run: Option<ReportRun>): seq<WsMessage>
  {
    (if run.Some? && run.value.output != "" then [OutputMessage(run.value.output)] else []) +
    (if run.Some? && (run.value.status == "completed" || run.value.status == "failed")
     then [CompleteMessage(run.value.status, run.value.exitCode)] else [])
  }

  /** What a new subscriber learns: at most the stored output, which is
      sent only when there is some and always first, and the completion,
      which is sent only for a finished run, always last and carrying that
      run's status and exit code. A subscriber of an unknown run, or of an
      unfinished run with no output yet, is sent nothing. */
  lemma {:induction false} GreetingProps(run: Option<ReportRun>)
    ensures var g := Greeting(run);
      |g| <= 2 &&
      ((exists i :: 0 <= i < |g| && g[i].OutputMessage?) <==> run.Some? && run.value.output != "") &&
      (forall i :: 0 <= i < |g| && g[i].OutputMessage? ==> i == 0 && g[i].data == run.value.output) &&
      ((exists i :: 0 <= i < |g| && g[i].CompleteMessage?) <==>
         run.Some? && (run.value.status == "completed" || run.value.status == "failed")) &&
      (forall i :: 0 <= i < |g| && g[i].CompleteMessage? ==>
         i == |g| - 1 && g[i] == CompleteMessage(run.value.status, run.value.exitCode))
  {
    var g := Greeting(run);
    if run.Some? && run.value.output != "" {
      assert g[0].OutputMessage?;
    }
    if run.Some? && (run.value.status == "completed" || run.value.status == "failed") {
      assert g[|g| - 1].CompleteMessage?;
    }
  }

  /** The two loops of `_async_broadcast` over one run's subscribers: the
      first collects those whose send failed, the second removes each of
      them with `list.remove`. What is left is the subscribers that did not
      fail, in their original order. */
  method DropDead(subscribers: seq<Conn>, failed: set<Conn>) returns (left: seq<Conn>)
    requires Distinct(subscribers)
    ensures left == Keep(subscribers, failed)
  {
    var dead: seq<Conn> := [];
    var i := 0;
    while i < |subscribers|
      invariant 0 <= i <= |subscribers|
      invariant forall c :: c in dead <==> c in subscribers[..i] && c in failed
    {
      assert subscribers[..i + 1] == subscribers[..i] + [subscribers[i]];
      if subscribers[i] in failed {
        dead := dead + [subscribers[i]];
      }
      i := i + 1;
    }
    assert subscribers[..i] == subscribers;
    var j := 0;
    left := subscribers;
    ghost var gone: set<Conn> := {};
    KeepNone(subscribers);
    while j < |dead|
      invariant 0 <= j <= |dead|
      invariant forall c :: c in gone <==> c in dead[..j]
      invariant left == Keep(subscribers, gone)
    {
      RemoveFromKeep(subscribers, gone, dead[j]);
      assert dead[..j + 1] == dead[..j] + [dead[j]];
      left := RemoveFirst(left, dead[j]);
      gone := gone + {dead[j]};
      j := j + 1;
    }
    assert dead[..j] == dead;
    KeepCollected(subscribers, dead, gone, failed);
  }

  /** Dropping the failed subscribers collected in `dead` is dropping the
      failed ones. */
  lemma KeepCollected(s: seq<Conn>, dead: seq<Conn>, gone: set<Conn>, failed: set<Conn>)
    requires forall c :: c in dead <==> c in s && c in failed
    requires forall c :: c in gone <==> c in dead
    ensures Keep(s, gone) == Keep(s, failed)
  {
    forall i | 0 <= i < |s| ensures s[i] in gone <==> s[i] in failed {
      var c := s[i];
      assert c in s;
      assert c in gone <==> c in dead;
      assert c in dead <==> c in failed;
    }
    KeepSame(s, gone, failed);
  }

  /** The in-memory registries of the reports service. */
  class ReportService {
    var scripts: Dict<string, ReportScript>
    var runs: Dict<string, ReportRun>
    var conns: map<string, seq<Conn>>

    /** The registries are dictionaries, and no connection is subscribed
        twice to a run. */
    ghost predicate Valid()
      reads this
    {
      DistinctKeys(scripts) && DistinctKeys(runs) && forall id :: id in conns ==> Distinct(conns[id])
    }

    constructor()
      ensures scripts == [] && runs == [] && conns == map[] && Valid()
    {
      scripts := [];
      runs := [];
      conns := map[];
    }

    /** `register_report_script`: the script is stored under its id,
        replacing any earlier one; its name defaults to the id. */
    method Register(scriptId: string, name: Option<string>, description: string, scriptPath: string,
                    category: string, timeout: int) returns (script: ReportScript)
      requires Valid()
      modifies this
      ensures Valid()
      ensures script == ReportScript(scriptId, if Truthy(name) then name.value else scriptId, description, scriptPath, category, timeout)
      ensures scripts == Set(old(scripts), scriptId, script)
      ensures Get(scripts, scriptId) == Some(script)
      ensures forall k :: k != scriptId ==> Get(scripts, k) == Get(old(scripts), k)
      ensures runs == old(runs) && conns == old(conns)
    {
      script := ReportScript(scriptId, if Truthy(name) then name.value else scriptId, description, scriptPath, category, timeout);
      SetProps(scripts, scriptId, script);
      scripts := Set(scripts, scriptId, script);
    }

    /** `unregister_report_script`: 404 for an unknown id; otherwise only
        that script goes. */
    method Unregister(scriptId: string) returns (r: Outcome<string>)
      requires Valid()
      modifies this
      ensures Valid()
      ensures r.Ok? <==> HasKey(old(scripts), scriptId)
      ensures r.Fail? ==> r == Fail(404, "Report script not found") && scripts == old(scripts)
      ensures r.Ok? ==> (r.value == scriptId && scripts == Remove(old(scripts), scriptId) &&
        Get(scripts, scriptId) == None && forall k :: k != scriptId ==> Get(scripts, k) == Get(old(scripts), k))
      ensures runs == old(runs) && conns == old(conns)
    {
      if !HasKey(scripts, scriptId) {
        return Fail(404, "Report script not found");
      }
      RemoveProps(scripts, scriptId);
      scripts := Remove(scripts, scriptId);
      r := Ok(scriptId);
    }

    /** `run_report`: 404 for an unknown script; otherwise a `pending` run
        started at `now` is recorded under `runId` and its stream address
        returned. */
    method RunReport(scriptId: string, target: string, runId: string, now: int) returns (r: Outcome<RunStarted>)
      requires Valid()
      modifies this
      ensures Valid()
      ensures r.Ok? <==> HasKey(old(scripts), scriptId)
      ensures r.Fail? ==> r == Fail(404, "Report script '" + scriptId + "' not found") && runs == old(runs)
      ensures r.Ok? ==>
        r.value == RunStarted(runId, "started", "/api/reports/ws/" + runId) &&
        runs == Set(old(runs), runId, ReportRun(runId, scriptId, target, "pending", now, None, None, "")) &&
        Get(runs, runId) == Some(ReportRun(runId, scriptId, target, "pending", now, None, None, ""))
      ensures scripts == old(scripts) && conns == old(conns)
    {
      if !HasKey(scripts, scriptId) {
        return Fail(404, "Report script '" + scriptId + "' not found");
      }
      var run := ReportRun(runId, scriptId, target, "pending", now, None, None, "");
      SetProps(runs, runId, run);
      runs := Set(runs, runId, run);
      r := Ok(RunStarted(runId, "started", "/api/reports/ws/" + runId));
    }

    /** `_async_broadcast`: every subscriber is sent the message; those
        whose send fails (`failed`) are removed afterwards, the others kept
        in order. A run without a subscriber list is left alone. */
    method Broadcast(runId: string, failed: set<Conn>)
      requires Valid()
      modifies this
      ensures Valid()
      ensures runId in old(conns) ==> conns == old(conns)[runId := Keep(old(conns)[runId], failed)]
      ensures runId !in old(conns) ==> conns == old(conns)
      ensures scripts == old(scripts) && runs == old(runs)
    {
      if runId !in conns {
        return;
      }
      var subscribers := conns[runId];
      assert Distinct(subscribers);
      var left := DropDead(subscribers, failed);
      KeepDistinct(subscribers, failed);
      conns := conns[runId := left];
    }

    /** The first half of `_execute_report`: a known run becomes
        `running`. The agent call that follows is awaited, so other
        handlers (a cancel among them) may run before `FinishRun`. */
    method StartRun(runId: string)
      requires Valid()
      modifies this
      ensures Valid()
      ensures Get(old(runs), runId).Some? ==> runs == Set(old(runs), runId, Get(old(runs), runId).value.(status := "running"))
      ensures Get(old(runs), runId).None? ==> runs == old(runs)
      ensures scripts == old(scripts) && conns == old(conns)
    {
      var run := Get(runs, runId);
      if run.Some? {
        SetProps(runs, runId, run.value.(status := "running"));
        runs := Set(runs, runId, run.value.(status := "running"));
      }
    }

    /** The second half of `_execute_report`: the run becomes `completed`
        with the result's exit code (0 when absent) and output, or `failed`
        with the error text; either way it is stamped `now` and the
        subscribers are told, dropping those that cannot be reached. The
        status is assigned whatever it has become meanwhile. */
    method FinishRun(runId: string, outcome: AgentOutcome, now: int, failed: set<Conn>)
      requires Valid()
      modifies this
      ensures Valid()
      ensures Get(old(runs), runId).Some? ==>
        var run := Get(old(runs), runId).value;
        var done := match outcome
          case Finished(code, out) => run.(status := "completed", exitCode := Some(code.GetOr(0)), output := out.GetOr(""), completedAt := Some(now))
          case AgentMissing => run.(status := "failed", output := "Agent '" + run.target + "' not found or offline", completedAt := Some(now))
          case Raised(e) => run.(status := "failed", output := e, completedAt := Some(now));
        runs == Set(old(runs), runId, done) &&
        (runId in old(conns) ==> conns == old(conns)[runId := Keep(old(conns)[runId], failed)]) &&
        (runId !in old(conns) ==> conns == old(conns))
      ensures Get(old(runs), runId).None? ==> runs == old(runs) && conns == old(conns)
      ensures scripts == old(scripts)
    {
      var found := Get(runs, runId);
      if found.None? {
        return;
      }
      var run := found.value;
      var done := match outcome
        case Finished(code, out) => run.(status := "completed", exitCode := Some(code.GetOr(0)), output := out.GetOr(""), completedAt := Some(now))
        case AgentMissing => run.(status := "failed", output := "Agent '" + run.target + "' not found or offline", completedAt := Some(now))
        case Raised(e) => run.(status := "failed", output := e, completedAt := Some(now));
      SetProps(runs, runId, done);
      runs := Set(runs, runId, done);
      Broadcast(runId, failed);
    }

    /** `cancel_report`: 404 for an unknown run; only a running run becomes
        `cancelled` (stamped `now`, subscribers told); the answer says
        cancelled in every other case too. */
    method Cancel(runId: string, now: int, failed: set<Conn>) returns (r: Outcome<string>)
      requires Valid()
      modifies this
      ensures Valid()
      ensures r.Ok? <==> Get(old(runs), runId).Some?
      ensures r.Fail? ==> r == Fail(404, "Report run not found") && runs == old(runs) && conns == old(conns)
      ensures r.Ok? ==> r.value == "cancelled"
      ensures r.Ok? && Get(old(runs), runId).value.status == "running" ==>
        runs == Set(old(runs), runId, Get(old(runs), runId).value.(status := "cancelled", completedAt := Some(now))) &&
        (runId in old(conns) ==> conns == old(conns)[runId := Keep(old(conns)[runId], failed)]) &&
        (runId !in old(conns) ==> conns == old(conns))
      ensures r.Ok? && Get(old(runs), runId).value.status != "running" ==> runs == old(runs) && conns == old(conns)
      ensures scripts == old(scripts)
    {
      var found := Get(runs, runId);
      if found.None? {
        return Fail(404, "Report run not found");
      }
      var run := found.value;
      if run.status == "running" {
        var stopped := run.(status := "cancelled", completedAt := Some(now));
        SetProps(runs, runId, stopped);
        runs := Set(runs, runId, stopped);
        Broadcast(runId, failed);
      }
      r := Ok("cancelled");
    }

    /** A WebSocket connecting to `report_output_stream` is appended to the
        run's subscribers (a list is made for a new run id); `c` is a new
        connection. It is then sent `sent`: the run's `Greeting`. */
    method Connect(runId: string, c: Conn) returns (sent: seq<WsMessage>)
      requires Valid()
      requires runId in conns ==> c !in conns[runId]
      modifies this
      ensures Valid()
      ensures conns == old(conns)[runId := (if runId in old(conns) then old(conns)[runId] else []) + [c]]
      ensures scripts == old(scripts) && runs == old(runs)
      ensures sent == Greeting(Get(runs, runId))
    {
      var subscribers := if runId in conns then conns[runId] else [];
      conns := conns[runId := subscribers + [c]];
      var run := Get(runs, runId);
      sent := [];
      if run.Some? && run.value.output != "" {
        sent := sent + [OutputMessage(run.value.output)];
      }
      if run.Some? && (run.value.status == "completed" || run.value.status == "failed") {
        sent := sent + [CompleteMessage(run.value.status, run.value.exitCode)];
      }
    }

    /** On leaving the stream, the connection is removed if still
        subscribed; every other subscriber stays, in order. */
    method Disconnect(runId: string, c: Conn)
      requires Valid()
      modifies this
      ensures Valid()
      ensures runId in old(conns) ==> conns == old(conns)[runId := Keep(old(conns)[runId], {c})]
      ensures runId !in old(conns) ==> conns == old(conns)
      ensures scripts == old(scripts) && runs == old(runs)
    {
      if runId in conns {
        var subscribers := conns[runId];
        KeepNone(subscribers);
        if c in subscribers {
          RemoveFromKeep(subscribers, {}, c);
          assert {} + {c} == {c};
          KeepDistinct(subscribers, {c});
          conns := conns[runId := RemoveFirst(subscribers, c)];
        } else {
          KeepIgnores(subscribers, {}, c);
          assert {} + {c} == {c};
        }
      }
    }
  }

  lemma {:induction false} KeepNone(s: seq<Conn>)
    ensures Keep(s, {}) == s
  {
    if s != [] {
      KeepNone(s[1..]);
    }
  }

  /** A cancel that lands while the agent call is awaited is overwritten
      when the run finishes: cancelling does not stop a run. */
  method CancelThenFinish(service: ReportService, runId: string, now: int, later: int, code: int)
    requires service.Valid() && Get(service.runs, runId).Some? && Get(service.runs, runId).value.status == "running"
    modifies service
    ensures Get(service.runs, runId).Some? && Get(service.runs, runId).value.status == "completed"
  {
    var running := Get(service.runs, runId).value;
    var cancelled := running.(status := "cancelled", completedAt := Some(now));
    var r := service.Cancel(runId, now, {});
    SetProps(old(service.runs), runId, cancelled);
    assert Get(service.runs, runId) == Some(cancelled);
    var finished := cancelled.(status := "completed", exitCode := Some(code), output := "", completedAt := Some(later));
    label Finish:
    service.FinishRun(runId, Finished(Some(code), Some("")), later, {});
    SetProps(old@Finish(service.runs), runId, finished);
  }
}
