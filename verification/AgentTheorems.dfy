/** What holds of whole runs of the history agent, and where it stops holding. */
module AgentTheorems {

  import AnchorHistory
  import opened HistoryWire
  import opened Options
  import opened AgentProtocol
  import opened AgentRuns
  import opened AgentSafety

  /** Without power losses no file that was read back is lost, whatever else fails. */
  lemma {:induction false} ProcessCrashesAreClean(states: seq<State>, steps: seq<Step>, k: nat)
    requires IsRun(states, steps) && k < |states| && forall i | 0 <= i < k :: !steps[i].LosePower?
    ensures states[k].clean
  {
    if k == 0 {
    } else {
      ProcessCrashesAreClean(states, steps, k - 1);
      StepStaysClean(states[k - 1], steps[k - 1], states[k]);
    }
  }

  lemma StepStaysClean(s: State, a: Step, s': State)
    requires Next(s, a, s') && s.clean && !a.LosePower?
    ensures s'.clean
  {
  }

  /**
   The histories only grow, so nothing answered or reserved before a crash escapes the claims about
   the last state.
   */
  lemma {:induction false} HistoryOnlyGrows(states: seq<State>, steps: seq<Step>, i: nat, k: nat)
    requires IsRun(states, steps) && i <= k < |states|
    ensures Grows(states[i], states[k])
    decreases k
  {
    if i == k {
    } else {
      HistoryOnlyGrows(states, steps, i, k - 1);
      StepGrows(states[k - 1], steps[k - 1], states[k]);
      GrowsTransitive(states[i], states[k - 1], states[k]);
    }
  }

  ghost predicate Grows(s: State, s': State) {
    var holds := s.responses <= s'.responses && s.executed <= s'.executed && s.reserved <= s'.reserved
                 && s.closes <= s'.closes;
    holds
  }

  lemma GrowsTransitive(s: State, s': State, s'': State)
    requires Grows(s, s') && Grows(s', s'')
    ensures Grows(s, s'')
  {
  }

  lemma DecideGrows(s: State, t: nat, m: Memory, j: Journal, d: Decision, s': State)
    requires Decides(s, t, m, j, d, s')
    ensures Grows(s, s')
  {
  }

  lemma StepGrows(s: State, a: Step, s': State)
    requires Next(s, a, s')
    ensures Grows(s, s')
  {
    match a
    case Call(q, now) => assert Calls(s, q, now, s');
    case Decide(t, m, j, d) => DecideGrows(s, t, m, j, d, s');
    case Execute(t, answer, started, finished, signed) => assert Executes(s, t, answer, started, finished, signed, s');
    case PersistResult(t, files, ok) => assert PersistsResult(s, t, files, ok, s');
    case End(t) => assert Ends(s, t, s');
    case Wake(t) => assert Wakes(s, t, s');
    case Cancel(t) => assert Cancels(s, t, s');
    case Reread(t) => assert Rereads(s, t, s');
    case Crash => assert Crashes(s, s');
    case LosePower(j) => assert LosesPower(s, j, s');
    case Restart(c, m) => assert Restarts(s, c, m, s');
  }

  /**
   In every reachable state: at most one thread is between reservation and final section for an
   operation; results and in-flight entries are disjoint parts of the reservations, which stay below
   the limit; every channel is closed at most once and by its creator; and a thread about to close
   finds its own channel.
   */
  lemma ExecutionIsExclusive(states: seq<State>, steps: seq<Step>, k: nat)
    requires IsRun(states, steps) && k < |states|
    ensures forall t, u | t in states[k].threads && u in states[k].threads
                       && Owns(states[k].threads[t]) && Owns(states[k].threads[u])
                       && states[k].threads[t].request.operationID == states[k].threads[u].request.operationID :: t == u
    ensures states[k].memory.results.Keys <= states[k].memory.digests.Keys
    ensures states[k].memory.inFlight.Keys <= states[k].memory.digests.Keys - states[k].memory.results.Keys
    ensures |states[k].memory.digests| <= MAX_RESERVATIONS
    ensures forall t | t in states[k].threads && Owns(states[k].threads[t]) ::
              var op := states[k].threads[t].request.operationID;
              op in states[k].memory.inFlight && states[k].memory.inFlight[op] == t
    ensures forall i | 0 <= i < |states[k].closes| :: states[k].closes[i].closer == states[k].closes[i].channel
    ensures forall i, j | 0 <= i < j < |states[k].closes| :: states[k].closes[i].channel != states[k].closes[j].channel
  {
    RunLocks(states, steps, k);
    var s := states[k];
    forall t | t in s.threads && Owns(s.threads[t])
      ensures var op := s.threads[t].request.operationID; op in s.memory.inFlight && s.memory.inFlight[op] == t
    {
      assert GoodThread(s.memory, t, s.threads[t]);
    }
  }

  // ---------------------------------------------------------------------------------------
  // A power loss that takes away a file read back by a restart makes responses diverge.
  // ---------------------------------------------------------------------------------------

  ghost function Digests(q: Request): map<string, Digest> { map[q.operationID := Sha256(q)] }

  ghost function Disk(c: Config, q: Request, results: map<string, File<Fragment>>): Journal {
    Journal(Some(Complete(IdentityOf(c, q.runID), true)), map[q.operationID := Complete(q, true)], results)
  }

  lemma DiskSettles(c: Config, q: Request, f: Fragment)
    ensures var j := Disk(c, q, map[q.operationID := Complete(f, false)]);
            && SettleAll(j) == Disk(c, q, map[q.operationID := Complete(f, true)])
            && AlsoReading(NOTHING_READ, j) == ReadBack(false, {}, {q.operationID})
    ensures SettleAll(Disk(c, q, map[])) == Disk(c, q, map[])
  {
    var j := Disk(c, q, map[q.operationID := Complete(f, false)]);
    assert Unsettled(j.requests) == {} && Unsettled(j.results) == {q.operationID};
  }

  lemma FirstReservation(c: Config, q: Request, now: int) returns (states: seq<State>, steps: seq<Step>)
    requires Acceptable(c, q) && ValidAt(q, now)
    ensures IsRun(states, steps)
    ensures Last(states) == State(true, c, Memory(q.runID, map[], Digests(q), map[q.operationID := 0]),
                                  map[0 := Executing(q)], 1, Disk(c, q, map[]), NOTHING_READ, [], {q}, [], [], true)
  {
    var s0 := State(false, c, FRESH, map[], 0, EMPTY_JOURNAL, NOTHING_READ, [], {}, [], [], true);
    states, steps := [s0], [];
    states, steps := StartsAndIsCalled(states, steps, c, FRESH, q, now);
    assert Reservations(FRESH) == {} && SettleAll(EMPTY_JOURNAL) == EMPTY_JOURNAL
           && AlsoReading(NOTHING_READ, EMPTY_JOURNAL) == NOTHING_READ;
    states, steps := Begins(states, steps, 0, q, now);
  }

  /** The first result is written completely, but its write reports an error; the process crashes. */
  lemma UnsyncedResult(c: Config, q: Request, answer: Answer, startedAt: int, finishedAt: int, now: int)
    returns (states: seq<State>, steps: seq<Step>)
    requires Acceptable(c, q) && ValidAt(q, now) && now <= startedAt
    ensures IsRun(states, steps)
    ensures var f := Report(c, q, answer, startedAt, finishedAt);
            Last(states) == State(false, c, FRESH, map[], 1, Disk(c, q, map[q.operationID := Complete(f, false)]),
                                  NOTHING_READ, [Close(0, 0)], {q}, [q], [], true)
  {
    states, steps := FirstReservation(c, q, now);
    states, steps := Finishes(states, steps, 0, q, answer, startedAt, finishedAt, false, now);
    var s := Last(states);
    assert Crashes(s, Stopped(s));
    states, steps := Then(states, steps, Crash, Stopped(s), now);
  }

  /** The restarted agent answers with that result; then a power loss drops the file. */
  lemma AnsweredThenLost(c: Config, q: Request, f: Fragment, now: int, states0: seq<State>, steps0: seq<Step>)
    returns (states: seq<State>, steps: seq<Step>)
    requires IsRun(states0, steps0) && Acceptable(c, q) && ValidAt(q, now) && f.body.request == q
    requires Evidence(f, c.agentID, c.signingPublicKey, q.runID, c.configurationID, c.sourceRevision)
    requires Last(states0) == State(false, c, FRESH, map[], 1, Disk(c, q, map[q.operationID := Complete(f, false)]),
                                    NOTHING_READ, [Close(0, 0)], {q}, [q], [], true)
    ensures IsRun(states, steps)
    ensures Last(states) == State(false, c, FRESH, map[], 2, Disk(c, q, map[]),
                                  NOTHING_READ, [Close(0, 0)], {q}, [q], [Response(q, f)], false)
  {
    var m := Memory(q.runID, map[q.operationID := f], Digests(q), map[]);
    var j := Last(states0).journal;
    DiskLoads(c, q, j, m);
    DiskSettles(c, q, f);
    states, steps := StartsAndIsCalled(states0, steps0, c, m, q, now);
    states, steps := RepliesThenLoses(states, steps, c, q, f, m);
  }

  lemma RepliesThenLoses(states0: seq<State>, steps0: seq<Step>, c: Config, q: Request, f: Fragment, m: Memory)
    returns (states: seq<State>, steps: seq<Step>)
    requires IsRun(states0, steps0) && m == Memory(q.runID, map[q.operationID := f], Digests(q), map[])
    requires Last(states0) ==
               State(true, c, m, map[1 := Entered(q)], 2, Disk(c, q, map[q.operationID := Complete(f, true)]),
                                    ReadBack(false, {}, {q.operationID}), [Close(0, 0)], {q}, [q], [], true)
    ensures IsRun(states, steps)
    ensures Last(states) == State(false, c, FRESH, map[], 2, Disk(c, q, map[]),
                                  NOTHING_READ, [Close(0, 0)], {q}, [q], [Response(q, f)], false)
  {
    var s := Last(states0);
    var s1 := s.(threads := map[], responses := [Response(q, f)]);
    assert s.threads - {1} == map[];
    assert Decides(s, 1, m, s.journal, Reply(f), s1);
    states, steps := Then(states0, steps0, Decide(1, m, s.journal, Reply(f)), s1, 0);
    var s2 := Stopped(s1).(journal := Disk(c, q, map[]), readBack := NOTHING_READ, clean := false);
    assert SurvivesPowerLoss(s1.journal, s1.readBack, s2.journal);
    assert !SurvivesPowerLoss(s1.journal, NOTHING_READ, s2.journal) by {
      var name := q.operationID;
      assert !Survives(Lookup(s1.journal.results, name), true, Lookup(s2.journal.results, name));
    }
    assert LosesPower(s1, s2.journal, s2);
    states, steps := Then(states, steps, LosePower(s2.journal), s2, 0);
  }

  lemma DiskLoads(c: Config, q: Request, j: Journal, m: Memory)
    requires Acceptable(c, q) && m.digests == Digests(q) && m.inFlight == map[] && m.runID == q.runID
    requires j == Disk(c, q, j.results) && m.results.Keys == j.results.Keys <= {q.operationID}
    requires forall name | name in j.results ::
               && j.results[name].Complete? && j.results[name].content == m.results[name]
               && m.results[name].body.request == q
               && Evidence(m.results[name], c.agentID, c.signingPublicKey, q.runID, c.configurationID, c.sourceRevision)
    ensures Loads(c, j, m) && Reservations(m) == {q}
  {
  }

  /**
   The condition under which all answers agree cannot be dropped. For every acceptable request, any two
   results of which the first is within its lease, and any times of its calls within its lease, some
   run answers both: the first from a file whose write had reported an error, the second after a
   power loss took that file away.
   */
  lemma LostReadBackDiverges(c: Config, q: Request, first: Answer, second: Answer, start1: int, end1: int, start2: int,
                             end2: int, now: int, later: int)
    returns (states: seq<State>, steps: seq<Step>)
    requires ValidConfig(c) && Acceptable(c, q) && ValidAt(q, now) && ValidAt(q, later)
    requires now <= start1 && later <= start2
    requires 0 != start1 <= end1 && WithinLease(q, start1, end1)
    requires q.kind == AnchorHistory.Load && first.Success? && first.loaded.present ==> first.loaded.generation > 0
    ensures IsRun(states, steps)
    ensures Last(states).responses ==
            [Response(q, Report(c, q, first, start1, end1)), Response(q, Report(c, q, second, start2, end2))]
  {
    var f := Report(c, q, first, start1, end1);
    OwnReportReloads(c, q, first, start1, end1);
    states, steps := UnsyncedResult(c, q, first, start1, end1, now);
    states, steps := AnsweredThenLost(c, q, f, later, states, steps);
    var m := Memory(q.runID, map[], Digests(q), map[]);
    DiskLoads(c, q, Last(states).journal, m);
    states, steps := AnswersAgain(states, steps, c, m, q, second, start2, end2, later);
  }
}
