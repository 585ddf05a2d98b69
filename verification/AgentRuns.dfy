/** Building runs of the history agent step by step. */
module AgentRuns {

  import opened HistoryWire
  import opened Options
  import opened AgentProtocol

  ghost function Last(states: seq<State>): State
    requires states != []
  {
    states[|states| - 1]
  }

  /** The second run continues the first without a power loss. */
  ghost predicate Extends(states0: seq<State>, steps0: seq<Step>, states: seq<State>, steps: seq<Step>) {
    var holds := states0 <= states && steps0 <= steps && forall k | |steps0| <= k < |steps| :: !steps[k].LosePower?;
    holds
  }

  ghost predicate ReadsFrom(a: Step, now: int) {
    (a.Call? ==> a.now >= now) && (a.Execute? ==> a.startedAt >= now)
  }

  /** It does so while the agent's clock reads this time or later. */
  ghost predicate ExtendsFrom(states0: seq<State>, steps0: seq<Step>, states: seq<State>, steps: seq<Step>, now: int) {
    Extends(states0, steps0, states, steps) && ClockFrom(steps, |steps0|, now)
  }

  ghost predicate ClockFrom(steps: seq<Step>, n: nat, now: int) {
    var holds := forall k | n <= k < |steps| :: ReadsFrom(steps[k], now);
    holds
  }

  lemma ExtendsTransitive(states0: seq<State>, steps0: seq<Step>, states1: seq<State>, steps1: seq<Step>,
                          states2: seq<State>, steps2: seq<Step>, now: int)
    requires ExtendsFrom(states0, steps0, states1, steps1, now) && ExtendsFrom(states1, steps1, states2, steps2, now)
    ensures ExtendsFrom(states0, steps0, states2, steps2, now)
  {
    forall k | |steps0| <= k < |steps2| ensures !steps2[k].LosePower? && ReadsFrom(steps2[k], now) {
      assert k < |steps1| ==> steps2[k] == steps1[k];
    }
  }

  /** A run followed by one more step. */
  lemma Then(states0: seq<State>, steps0: seq<Step>, a: Step, s: State, now: int)
    returns (states: seq<State>, steps: seq<Step>)
    requires IsRun(states0, steps0) && Next(Last(states0), a, s)
    ensures IsRun(states, steps) && Last(states) == s && steps == steps0 + [a]
    ensures !a.LosePower? && ReadsFrom(a, now) ==> ExtendsFrom(states0, steps0, states, steps, now)
  {
    states, steps := states0 + [s], steps0 + [a];
    forall k | 0 <= k < |steps| ensures Next(states[k], steps[k], states[k + 1]) {
      if k < |steps0| {
        assert states[k] == states0[k] && states[k + 1] == states0[k + 1] && steps[k] == steps0[k];
      }
    }
  }

  ghost predicate Acceptable(c: Config, q: Request) {
    ValidStatic(q, c.agentID, c.configurationID, c.sourceRevision)
  }

  /** A running agent crashes; a stopped one stays stopped. */
  lemma Stops(states0: seq<State>, steps0: seq<Step>, now: int) returns (states: seq<State>, steps: seq<Step>)
    requires IsRun(states0, steps0)
    ensures IsRun(states, steps) && ExtendsFrom(states0, steps0, states, steps, now) && !Last(states).up
    ensures Last(states).journal == Last(states0).journal && Last(states).responses == Last(states0).responses
    ensures Last(states).reserved == Last(states0).reserved
  {
    states, steps := states0, steps0;
    if Last(states0).up {
      var s := Last(states0);
      assert Crashes(s, Stopped(s));
      states, steps := Then(states0, steps0, Crash, Stopped(s), now);
    }
  }

  /** A stopped agent is started on its journal and called. */
  lemma StartsAndIsCalled(states0: seq<State>, steps0: seq<Step>, c: Config, m: Memory, q: Request, now: int)
    returns (states: seq<State>, steps: seq<Step>)
    requires IsRun(states0, steps0) && !Last(states0).up && Acceptable(c, q) && ValidAt(q, now)
    requires Loads(c, Last(states0).journal, m)
    ensures IsRun(states, steps) && ExtendsFrom(states0, steps0, states, steps, now)
    ensures var s := Last(states0);
            Last(states) == s.(up := true, config := c, memory := m, threads := map[s.nextThread := Entered(q)],
                               nextThread := s.nextThread + 1, reserved := s.reserved + Reservations(m),
                               journal := SettleAll(s.journal), readBack := AlsoReading(s.readBack, s.journal))
  {
    var s := Last(states0);
    var s1 := s.(up := true, config := c, memory := m, threads := map[], reserved := s.reserved + Reservations(m),
                 journal := SettleAll(s.journal), readBack := AlsoReading(s.readBack, s.journal));
    assert Restarts(s, c, m, s1);
    var states1, steps1 := Then(states0, steps0, Restart(c, m), s1, now);
    var s2 := s1.(threads := map[s.nextThread := Entered(q)], nextThread := s.nextThread + 1);
    assert Calls(s1, q, now, s2);
    states, steps := Then(states1, steps1, Call(q, now), s2, now);
    ExtendsTransitive(states0, steps0, states1, steps1, states, steps, now);
  }

  /** The state a call leaves behind that executed, wrote its result and ended. */
  ghost function Ended(s: State, n: nat, q: Request, f: Fragment, synced: bool): State {
    var op := q.operationID;
    var m := s.memory.(inFlight := map[]);
    s.(threads := map[], memory := if synced then m.(results := m.results[op := f]) else m,
       journal := s.journal.(results := s.journal.results[op := Complete(f, synced)]),
       closes := s.closes + [Close(n, n)], executed := s.executed + [q],
       responses := if synced then s.responses + [Response(q, f)] else s.responses)
  }

  lemma Finishes(states0: seq<State>, steps0: seq<Step>, n: nat, q: Request, answer: Answer, startedAt: int,
                 finishedAt: int, synced: bool, now: int)
    returns (states: seq<State>, steps: seq<Step>)
    requires IsRun(states0, steps0) && Last(states0).up && Last(states0).threads == map[n := Executing(q)]
    requires Last(states0).memory.inFlight == map[q.operationID := n] && startedAt >= now
    requires q.operationID !in Last(states0).journal.results
    ensures IsRun(states, steps) && ExtendsFrom(states0, steps0, states, steps, now)
    ensures Last(states) ==
              Ended(Last(states0), n, q, Report(Last(states0).config, q, answer, startedAt, finishedAt), synced)
  {
    var s := Last(states0);
    var f := Report(s.config, q, answer, startedAt, finishedAt);
    var s1 := s.(threads := map[n := Signed(q, f)], executed := s.executed + [q]);
    assert Executes(s, n, answer, startedAt, finishedAt, true, s1);
    var states1, steps1 := Then(states0, steps0, Execute(n, answer, startedAt, finishedAt, true), s1, now);
    states, steps := PersistsAndEnds(states1, steps1, n, q, f, synced, now);
    ExtendsTransitive(states0, steps0, states1, steps1, states, steps, now);
  }

  lemma PersistsAndEnds(states0: seq<State>, steps0: seq<Step>, n: nat, q: Request, f: Fragment, synced: bool, now: int)
    returns (states: seq<State>, steps: seq<Step>)
    requires IsRun(states0, steps0) && Last(states0).up && Last(states0).threads == map[n := Signed(q, f)]
    requires Last(states0).memory.inFlight == map[q.operationID := n]
    requires q.operationID !in Last(states0).journal.results
    ensures IsRun(states, steps) && ExtendsFrom(states0, steps0, states, steps, now)
    ensures Last(states) == Ended(Last(states0), n, q, f, synced).(executed := Last(states0).executed)
  {
    var s := Last(states0);
    var s1 := s.(journal := s.journal.(results := s.journal.results[q.operationID := Complete(f, synced)]),
                 threads := map[n := if synced then Persisted(q, f) else Unpersisted(q)]);
    PersistsOnly(s, n, q, f, synced, s1);
    var states1, steps1 := Then(states0, steps0, PersistResult(n, s1.journal.results, synced), s1, now);
    var s2 := Ended(s, n, q, f, synced).(executed := s.executed);
    EndsOnly(s1, n, s2);
    states, steps := Then(states1, steps1, End(n), s2, now);
    ExtendsTransitive(states0, steps0, states1, steps1, states, steps, now);
  }

  lemma PersistsOnly(s: State, n: nat, q: Request, f: Fragment, synced: bool, s': State)
    requires s.up && s.threads == map[n := Signed(q, f)] && q.operationID !in s.journal.results
    requires s' == s.(journal := s.journal.(results := s.journal.results[q.operationID := Complete(f, synced)]),
                      threads := map[n := if synced then Persisted(q, f) else Unpersisted(q)])
    ensures PersistsResult(s, n, s'.journal.results, synced, s')
  {
  }

  lemma EndsOnly(s: State, n: nat, s': State)
    requires s.up && n in s.threads && s.threads.Keys == {n} && (s.threads[n].Persisted? || s.threads[n].Unpersisted?)
    requires s.memory.inFlight == map[s.threads[n].request.operationID := n]
    requires var th, m := s.threads[n], s.memory.(inFlight := map[]);
             s' == s.(threads := map[], closes := s.closes + [Close(n, n)],
                      memory := if th.Persisted? then m.(results := m.results[th.request.operationID := th.fragment])
                        else m,
                      responses := if th.Persisted? then s.responses + [Response(th.request, th.fragment)]
                        else s.responses)
    ensures Ends(s, n, s')
  {
    assert s.threads - {n} == map[];
    assert s.memory.inFlight - {s.threads[n].request.operationID} == map[];
  }

  /** The handler takes the request on: its run, its payload and the number of reservations allow it. */
  ghost predicate Serves(c: Config, m: Memory, q: Request) {
    && Acceptable(c, q) && (m.runID == "" || m.runID == q.runID)
    && if q.operationID in m.digests then m.digests[q.operationID] == Sha256(q) else |m.digests| < MAX_RESERVATIONS
  }

  /** What a restart has just restored: nothing is in flight, and the journal has what memory has. */
  ghost predicate Restored(m: Memory, j: Journal) {
    m.inFlight == map[] && m.digests.Keys == j.requests.Keys && (m.runID == "" ==> j == EMPTY_JOURNAL && m == FRESH)
  }

  /** The state in which a lone caller has just reserved its operation or resumed its reservation. */
  ghost function Begun(s: State, n: nat, q: Request): State {
    var op := q.operationID;
    var j := if op in s.memory.digests then s.journal
             else Journal(if s.memory.runID == "" then Some(Complete(IdentityOf(s.config, q.runID), true))
                          else s.journal.identity,
                          s.journal.requests[op := Complete(q, true)], s.journal.results);
    s.(memory := Memory(q.runID, s.memory.results, s.memory.digests[op := Sha256(q)], map[op := n]), journal := j,
       threads := map[n := Executing(q)], reserved := s.reserved + {q})
  }

  lemma Begins(states0: seq<State>, steps0: seq<Step>, n: nat, q: Request, now: int)
    returns (states: seq<State>, steps: seq<Step>)
    requires IsRun(states0, steps0)
    requires var s := Last(states0);
             && s.up && s.threads == map[n := Entered(q)] && Serves(s.config, s.memory, q)
             && Restored(s.memory, s.journal)
             && q.operationID !in s.memory.results
    ensures IsRun(states, steps) && ExtendsFrom(states0, steps0, states, steps, now)
    ensures Last(states) == Begun(Last(states0), n, q)
  {
    var s := Last(states0);
    var s' := Begun(s, n, q);
    SectionBegins(s, n, q);
    assert Decides(s, n, s'.memory, s'.journal, Proceed, s');
    states, steps := Then(states0, steps0, Decide(n, s'.memory, s'.journal, Proceed), s', now);
  }

  lemma SectionBegins(s: State, n: nat, q: Request)
    requires Serves(s.config, s.memory, q) && Restored(s.memory, s.journal) && q.operationID !in s.memory.results
    ensures var s' := Begun(s, n, q); FirstSection(s.config, s.memory, s.journal, n, q, s'.memory, s'.journal, Proceed)
  {
    var op, m, j := q.operationID, s.memory, s.journal;
    if op in m.digests {
      assert m.digests[op := Sha256(q)] == m.digests;
    } else {
      assert op !in j.requests.Keys;
      assert WritesAt(j.requests, op, q, true, Begun(s, n, q).journal.requests);
    }
  }

  /** What a loadable journal says about a request that the handler takes on. */
  lemma ServedLoads(c: Config, j: Journal, m: Memory, q: Request)
    requires Loads(c, j, m) && Serves(c, m, q)
    ensures Restored(m, SettleAll(j))
    ensures q.operationID in m.results <==> q.operationID in j.results
    ensures q.operationID in j.results ==>
              && j.results[q.operationID].Complete? && j.results[q.operationID].content == m.results[q.operationID]
              && m.results[q.operationID].body.request == q && Answers(m, q, m.results[q.operationID])
  {
    var op := q.operationID;
    if op in j.results {
      assert LoadsResult(c, m.runID, j.requests, op, j.results[op]);
    }
  }

  /**
   A stopped agent whose journal has no result for the request executes it, again or for the first
   time, and answers.
   */
  lemma AnswersAgain(states0: seq<State>, steps0: seq<Step>, c: Config, m: Memory, q: Request, answer: Answer,
                     startedAt: int, finishedAt: int, now: int)
    returns (states: seq<State>, steps: seq<Step>)
    requires IsRun(states0, steps0) && !Last(states0).up && Loads(c, Last(states0).journal, m) && Serves(c, m, q)
    requires q.operationID !in Last(states0).journal.results && ValidAt(q, now) && now <= startedAt
    ensures IsRun(states, steps) && ExtendsFrom(states0, steps0, states, steps, now)
    ensures Last(states).responses ==
              Last(states0).responses + [Response(q, Report(c, q, answer, startedAt, finishedAt))]
  {
    ServedLoads(c, Last(states0).journal, m, q);
    var n := Last(states0).nextThread;
    var states1, steps1 := StartsAndIsCalled(states0, steps0, c, m, q, now);
    var states2, steps2 := Begins(states1, steps1, n, q, now);
    states, steps := Finishes(states2, steps2, n, q, answer, startedAt, finishedAt, true, now);
    ExtendsTransitive(states0, steps0, states1, steps1, states2, steps2, now);
    ExtendsTransitive(states0, steps0, states2, steps2, states, steps, now);
  }

  /** A caller whose request has a result in memory is answered with it. */
  lemma Replies(states0: seq<State>, steps0: seq<Step>, n: nat, q: Request, f: Fragment, now: int)
    returns (states: seq<State>, steps: seq<Step>)
    requires IsRun(states0, steps0)
    requires var s := Last(states0); s.up && s.threads == map[n := Entered(q)] && Answers(s.memory, q, f)
    ensures IsRun(states, steps) && ExtendsFrom(states0, steps0, states, steps, now)
    ensures Last(states).responses == Last(states0).responses + [Response(q, f)]
  {
    var s := Last(states0);
    var s' := s.(threads := map[], responses := s.responses + [Response(q, f)]);
    assert s.threads - {n} == map[];
    assert FirstSection(s.config, s.memory, s.journal, n, q, s.memory, s.journal, Reply(f));
    assert Decides(s, n, s.memory, s.journal, Reply(f), s');
    states, steps := Then(states0, steps0, Decide(n, s.memory, s.journal, Reply(f)), s', now);
  }

  ghost predicate Answers(m: Memory, q: Request, f: Fragment) {
    var op := q.operationID;
    && op in m.digests && m.digests[op] == Sha256(q) && op in m.results && m.results[op] == f
    && m.runID == q.runID
  }

  /** A stopped agent whose journal has a result for the request answers with it. */
  lemma AnswersFromJournal(states0: seq<State>, steps0: seq<Step>, c: Config, m: Memory, q: Request, now: int)
    returns (states: seq<State>, steps: seq<Step>)
    requires IsRun(states0, steps0) && !Last(states0).up && Loads(c, Last(states0).journal, m) && Serves(c, m, q)
    requires q.operationID in m.results && ValidAt(q, now)
    ensures IsRun(states, steps) && ExtendsFrom(states0, steps0, states, steps, now)
    ensures Last(states).responses == Last(states0).responses + [Response(q, m.results[q.operationID])]
  {
    ServedLoads(c, Last(states0).journal, m, q);
    var states1, steps1 := StartsAndIsCalled(states0, steps0, c, m, q, now);
    states, steps := Replies(states1, steps1, Last(states0).nextThread, q, m.results[q.operationID], now);
    ExtendsTransitive(states0, steps0, states1, steps1, states, steps, now);
  }
}
