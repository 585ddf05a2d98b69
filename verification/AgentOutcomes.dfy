/**
 What the history agent's answers say about its executions: every answer, and every result on disk or
 in memory, comes from an execution of its request and reports exactly what the executor answered.
 */
module AgentOutcomes {

  import opened Anchors
  import H = AnchorHistory
  import opened HistoryWire
  import opened Options
  import opened AgentProtocol
  import opened AgentAgreement
  import opened AgentRuns
  import opened AgentSafety

  /** The value that is reported: the target of an advance, nothing for a failed load, else the loaded anchor. */
  predicate ReportsValue(value: WireValue, q: Request, answer: Answer) {
    && (q.kind == H.Advance ==> value == q.target)
    && (q.kind == H.Load && answer.Error? ==> value == NO_VALUE)
    && (q.kind == H.Load && answer.Success? ==> ReportsAnchor(value, answer.loaded))
  }

  /** The wire form of an anchor, which converts back to it whenever it converts. */
  predicate ReportsAnchor(value: WireValue, loaded: Value) {
    && value.present == loaded.present && (!loaded.present ==> value == NO_VALUE)
    && (loaded.present ==>
          && value.minimumCommitSequence == loaded.commitSequence && value.minimumGeneration == loaded.generation
          && (loaded.generation > 0 ==> ValueFromWire(value) == Some(loaded)))
  }

  /** The fragment is a signed report, by an agent with this configuration, of this answer to this request. */
  predicate Reflects(f: Fragment, c: Config, q: Request, answer: Answer, startedAt: int, finishedAt: int) {
    && f.body.request == q && f.body.requestSHA256 == Sha256(q)
    && f.body.outcome == (if answer.Success? then H.Succeeded else H.Failed)
    && ReportsValue(f.body.value, q, answer) && f.body.startedAt == startedAt && f.body.finishedAt == finishedAt
    && f.body.signingPublicKey == c.signingPublicKey && f.signature == SignatureOver(c.signingPublicKey, f.body)
    && f.body.sourceRevision == c.sourceRevision && f.body.buildRevision == c.buildRevision
    && f.body.buildModified == c.buildModified
  }

  lemma ReportReflects(c: Config, q: Request, answer: Answer, startedAt: int, finishedAt: int)
    ensures Reflects(Report(c, q, answer, startedAt, finishedAt), c, q, answer, startedAt, finishedAt)
  {
    if answer.Success? {
      AnchorRoundTrip(answer.loaded);
    }
  }

  // ---------------------------------------------------------------------------------------
  // Where fragments are, and where they come from.
  // ---------------------------------------------------------------------------------------

  ghost predicate InMemory(m: Memory, f: Fragment) { exists op :: op in m.results && m.results[op] == f }

  ghost predicate InThreads(threads: map<nat, Thread>, f: Fragment) {
    exists t :: t in threads && (threads[t].Signed? || threads[t].Persisted?) && threads[t].fragment == f
  }

  ghost predicate InJournal(results: map<string, File<Fragment>>, f: Fragment) {
    exists name :: name in results && results[name].Complete? && results[name].content == f
  }

  ghost predicate InAnswers(responses: seq<Response>, f: Fragment) {
    exists i :: 0 <= i < |responses| && responses[i].fragment == f
  }

  ghost predicate Holds(s: State, f: Fragment) {
    var holds := InMemory(s.memory, f) || InThreads(s.threads, f) || InJournal(s.journal.results, f)
                 || InAnswers(s.responses, f);
    holds
  }

  /** The step is an execution that is reported by this fragment. */
  ghost predicate Produces(s: State, a: Step, f: Fragment) {
    && a.Execute? && a.thread in s.threads
    && Reflects(f, s.config, s.threads[a.thread].request, a.answer, a.startedAt, a.finishedAt)
  }

  lemma ThreadsAfter(threads: map<nat, Thread>, t: nat, th: Thread, f: Fragment)
    ensures InThreads(threads[t := th], f) ==>
              InThreads(threads, f) || ((th.Signed? || th.Persisted?) && th.fragment == f)
    ensures InThreads(threads - {t}, f) ==> InThreads(threads, f)
  {
  }

  lemma DecideHolds(s: State, t: nat, m: Memory, j: Journal, d: Decision, s': State, f: Fragment)
    requires Locks(s) && Decides(s, t, m, j, d, s') && Holds(s', f)
    ensures Holds(s, f)
  {
    var q := s.threads[t].request;
    SectionChangesMaps(s.config, s.memory, s.journal, t, q, m, j, d);
    SectionKeepsResults(s.config, s.memory, s.journal, t, q, m, j, d);
    ThreadsAfter(s.threads, t, if d.Await? then Waiting(q, d.channel) else Executing(q), f);
  }

  lemma SectionKeepsResults(c: Config, m: Memory, j: Journal, t: nat, q: Request, m': Memory, j': Journal, d: Decision)
    requires FirstSection(c, m, j, t, q, m', j', d)
    ensures j'.results == j.results
    ensures d.Reply? ==> q.operationID in m.results && m.results[q.operationID] == d.fragment
  {
  }

  lemma ExecuteHolds(s: State, a: Step, s': State, f: Fragment)
    requires Next(s, a, s') && a.Execute? && Holds(s', f)
    ensures Holds(s, f) || Produces(s, a, f)
  {
    var th := s.threads[a.thread];
    ReportReflects(s.config, th.request, a.answer, a.startedAt, a.finishedAt);
    ThreadsAfter(s.threads, a.thread, s'.threads[a.thread], f);
  }

  lemma PersistHolds(s: State, t: nat, files: map<string, File<Fragment>>, ok: bool, s': State, f: Fragment)
    requires PersistsResult(s, t, files, ok, s') && Holds(s', f)
    ensures Holds(s, f)
  {
    var th := s.threads[t];
    ThreadsAfter(s.threads, t, s'.threads[t], f);
    if InJournal(files, f) {
      var name :| name in files && files[name].Complete? && files[name].content == f;
      assert name == th.request.operationID ==> Lookup(files, name) == Some(files[name]);
    }
  }

  lemma EndHolds(s: State, t: nat, s': State, f: Fragment)
    requires Ends(s, t, s') && Holds(s', f)
    ensures Holds(s, f)
  {
    ThreadsAfter(s.threads, t, s.threads[t], f);
  }

  lemma RestartHolds(s: State, c: Config, m: Memory, s': State, f: Fragment)
    requires Restarts(s, c, m, s') && Holds(s', f)
    ensures Holds(s, f)
  {
    if InMemory(m, f) {
      var op :| op in m.results && m.results[op] == f;
      assert op in s.journal.results.Keys && LoadsResult(c, m.runID, s.journal.requests, op, s.journal.results[op]);
    }
  }

  lemma PowerLossHolds(s: State, j: Journal, s': State, f: Fragment)
    requires LosesPower(s, j, s') && Holds(s', f)
    ensures Holds(s, f)
  {
    if InJournal(j.results, f) {
      var name :| name in j.results && j.results[name].Complete? && j.results[name].content == f;
      assert Lookup(j.results, name) == Some(j.results[name]);
    }
  }

  lemma OtherHolds(s: State, a: Step, s': State, f: Fragment)
    requires Next(s, a, s') && Holds(s', f) && (a.Call? || a.Wake? || a.Cancel? || a.Reread? || a.Crash?)
    ensures Holds(s, f)
  {
    if !a.Crash? {
      var t := if a.Call? then s.nextThread else a.thread;
      ThreadsAfter(s.threads, t, if a.Call? then Entered(a.request) else Woken(s.threads[t].request), f);
    }
  }

  /** A fragment appears only by an execution that it reports. */
  lemma NextHolds(s: State, a: Step, s': State, f: Fragment)
    requires Locks(s) && Next(s, a, s') && Holds(s', f)
    ensures Holds(s, f) || Produces(s, a, f)
  {
    match a
    case Decide(t, m, j, d) => DecideHolds(s, t, m, j, d, s', f);
    case Execute(_, _, _, _, _) => ExecuteHolds(s, a, s', f);
    case PersistResult(t, files, ok) => PersistHolds(s, t, files, ok, s', f);
    case End(t) => EndHolds(s, t, s', f);
    case Restart(c, m) => RestartHolds(s, c, m, s', f);
    case LosePower(j) => PowerLossHolds(s, j, s', f);
    case _ => OtherHolds(s, a, s', f);
  }

  lemma NothingAtFirst(s: State, f: Fragment)
    requires Init(s)
    ensures !Holds(s, f)
  {
  }

  lemma StepHolds(s: State, a: Step, s': State, f: Fragment)
    requires Locks(s) && Steps(s, a, s') && Holds(s', f)
    ensures Holds(s, f) || Originates(s, a, f)
  {
    NextHolds(s, a, s', f);
  }

  ghost predicate Originates(s: State, a: Step, f: Fragment) {
    var holds := Produces(s, a, f);
    holds
  }

  lemma {:induction false} NeverHeld(states: seq<State>, steps: seq<Step>, k: nat, f: Fragment)
    requires IsRun(states, steps) && k < |states| && forall i | 0 <= i < k :: !Originates(states[i], steps[i], f)
    ensures !Holds(states[k], f)
  {
    if k == 0 {
      NothingAtFirst(states[0], f);
    } else {
      NeverHeld(states, steps, k - 1, f);
      RunLocks(states, steps, k - 1);
      StepNeverHeld(states[k - 1], steps[k - 1], states[k], f);
    }
  }

  lemma StepNeverHeld(s: State, a: Step, s': State, f: Fragment)
    requires Locks(s) && Steps(s, a, s') && !Holds(s, f) && !Originates(s, a, f)
    ensures !Holds(s', f)
  {
    if Holds(s', f) {
      StepHolds(s, a, s', f);
    }
  }

  lemma OriginOf(states: seq<State>, steps: seq<Step>, f: Fragment) returns (i: nat)
    requires IsRun(states, steps) && Holds(Last(states), f)
    ensures i < |steps| && Originates(states[i], steps[i], f)
  {
    if forall i | 0 <= i < |steps| :: !Originates(states[i], steps[i], f) {
      NeverHeld(states, steps, |steps|, f);
    }
    i :| 0 <= i < |steps| && Originates(states[i], steps[i], f);
  }

  /**
   In every run, every answer comes from an execution of the answered request: it says succeeded exactly
   if the executor succeeded, and it gives the target of an advance or what a load returned.
   */
  lemma AnswersReportExecutions(states: seq<State>, steps: seq<Step>, r: Response) returns (i: nat)
    requires IsRun(states, steps) && r in Last(states).responses
    ensures i < |steps| && steps[i].Execute? && steps[i].thread in states[i].threads
    ensures states[i].threads[steps[i].thread].request == r.request == r.fragment.body.request
    ensures r.fragment.body.outcome == H.Succeeded <==> steps[i].answer.Success?
    ensures r.fragment.body.outcome == H.Failed <==> steps[i].answer.Error?
    ensures ReportsValue(r.fragment.body.value, r.request, steps[i].answer)
    ensures Reflects(r.fragment, states[i].config, r.request, steps[i].answer, steps[i].startedAt, steps[i].finishedAt)
  {
    var k :| 0 <= k < |Last(states).responses| && Last(states).responses[k] == r;
    i := OriginOf(states, steps, r.fragment);
    AnswerIsTruthful(states, steps, r);
  }

  /** The same holds of every complete result in the journal. */
  lemma ResultsReportExecutions(states: seq<State>, steps: seq<Step>, name: string) returns (i: nat)
    requires IsRun(states, steps) && name in Last(states).journal.results
             && Last(states).journal.results[name].Complete?
    ensures i < |steps| && Produces(states[i], steps[i], Last(states).journal.results[name].content)
  {
    i := OriginOf(states, steps, Last(states).journal.results[name].content);
  }

  // ---------------------------------------------------------------------------------------
  // What is executed.
  // ---------------------------------------------------------------------------------------

  /** Bound to this agent, within the longest lease, and with a target exactly for an advance. */
  predicate BoundTo(q: Request, c: Config) {
    && q.agentID == c.agentID && q.configurationID == c.configurationID && q.sourceRevision == c.sourceRevision
    && q.issuedAt < q.expiresAt <= q.issuedAt + 120_000_000_000
    && (q.kind == H.Load || q.kind == H.Advance) && (q.kind == H.Load ==> q.target == NO_VALUE)
    && (q.kind == H.Advance ==>
          q.target.present && ValueFromWire(q.target).Some? && ValueFromWire(q.target).value.generation > 0)
  }

  ghost predicate AllBound(s: State) {
    var holds := forall t | t in s.threads :: BoundTo(s.threads[t].request, s.config);
    holds
  }

  lemma CallIsBound(s: State, q: Request, now: int, s': State)
    requires AllBound(s) && Calls(s, q, now, s')
    ensures AllBound(s')
  {
    if q.kind == H.Advance {
      WireRoundTrip(q.target);
    }
  }

  lemma NextBound(s: State, a: Step, s': State)
    requires AllBound(s) && Next(s, a, s')
    ensures AllBound(s')
  {
    if a.Call? {
      CallIsBound(s, a.request, a.now, s');
    } else if a.Decide? {
      assert Decides(s, a.thread, a.memory, a.journal, a.decision, s');
    }
  }

  /** In every reachable state all requests at work are bound to the agent that works on them. */
  lemma {:induction false} RunBound(states: seq<State>, steps: seq<Step>, k: nat)
    requires IsRun(states, steps) && k < |states|
    ensures AllBound(states[k])
  {
    if k == 0 {
    } else {
      RunBound(states, steps, k - 1);
      NextBound(states[k - 1], steps[k - 1], states[k]);
    }
  }

  /** A woken caller whose operation has a result by now is answered with it, and only one without a result is not. */
  lemma WokenIsAnswered(states: seq<State>, steps: seq<Step>, k: nat)
    requires IsRun(states, steps) && k < |steps| && steps[k].Reread?
    ensures steps[k].thread in states[k].threads
    ensures var q := states[k].threads[steps[k].thread].request;
            if q.operationID in states[k].memory.results
            then states[k + 1].responses == states[k].responses + [Response(q, states[k].memory.results[q.operationID])]
                 && states[k].memory.results[q.operationID].body.request == q
            else states[k + 1].responses == states[k].responses
    ensures states[k + 1].threads == states[k].threads - {steps[k].thread}
  {
    RunGrounded(states, steps, k);
    var s, t := states[k], steps[k].thread;
    assert Next(s, steps[k], states[k + 1]);
    assert GoodThread(s.memory, t, s.threads[t]);
  }

  /** Such a caller can always take this step. */
  lemma WokenCanGoOn(s: State, t: nat) returns (s': State)
    requires s.up && t in s.threads && s.threads[t].Woken?
    ensures Next(s, Reread(t), s')
    ensures var q := s.threads[t].request;
            q.operationID in s.memory.results ==>
              s'.responses == s.responses + [Response(q, s.memory.results[q.operationID])]
  {
    var q := s.threads[t].request;
    s' := if q.operationID in s.memory.results
          then Without(s, t).(responses := s.responses + [Response(q, s.memory.results[q.operationID])])
          else Without(s, t);
  }

  /** Calls are taken on from thirty seconds before the request was issued until it expires, in nanoseconds. */
  lemma CallsAreTimely(states: seq<State>, steps: seq<Step>, k: nat)
    requires IsRun(states, steps) && k < |steps| && steps[k].Call?
    ensures steps[k].request.issuedAt - 30_000_000_000 <= steps[k].now <= steps[k].request.expiresAt
    ensures states[k].up && BoundTo(steps[k].request, states[k].config)
  {
    var q := steps[k].request;
    assert Next(states[k], steps[k], states[k + 1]);
    if q.kind == H.Advance {
      WireRoundTrip(q.target);
    }
  }
}
