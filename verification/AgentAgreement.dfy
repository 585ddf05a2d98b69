/**
 When the agent's answers to one operation agree: in every run, an answer is repeated exactly as
 long as its result file stays on disk.
 */
module AgentAgreement {

  import opened HistoryWire
  import opened Options
  import opened AgentProtocol
  import opened AgentRuns
  import opened AgentSafety

  /** The fragment is in the journal as the result of its operation, whether or not its write was reported. */
  ghost predicate OnDisk(results: map<string, File<Fragment>>, f: Fragment) {
    var op := f.body.request.operationID;
    op in results && results[op].Complete? && results[op].content == f
  }

  /** No complete result disappears. */
  ghost predicate ResultsStay(results: map<string, File<Fragment>>, results': map<string, File<Fragment>>) {
    var holds := forall f :: OnDisk(results, f) ==> OnDisk(results', f);
    holds
  }

  // ---------------------------------------------------------------------------------------
  // Memory, threads and answers stand for what is on disk, in every run.
  // ---------------------------------------------------------------------------------------

  ghost predicate MemoryOnDisk(m: Memory, results: map<string, File<Fragment>>, reserved: set<Request>) {
    var holds :=
      && (forall op | op in m.digests ::
            m.digests[op].Sha256? && m.digests[op].request.operationID == op && m.digests[op].request in reserved)
      && (forall op | op in m.results ::
            op in m.digests && m.digests[op] == Sha256(m.results[op].body.request) && OnDisk(results, m.results[op]));
    holds
  }

  ghost predicate ThreadOnDisk(th: Thread, results: map<string, File<Fragment>>) {
    && (th.Signed? ==> th.fragment.body.request == th.request)
    && (th.Persisted? ==> th.fragment.body.request == th.request && OnDisk(results, th.fragment))
  }

  ghost predicate ThreadsOnDisk(threads: map<nat, Thread>, results: map<string, File<Fragment>>) {
    var holds := forall t | t in threads :: ThreadOnDisk(threads[t], results);
    holds
  }

  ghost predicate Truthful(r: Response, reserved: set<Request>) {
    r.request in reserved && r.fragment.body.request == r.request
  }

  ghost predicate AllTruthful(responses: seq<Response>, reserved: set<Request>) {
    var holds := forall i | 0 <= i < |responses| :: Truthful(responses[i], reserved);
    holds
  }

  ghost predicate Grounded(s: State) {
    var holds :=
      && MemoryOnDisk(s.memory, s.journal.results, s.reserved)
      && ThreadsOnDisk(s.threads, s.journal.results)
      && AllTruthful(s.responses, s.reserved);
    holds
  }

  lemma MemoryStays(m: Memory, m': Memory, results: map<string, File<Fragment>>, results': map<string, File<Fragment>>,
                    reserved: set<Request>, reserved': set<Request>)
    requires MemoryOnDisk(m, results, reserved) && ResultsStay(results, results') && reserved <= reserved'
    requires m'.digests == m.digests && m'.results == m.results
    ensures MemoryOnDisk(m', results', reserved')
  {
  }

  lemma ThreadsStay(threads: map<nat, Thread>, results: map<string, File<Fragment>>,
                    results': map<string, File<Fragment>>)
    requires ThreadsOnDisk(threads, results) && ResultsStay(results, results')
    ensures ThreadsOnDisk(threads, results')
  {
    forall t | t in threads ensures ThreadOnDisk(threads[t], results') {
      assert ThreadOnDisk(threads[t], results);
    }
  }

  lemma ThreadsChange(threads: map<nat, Thread>, results: map<string, File<Fragment>>, t: nat, th: Thread)
    requires ThreadsOnDisk(threads, results) && ThreadOnDisk(th, results)
    ensures ThreadsOnDisk(threads[t := th], results) && ThreadsOnDisk(threads - {t}, results)
  {
  }

  lemma AnswersStay(responses: seq<Response>, reserved: set<Request>, reserved': set<Request>)
    requires AllTruthful(responses, reserved) && reserved <= reserved'
    ensures AllTruthful(responses, reserved')
  {
  }

  /** At most one answer is added, to a reserved request, and its result is on disk. */
  ghost predicate AddsAnswer(responses: seq<Response>, responses': seq<Response>, results: map<string, File<Fragment>>,
                             reserved: set<Request>)
  {
    var holds :=
      || responses' == responses
      || (&& |responses'| == |responses| + 1 && responses' == responses + [responses'[|responses|]]
          && Truthful(responses'[|responses|], reserved) && OnDisk(results, responses'[|responses|].fragment));
    holds
  }

  lemma AnswerAdded(responses: seq<Response>, responses': seq<Response>, results: map<string, File<Fragment>>,
                    reserved: set<Request>)
    requires AllTruthful(responses, reserved) && AddsAnswer(responses, responses', results, reserved)
    ensures AllTruthful(responses', reserved)
  {
  }

  /** The first section keeps every result; an answer that it gives comes from memory. */
  lemma SectionGrounded(c: Config, m: Memory, j: Journal, t: nat, q: Request, m': Memory, j': Journal, d: Decision,
                        reserved: set<Request>)
    requires GoodMemory(m) && FirstSection(c, m, j, t, q, m', j', d) && MemoryOnDisk(m, j.results, reserved)
    ensures j'.results == j.results
    ensures MemoryOnDisk(m', j'.results, if d == Proceed then reserved + {q} else reserved)
    ensures d.Reply? ==> Truthful(Response(q, d.fragment), reserved) && OnDisk(j.results, d.fragment)
  {
    SectionChangesMaps(c, m, j, t, q, m', j', d);
  }

  lemma DecideGrounded(s: State, t: nat, m: Memory, j: Journal, d: Decision, s': State)
    requires Locks(s) && Grounded(s) && Decides(s, t, m, j, d, s')
    ensures Grounded(s') && s'.journal.results == s.journal.results
    ensures AddsAnswer(s.responses, s'.responses, s.journal.results, s'.reserved)
  {
    var q := s.threads[t].request;
    SectionGrounded(s.config, s.memory, s.journal, t, q, m, j, d, s.reserved);
    ThreadsChange(s.threads, s.journal.results, t, if d.Await? then Waiting(q, d.channel) else Executing(q));
    AnswersStay(s.responses, s.reserved, s'.reserved);
    AnswerAdded(s.responses, s'.responses, s.journal.results, s'.reserved);
  }

  /** A write adds a file and leaves the others. */
  lemma WriteStays(results: map<string, File<Fragment>>, name: string, f: Fragment, ok: bool,
                   results': map<string, File<Fragment>>)
    requires WritesAt(results, name, f, ok, results') && f.body.request.operationID == name
    ensures ResultsStay(results, results') && (ok ==> OnDisk(results', f))
  {
    forall g | OnDisk(results, g) ensures OnDisk(results', g) {
      assert g.body.request.operationID == name ==> Lookup(results, name) != None;
    }
  }

  lemma PersistGrounded(s: State, t: nat, files: map<string, File<Fragment>>, ok: bool, s': State)
    requires Grounded(s) && PersistsResult(s, t, files, ok, s')
    ensures Grounded(s') && ResultsStay(s.journal.results, s'.journal.results) && s'.responses == s.responses
  {
    var q, f := s.threads[t].request, s.threads[t].fragment;
    assert ThreadOnDisk(s.threads[t], s.journal.results);
    WriteStays(s.journal.results, q.operationID, f, ok, files);
    MemoryStays(s.memory, s.memory, s.journal.results, files, s.reserved, s.reserved);
    ThreadsStay(s.threads, s.journal.results, files);
    ThreadsChange(s.threads, files, t, s'.threads[t]);
  }

  lemma Published(m: Memory, m': Memory, results: map<string, File<Fragment>>, reserved: set<Request>, f: Fragment)
    requires MemoryOnDisk(m, results, reserved) && OnDisk(results, f)
    requires var op := f.body.request.operationID;
             op in m.digests && m.digests[op] == Sha256(f.body.request) && m'.results == m.results[op := f]
    requires m'.digests == m.digests
    ensures MemoryOnDisk(m', results, reserved)
  {
  }

  lemma EndGrounded(s: State, t: nat, s': State)
    requires Locks(s) && Grounded(s) && Ends(s, t, s')
    ensures Grounded(s') && s'.journal.results == s.journal.results
    ensures AddsAnswer(s.responses, s'.responses, s.journal.results, s'.reserved)
  {
    var th := s.threads[t];
    assert GoodThread(s.memory, t, th) && ThreadOnDisk(th, s.journal.results);
    ThreadsChange(s.threads, s.journal.results, t, th);
    if th.Persisted? {
      Published(s.memory, s'.memory, s.journal.results, s.reserved, th.fragment);
      assert s.memory.digests[th.request.operationID].request in s.reserved;
    } else {
      assert ResultsStay(s.journal.results, s.journal.results);
      MemoryStays(s.memory, s'.memory, s.journal.results, s.journal.results, s.reserved, s.reserved);
    }
    AnswerAdded(s.responses, s'.responses, s.journal.results, s.reserved);
  }

  lemma RereadGrounded(s: State, t: nat, s': State)
    requires Locks(s) && Grounded(s) && Rereads(s, t, s')
    ensures Grounded(s') && s'.journal.results == s.journal.results
    ensures AddsAnswer(s.responses, s'.responses, s.journal.results, s'.reserved)
  {
    var th := s.threads[t];
    assert GoodThread(s.memory, t, th) && ThreadOnDisk(th, s.journal.results);
    ThreadsChange(s.threads, s.journal.results, t, th);
    assert s.memory.digests[th.request.operationID].request in s.reserved;
    AnswerAdded(s.responses, s'.responses, s.journal.results, s.reserved);
  }

  lemma SettlingStays(j: Journal)
    ensures ResultsStay(j.results, SettleAll(j).results)
  {
  }

  lemma RestartGrounded(s: State, c: Config, m: Memory, s': State)
    requires Grounded(s) && Restarts(s, c, m, s')
    ensures Grounded(s') && ResultsStay(s.journal.results, s'.journal.results) && s'.responses == s.responses
  {
    SettlingStays(s.journal);
    LoadGrounded(c, s.journal, m);
    MemoryStays(m, m, s.journal.results, s'.journal.results, Reservations(m), s'.reserved);
    AnswersStay(s.responses, s.reserved, s'.reserved);
  }

  lemma LoadGrounded(c: Config, j: Journal, m: Memory)
    requires Loads(c, j, m)
    ensures MemoryOnDisk(m, j.results, Reservations(m))
  {
    forall op | op in m.digests
      ensures m.digests[op].Sha256? && m.digests[op].request.operationID == op
              && m.digests[op].request in Reservations(m)
    {
      assert LoadsRequest(c, m.runID, op, j.requests[op]);
    }
    forall op | op in m.results
      ensures op in m.digests && m.digests[op] == Sha256(m.results[op].body.request) && OnDisk(j.results, m.results[op])
    {
      assert op in j.results.Keys;
      assert LoadsResult(c, m.runID, j.requests, op, j.results[op]);
    }
  }

  lemma ThreadStepGrounded(s: State, a: Step, s': State)
    requires Grounded(s) && Next(s, a, s') && (a.Call? || a.Execute? || a.Wake? || a.Cancel?)
    ensures Grounded(s') && s'.journal.results == s.journal.results && s'.responses == s.responses
  {
    var t := if a.Call? then s.nextThread else a.thread;
    var th := if t in s'.threads then s'.threads[t] else Entered(s.threads[t].request);
    ThreadsChange(s.threads, s.journal.results, t, th);
  }

  lemma StopGrounded(s: State, a: Step, s': State)
    requires Grounded(s) && Next(s, a, s') && (a.Crash? || a.LosePower?)
    ensures Grounded(s') && s'.responses == s.responses
    ensures s'.journal.results == if a.Crash? then s.journal.results else a.journal.results
  {
  }

  /** Only a power loss takes results away, and every answer's result is on disk when it is given. */
  lemma NextGrounded(s: State, a: Step, s': State)
    requires Locks(s) && Grounded(s) && Next(s, a, s')
    ensures Grounded(s')
    ensures !a.LosePower? ==> ResultsStay(s.journal.results, s'.journal.results)
    ensures AddsAnswer(s.responses, s'.responses, s.journal.results, s'.reserved)
  {
    match a
    case Decide(t, m, j, d) => DecideGrounded(s, t, m, j, d, s');
    case PersistResult(t, files, ok) => PersistGrounded(s, t, files, ok, s');
    case End(t) => EndGrounded(s, t, s');
    case Reread(t) => RereadGrounded(s, t, s');
    case Restart(c, m) => RestartGrounded(s, c, m, s');
    case Crash => StopGrounded(s, a, s');
    case LosePower(j) => StopGrounded(s, a, s');
    case _ => ThreadStepGrounded(s, a, s');
  }

  ghost predicate Steps(s: State, a: Step, s': State) {
    var holds := Next(s, a, s');
    holds
  }

  lemma StepGrounded(s: State, a: Step, s': State)
    requires Locks(s) && Grounded(s) && Steps(s, a, s')
    ensures Grounded(s')
  {
    NextGrounded(s, a, s');
  }

  lemma InitGrounded(s: State)
    requires Init(s)
    ensures Grounded(s)
  {
  }

  lemma {:induction false} RunGrounded(states: seq<State>, steps: seq<Step>, k: nat)
    requires IsRun(states, steps) && k < |states|
    ensures Locks(states[k]) && Grounded(states[k])
  {
    RunLocks(states, steps, k);
    if k == 0 {
      InitGrounded(states[0]);
    } else {
      RunGrounded(states, steps, k - 1);
      StepGrounded(states[k - 1], steps[k - 1], states[k]);
    }
  }

  // ---------------------------------------------------------------------------------------
  // Agreement.
  // ---------------------------------------------------------------------------------------

  /** The results of the answers from the n-th on are on disk. */
  ghost predicate KeptFrom(responses: seq<Response>, results: map<string, File<Fragment>>, n: nat) {
    var holds := forall i | n <= i < |responses| :: OnDisk(results, responses[i].fragment);
    holds
  }

  /** A power loss keeps the results, still on disk, of the operations answered before it. */
  ghost predicate KeepsAnswers(s: State, a: Step) {
    a.LosePower? ==>
      forall r | r in s.responses && OnDisk(s.journal.results, r.fragment) :: OnDisk(a.journal.results, r.fragment)
  }

  lemma KeptStays(responses: seq<Response>, responses': seq<Response>, results: map<string, File<Fragment>>,
                  results': map<string, File<Fragment>>, reserved: set<Request>, n: nat)
    requires KeptFrom(responses, results, n) && n <= |responses|
    requires AddsAnswer(responses, responses', results, reserved) && ResultsStay(results, results')
    ensures KeptFrom(responses', results', n) && n <= |responses'|
  {
  }

  lemma PowerLossKept(s: State, a: Step, s': State, n: nat)
    requires Grounded(s) && Next(s, a, s') && a.LosePower? && KeepsAnswers(s, a)
    requires KeptFrom(s.responses, s.journal.results, n) && n <= |s.responses|
    ensures KeptFrom(s'.responses, s'.journal.results, n) && n <= |s'.responses|
  {
    StopGrounded(s, a, s');
  }

  lemma NextKept(s: State, a: Step, s': State, n: nat)
    requires Locks(s) && Grounded(s) && Next(s, a, s') && KeepsAnswers(s, a)
    requires KeptFrom(s.responses, s.journal.results, n) && n <= |s.responses|
    ensures KeptFrom(s'.responses, s'.journal.results, n) && n <= |s'.responses|
  {
    if a.LosePower? {
      PowerLossKept(s, a, s', n);
    } else {
      NextGrounded(s, a, s');
      KeptStays(s.responses, s'.responses, s.journal.results, s'.journal.results, s'.reserved, n);
    }
  }

  lemma KeptAgree(responses: seq<Response>, results: map<string, File<Fragment>>, reserved: set<Request>, n: nat,
                  i: nat, f: Fragment)
    requires AllTruthful(responses, reserved) && KeptFrom(responses, results, n) && OnDisk(results, f)
    requires n <= i < |responses| && responses[i].request.operationID == f.body.request.operationID
    ensures responses[i].fragment == f
  {
    assert Truthful(responses[i], reserved);
  }

  lemma {:induction false} RunKept(states: seq<State>, steps: seq<Step>, k: nat)
    requires IsRun(states, steps) && k < |states| && forall i | 0 <= i < k :: KeepsAnswers(states[i], steps[i])
    ensures KeptFrom(states[k].responses, states[k].journal.results, 0)
  {
    if k == 0 {
    } else {
      RunKept(states, steps, k - 1);
      RunGrounded(states, steps, k - 1);
      NextKept(states[k - 1], steps[k - 1], states[k], 0);
    }
  }

  /**
   All successful responses for one operation ID are identical, across threads, crashes, power losses
   and restarts, provided that no power loss takes away the result of an operation already answered.
   */
  lemma ResponsesAgree(states: seq<State>, steps: seq<Step>)
    requires IsRun(states, steps) && forall k | 0 <= k < |steps| :: KeepsAnswers(states[k], steps[k])
    ensures forall r, r' | r in Last(states).responses && r' in Last(states).responses
                        && r.request.operationID == r'.request.operationID :: r == r'
    ensures forall r | r in Last(states).responses ::
              r.request in Last(states).reserved && r.fragment.body.request == r.request
  {
    var s := Last(states);
    RunGrounded(states, steps, |states| - 1);
    RunKept(states, steps, |states| - 1);
    forall r | r in s.responses ensures Truthful(r, s.reserved) && OnDisk(s.journal.results, r.fragment) {
      var i :| 0 <= i < |s.responses| && s.responses[i] == r;
    }
  }

  /** The condition holds in every clean run, so in every run without power losses. */
  lemma CleanKeepsAnswers(states: seq<State>, steps: seq<Step>, k: nat)
    requires IsRun(states, steps) && k < |steps| && states[k + 1].clean
    ensures KeepsAnswers(states[k], steps[k])
  {
    var s, a := states[k], steps[k];
    RunDurable(states, steps, k);
    assert Next(s, a, states[k + 1]);
    if a.LosePower? {
      PowerLossKeeps(s.journal, a.journal);
      forall r | r in s.responses ensures OnDisk(a.journal.results, r.fragment) {
        assert Answered(s.journal, r.fragment);
        assert Lookup(a.journal.results, r.fragment.body.request.operationID) == Some(Complete(r.fragment, true));
      }
    }
  }

  /** Every answer given to the operation after the first n answers is this fragment. */
  ghost predicate Repeats(responses: seq<Response>, n: nat, f: Fragment) {
    var holds :=
      forall i | n <= i < |responses| && responses[i].request.operationID == f.body.request.operationID ::
        responses[i].fragment == f;
    holds
  }

  /** Every continuation without a power loss, from this time on, repeats the fragment. */
  ghost predicate Stands(states: seq<State>, steps: seq<Step>, f: Fragment, now: int)
    requires states != []
  {
    var holds :=
      forall states', steps' {:trigger ExtendsFrom(states, steps, states', steps', now)} |
        IsRun(states', steps') && ExtendsFrom(states, steps, states', steps', now) ::
        Repeats(Last(states').responses, |Last(states).responses|, f);
    holds
  }

  lemma {:induction false} OnDiskStands(states: seq<State>, steps: seq<Step>, k: nat, b: nat, f: Fragment)
    requires IsRun(states, steps) && b <= k < |states| && (forall i | b <= i < k :: !steps[i].LosePower?)
    requires OnDisk(states[b].journal.results, f)
    ensures OnDisk(states[k].journal.results, f) && |states[b].responses| <= |states[k].responses|
    ensures KeptFrom(states[k].responses, states[k].journal.results, |states[b].responses|)
    decreases k
  {
    if k == b {
    } else {
      OnDiskStands(states, steps, k - 1, b, f);
      RunGrounded(states, steps, k - 1);
      NextGrounded(states[k - 1], steps[k - 1], states[k]);
      NextKept(states[k - 1], steps[k - 1], states[k], |states[b].responses|);
    }
  }

  lemma StandsOnDisk(states: seq<State>, steps: seq<Step>, f: Fragment, states': seq<State>, steps': seq<Step>)
    requires IsRun(states, steps) && IsRun(states', steps') && Extends(states, steps, states', steps')
    requires OnDisk(Last(states).journal.results, f)
    ensures Repeats(Last(states').responses, |Last(states).responses|, f)
  {
    var b, k := |states| - 1, |states'| - 1;
    assert states'[b] == states[b];
    OnDiskStands(states', steps', k, b, f);
    RunGrounded(states', steps', k);
    var s := states'[k];
    forall i | |states[b].responses| <= i < |s.responses|
      && s.responses[i].request.operationID == f.body.request.operationID
      ensures s.responses[i].fragment == f
    {
      KeptAgree(s.responses, s.journal.results, s.reserved, |states[b].responses|, i, f);
    }
  }

  /** Once the result is off the disk, some continuation answers the request differently while its lease is open. */
  lemma LostDiverges(states: seq<State>, steps: seq<Step>, c: Config, m: Memory, q: Request, f: Fragment, now: int)
    returns (states': seq<State>, steps': seq<Step>)
    requires IsRun(states, steps) && Loads(c, Last(states).journal, m) && Serves(c, m, q) && ValidAt(q, now)
    requires f.body.request == q && !OnDisk(Last(states).journal.results, f)
    ensures IsRun(states', steps') && ExtendsFrom(states, steps, states', steps', now)
    ensures |Last(states').responses| == |Last(states).responses| + 1
    ensures var r := Last(states').responses[|Last(states).responses|]; r.request == q && r.fragment != f
  {
    var states1, steps1 := Stops(states, steps, now);
    ServedLoads(c, Last(states).journal, m, q);
    if q.operationID in m.results {
      states', steps' := AnswersFromJournal(states1, steps1, c, m, q, now);
    } else {
      var startedAt := if f.body.startedAt == now then now + 1 else now;
      states', steps' := AnswersAgain(states1, steps1, c, m, q, Error, startedAt, startedAt, now);
      assert Report(c, q, Error, startedAt, startedAt).body.startedAt == startedAt;
    }
    ExtendsTransitive(states, steps, states1, steps1, states', steps', now);
  }

  lemma LostFalls(states: seq<State>, steps: seq<Step>, c: Config, m: Memory, q: Request, f: Fragment, now: int)
    requires IsRun(states, steps) && Loads(c, Last(states).journal, m) && Serves(c, m, q) && ValidAt(q, now)
    requires f.body.request == q && !OnDisk(Last(states).journal.results, f)
    ensures !Stands(states, steps, f, now)
  {
    var states', steps' := LostDiverges(states, steps, c, m, q, f, now);
    assert !Repeats(Last(states').responses, |Last(states).responses|, f);
  }

  lemma AnswerIsTruthful(states: seq<State>, steps: seq<Step>, r: Response)
    requires IsRun(states, steps) && r in Last(states).responses
    ensures Truthful(r, Last(states).reserved)
  {
    RunGrounded(states, steps, |states| - 1);
    var i :| 0 <= i < |Last(states).responses| && Last(states).responses[i] == r;
  }

  /**
   An answer is repeated by every continuation up to the next power loss if and only if its result is
   on disk, whenever the journal still loads and the handler would take the request on again: its
   payload, its run and the number of reservations allow it and its lease is open.
   */
  lemma AnswerStandsIffOnDisk(states: seq<State>, steps: seq<Step>, c: Config, m: Memory, r: Response, now: int)
    requires IsRun(states, steps) && r in Last(states).responses
    requires Loads(c, Last(states).journal, m) && Serves(c, m, r.request) && ValidAt(r.request, now)
    ensures Stands(states, steps, r.fragment, now) <==> OnDisk(Last(states).journal.results, r.fragment)
  {
    AnswerIsTruthful(states, steps, r);
    if OnDisk(Last(states).journal.results, r.fragment) {
      forall states', steps' | IsRun(states', steps') && ExtendsFrom(states, steps, states', steps', now)
        ensures Repeats(Last(states').responses, |Last(states).responses|, r.fragment)
      {
        StandsOnDisk(states, steps, r.fragment, states', steps');
      }
    } else {
      LostFalls(states, steps, c, m, r.request, r.fragment, now);
    }
  }
}
