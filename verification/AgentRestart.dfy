/**
 When an agent can be restarted: what its own journal can look like after any run, and exactly which
 configurations accept it again.
 */
module AgentRestart {

  import opened HistoryWire
  import opened Options
  import opened AgentProtocol
  import opened AgentSafety
  import opened AgentRuns
  import opened AgentHandler
  import opened Permutations

  // ---------------------------------------------------------------------------------------
  // What agents write under one identity.
  // ---------------------------------------------------------------------------------------

  /** A complete file of this name has this content. */
  ghost predicate Has<T>(files: map<string, File<T>>, name: string, content: T) {
    name in files && files[name].Complete? && files[name].content == content
  }

  ghost predicate Names(identity: Option<File<Identity>>, id: Identity) {
    identity.Some? && identity.value.Complete? && identity.value.content == id
  }

  /** The configuration is one of those that the identity in the journal admits. */
  ghost predicate Matches(c: Config, identity: Option<File<Identity>>) {
    forall id :: Names(identity, id) ==> IdentityMatches(c, id)
  }

  /** The agent's own signed report about a request that it accepts. */
  ghost predicate IsReport(c: Config, f: Fragment) {
    && ValidConfig(c) && Acceptable(c, f.body.request)
    && exists answer, s, e :: f == Report(c, f.body.request, answer, s, e)
  }

  /** A report under any configuration that the identity admits. */
  ghost predicate IsReportUnder(id: Identity, f: Fragment) {
    exists c :: IdentityMatches(c, id) && IsReport(c, f)
  }

  ghost predicate GoodRequest(id: Identity, name: string, q: Request) {
    && ValidStatic(q, id.agentID, id.configurationID, id.sourceRevision) && q.operationID == name
    && q.runID == id.runID
  }

  ghost predicate GoodRequests(id: Identity, requests: map<string, File<Request>>) {
    var holds := forall name, q :: Has(requests, name, q) ==> GoodRequest(id, name, q);
    holds
  }

  ghost predicate GoodResult(id: Identity, requests: map<string, File<Request>>, name: string, f: Fragment) {
    && IsReportUnder(id, f) && f.body.request.operationID == name
    && forall q :: Has(requests, name, q) ==> f.body.request == q
  }

  ghost predicate GoodResults(id: Identity, requests: map<string, File<Request>>, results: map<string, File<Fragment>>)
  {
    var holds := forall name, f :: Has(results, name, f) ==> GoodResult(id, requests, name, f);
    holds
  }

  ghost predicate GoodJournal(j: Journal) {
    var holds := forall id :: Names(j.identity, id) ==>
                   GoodRequests(id, j.requests) && GoodResults(id, j.requests, j.results);
    holds
  }

  /** Requests and results only under an identity, and results only beside their requests. */
  ghost predicate Whole(j: Journal) {
    && (j.requests != map[] || j.results != map[] ==> j.identity.Some?)
    && j.results.Keys <= j.requests.Keys
  }

  /** A running handler has bound the run of the journal and reserved only requests that are in it. */
  ghost predicate GoodHandler(m: Memory, j: Journal) {
    var holds :=
      && (if m.runID == "" then j.requests == map[] && j.results == map[] && m.digests == map[]
          else exists id :: Names(j.identity, id) && id.runID == m.runID)
      && (forall op | op in m.digests :: m.digests[op].Sha256? && Has(j.requests, op, m.digests[op].request))
      && j.results.Keys <= j.requests.Keys;
    holds
  }

  ghost predicate GoodCaller(c: Config, th: Thread) {
    Acceptable(c, th.request) && (th.Signed? ==> IsReport(c, th.fragment) && th.fragment.body.request == th.request)
  }

  ghost predicate GoodCallers(c: Config, threads: map<nat, Thread>) {
    var holds := forall t | t in threads :: GoodCaller(c, threads[t]);
    holds
  }

  ghost predicate Running(s: State) {
    && ValidConfig(s.config) && Matches(s.config, s.journal.identity) && GoodHandler(s.memory, s.journal)
    && GoodCallers(s.config, s.threads)
  }

  ghost predicate Written(s: State) {
    GoodJournal(s.journal) && (s.up ==> Running(s))
  }

  // ---------------------------------------------------------------------------------------
  // Files.
  // ---------------------------------------------------------------------------------------

  /** Nothing is complete afterwards that was not complete before with the same content. */
  ghost predicate Fewer<T(!new)>(files: map<string, File<T>>, files': map<string, File<T>>) {
    var holds := forall name, x :: Has(files', name, x) ==> Has(files, name, x);
    holds
  }

  lemma FewerIsGood(j: Journal, j': Journal)
    requires GoodJournal(j) && Fewer(j.requests, j'.requests) && Fewer(j.results, j'.results)
    requires forall id :: Names(j'.identity, id) ==> Names(j.identity, id)
    ensures GoodJournal(j')
  {
    forall id | Names(j'.identity, id)
      ensures GoodRequests(id, j'.requests) && GoodResults(id, j'.requests, j'.results)
    {
      assert GoodRequests(id, j.requests) && GoodResults(id, j.requests, j.results);
      forall name, f | Has(j'.results, name, f) ensures GoodResult(id, j'.requests, name, f) {
        assert GoodResult(id, j.requests, name, f);
      }
    }
  }

  lemma PowerLossIsFewer(j: Journal, r: ReadBack, j': Journal)
    requires SurvivesPowerLoss(j, r, j')
    ensures Fewer(j.requests, j'.requests) && Fewer(j.results, j'.results)
    ensures forall id :: Names(j'.identity, id) ==> Names(j.identity, id)
  {
    forall name, q | Has(j'.requests, name, q) ensures Has(j.requests, name, q) {
      assert Lookup(j'.requests, name) != None;
    }
    forall name, f | Has(j'.results, name, f) ensures Has(j.results, name, f) {
      assert Lookup(j'.results, name) != None;
    }
  }

  lemma SettlingIsFewer(j: Journal)
    ensures Fewer(j.requests, SettleAll(j).requests) && Fewer(j.results, SettleAll(j).results)
    ensures forall id :: Names(SettleAll(j).identity, id) <==> Names(j.identity, id)
    ensures forall name, q :: Has(j.requests, name, q) ==> Has(SettleAll(j).requests, name, q)
    ensures SettleAll(j).requests.Keys == j.requests.Keys && SettleAll(j).results.Keys == j.results.Keys
  {
  }

  /** A write adds at most one file, and only where there was none. */
  ghost predicate Adds<T(!new)>(files: map<string, File<T>>, name: string, content: T, ok: bool,
                                files': map<string, File<T>>)
  {
    var holds :=
      && files.Keys <= files'.Keys <= files.Keys + {name}
      && (forall n, x :: Has(files, n, x) ==> Has(files', n, x))
      && (forall n, x :: Has(files', n, x) ==> Has(files, n, x) || (n == name && x == content && name !in files))
      && (ok ==> name !in files && Has(files', name, content));
    holds
  }

  lemma WriteAdds<T(!new)>(files: map<string, File<T>>, name: string, content: T, ok: bool,
                           files': map<string, File<T>>)
    requires WritesAt(files, name, content, ok, files')
    ensures Adds(files, name, content, ok, files')
  {
    forall n, x | Has(files, n, x) ensures Has(files', n, x) {
      assert n == name ==> Lookup(files, name) != None;
    }
    forall n, x | Has(files', n, x) ensures Has(files, n, x) || (n == name && x == content && name !in files) {
      assert n == name ==> Lookup(files', name) != None;
    }
  }

  // ---------------------------------------------------------------------------------------
  // The first critical section.
  // ---------------------------------------------------------------------------------------

  lemma ReserveGood(c: Config, m: Memory, j: Journal, t: nat, q: Request, m': Memory, j': Journal, d: Decision)
    requires Reserves(m, j, t, q, m', j', d) && m.runID == q.runID != "" && Acceptable(c, q)
    requires GoodJournal(j) && Matches(c, j.identity) && GoodHandler(m, j)
    ensures GoodJournal(j') && Matches(c, j'.identity) && GoodHandler(m', j')
  {
    WriteAdds(j.requests, q.operationID, q, d == Proceed, j'.requests);
    forall id | Names(j'.identity, id)
      ensures GoodRequests(id, j'.requests) && GoodResults(id, j'.requests, j'.results)
    {
      RequestGood(c, id, m, j, q, d == Proceed, j');
    }
  }

  lemma RequestGood(c: Config, id: Identity, m: Memory, j: Journal, q: Request, ok: bool, j': Journal)
    requires Names(j.identity, id) && IdentityMatches(c, id) && Acceptable(c, q) && m.runID == q.runID != ""
    requires GoodHandler(m, j) && Adds(j.requests, q.operationID, q, ok, j'.requests) && j'.results == j.results
    requires GoodRequests(id, j.requests) && GoodResults(id, j.requests, j.results)
    ensures GoodRequests(id, j'.requests) && GoodResults(id, j'.requests, j'.results)
  {
    forall name, p | Has(j'.requests, name, p) ensures GoodRequest(id, name, p) {
      assert Has(j.requests, name, p) ==> GoodRequest(id, name, p);
    }
    forall name, f | Has(j'.results, name, f) ensures GoodResult(id, j'.requests, name, f) {
      assert GoodResult(id, j.requests, name, f);
      assert name in j.results.Keys;
    }
  }

  lemma BindGood(c: Config, m: Memory, j: Journal, q: Request, m': Memory, j': Journal)
    requires GoodJournal(j) && GoodHandler(m, j) && m.runID == "" && Acceptable(c, q)
    requires j.identity == None && j' == j.(identity := Some(Complete(IdentityOf(c, q.runID), true)))
    requires m' == m.(runID := q.runID)
    ensures GoodJournal(j') && Matches(c, j'.identity) && GoodHandler(m', j')
  {
    assert Names(j'.identity, IdentityOf(c, q.runID));
  }

  lemma FailedBindGood(c: Config, m: Memory, j: Journal, q: Request, j': Journal)
    requires GoodJournal(j) && Matches(c, j.identity) && GoodHandler(m, j) && m.runID == "" && Acceptable(c, q)
    requires Writes(j.identity, IdentityOf(c, q.runID), false, j'.identity) && j'.requests == j.requests
             && j'.results == j.results
    ensures GoodJournal(j') && Matches(c, j'.identity) && GoodHandler(m, j')
  {
  }

  lemma BindAndReserveGood(c: Config, m: Memory, j: Journal, t: nat, q: Request, m': Memory, j': Journal, d: Decision)
    requires BindsAndReserves(c, m, j, t, q, m', j', d) && (m.runID == "" || m.runID == q.runID) && Acceptable(c, q)
    requires GoodJournal(j) && Matches(c, j.identity) && GoodHandler(m, j)
    ensures GoodJournal(j') && Matches(c, j'.identity) && GoodHandler(m', j')
  {
    if m.runID != "" {
      ReserveGood(c, m, j, t, q, m', j', d);
    } else {
      var m1, j1 := m.(runID := q.runID), j.(identity := Some(Complete(IdentityOf(c, q.runID), true)));
      if j.identity == None && Reserves(m1, j1, t, q, m', j', d) {
        BindGood(c, m, j, q, m1, j1);
        ReserveGood(c, m1, j1, t, q, m', j', d);
      } else {
        FailedBindGood(c, m, j, q, j');
      }
    }
  }

  /** The handler's view of the journal depends on its run and its digests alone. */
  lemma SameHandler(m: Memory, m': Memory, j: Journal)
    requires GoodHandler(m, j) && m'.runID == m.runID && m'.digests == m.digests
    ensures GoodHandler(m', j)
  {
  }

  lemma SectionGood(c: Config, m: Memory, j: Journal, t: nat, q: Request, m': Memory, j': Journal, d: Decision)
    requires FirstSection(c, m, j, t, q, m', j', d) && Acceptable(c, q)
    requires GoodJournal(j) && Matches(c, j.identity) && GoodHandler(m, j)
    ensures GoodJournal(j') && Matches(c, j'.identity) && GoodHandler(m', j')
  {
    if j' == j && m'.runID == m.runID && m'.digests == m.digests {
      SameHandler(m, m', j);
    } else {
      BindAndReserveGood(c, m, j, t, q, m', j', d);
    }
  }

  // ---------------------------------------------------------------------------------------
  // Steps and runs.
  // ---------------------------------------------------------------------------------------

  lemma CallersChange(c: Config, threads: map<nat, Thread>, t: nat, th: Thread)
    requires GoodCallers(c, threads) && GoodCaller(c, th)
    ensures GoodCallers(c, threads[t := th]) && GoodCallers(c, threads - {t})
  {
  }

  lemma DecideWritten(s: State, t: nat, m: Memory, j: Journal, d: Decision, s': State)
    requires Written(s) && Decides(s, t, m, j, d, s')
    ensures Written(s')
  {
    var q := s.threads[t].request;
    assert GoodCaller(s.config, s.threads[t]);
    SectionGood(s.config, s.memory, s.journal, t, q, m, j, d);
    CallersChange(s.config, s.threads, t, if d.Await? then Waiting(q, d.channel) else Executing(q));
  }

  lemma PersistWritten(s: State, t: nat, files: map<string, File<Fragment>>, ok: bool, s': State)
    requires Locks(s) && Written(s) && PersistsResult(s, t, files, ok, s')
    ensures Written(s')
  {
    var th := s.threads[t];
    assert GoodCaller(s.config, th) && GoodThread(s.memory, t, th);
    WriteAdds(s.journal.results, th.request.operationID, th.fragment, ok, files);
    ResultGood(s.config, s.memory, s.journal, th.fragment, ok, s'.journal);
    CallersChange(s.config, s.threads, t, s'.threads[t]);
  }

  lemma ResultGood(c: Config, m: Memory, j: Journal, f: Fragment, ok: bool, j': Journal)
    requires GoodJournal(j) && Matches(c, j.identity) && GoodHandler(m, j) && IsReport(c, f)
    requires var op := f.body.request.operationID; op in m.digests && m.digests[op] == Sha256(f.body.request)
    requires j' == j.(results := j'.results) && Adds(j.results, f.body.request.operationID, f, ok, j'.results)
    ensures GoodJournal(j') && GoodHandler(m, j')
  {
    forall id | Names(j'.identity, id) ensures GoodResults(id, j'.requests, j'.results) {
      forall name, g | Has(j'.results, name, g) ensures GoodResult(id, j'.requests, name, g) {
        assert Has(j.results, name, g) ==> GoodResult(id, j.requests, name, g);
      }
    }
  }

  lemma OwnerWritten(s: State, a: Step, s': State)
    requires Locks(s) && Written(s) && Next(s, a, s') && (a.Execute? || a.End? || a.Reread?)
    ensures Written(s')
  {
    var th := s.threads[a.thread];
    assert GoodCaller(s.config, th);
    if a.Execute? {
      ReportIsReport(s.config, th.request, a.answer, a.startedAt, a.finishedAt);
    } else {
      SameHandler(s.memory, s'.memory, s.journal);
    }
    CallersChange(s.config, s.threads, a.thread, if a.Execute? then s'.threads[a.thread] else th);
  }

  lemma ReportIsReport(c: Config, q: Request, answer: Answer, startedAt: int, finishedAt: int)
    requires ValidConfig(c) && Acceptable(c, q)
    ensures IsReport(c, Report(c, q, answer, startedAt, finishedAt))
  {
    assert Report(c, q, answer, startedAt, finishedAt).body.request == q;
  }

  lemma WaiterWritten(s: State, a: Step, s': State)
    requires Written(s) && Next(s, a, s') && (a.Call? || a.Wake? || a.Cancel?)
    ensures Written(s')
  {
    var t := if a.Call? then s.nextThread else a.thread;
    var th := if a.Call? then Entered(a.request) else if a.Wake? then Woken(s.threads[t].request) else s.threads[t];
    CallersChange(s.config, s.threads, t, th);
  }

  lemma StopWritten(s: State, a: Step, s': State)
    requires Written(s) && Next(s, a, s') && (a.Crash? || a.LosePower?)
    ensures Written(s')
  {
    if a.LosePower? {
      PowerLossIsFewer(s.journal, s.readBack, a.journal);
      FewerIsGood(s.journal, a.journal);
    }
  }

  lemma LoadGood(c: Config, j: Journal, m: Memory)
    requires Loads(c, j, m)
    ensures GoodHandler(m, SettleAll(j))
  {
    SettlingIsFewer(j);
    if j != EMPTY_JOURNAL {
      assert Names(j.identity, j.identity.value.content);
      forall op | op in m.digests
        ensures m.digests[op].Sha256? && Has(SettleAll(j).requests, op, m.digests[op].request)
      {
        assert LoadsRequest(c, m.runID, op, j.requests[op]);
        assert Has(j.requests, op, j.requests[op].content);
      }
      forall name | name in j.results ensures name in j.requests {
        assert LoadsResult(c, m.runID, j.requests, name, j.results[name]);
      }
    }
  }

  lemma RestartWritten(s: State, c: Config, m: Memory, s': State)
    requires Written(s) && Restarts(s, c, m, s') && ValidConfig(c)
    ensures Written(s')
  {
    SettlingIsFewer(s.journal);
    FewerIsGood(s.journal, s'.journal);
    LoadGood(c, s.journal, m);
  }

  lemma NextWritten(s: State, a: Step, s': State)
    requires Locks(s) && Written(s) && Next(s, a, s') && (a.Restart? ==> ValidConfig(a.config))
    ensures Written(s')
  {
    match a
    case Decide(t, m, j, d) => DecideWritten(s, t, m, j, d, s');
    case PersistResult(t, files, ok) => PersistWritten(s, t, files, ok, s');
    case Restart(c, m) => RestartWritten(s, c, m, s');
    case Crash => StopWritten(s, a, s');
    case LosePower(_) => StopWritten(s, a, s');
    case Execute(_, _, _, _, _) => OwnerWritten(s, a, s');
    case End(_) => OwnerWritten(s, a, s');
    case Reread(_) => OwnerWritten(s, a, s');
    case _ => WaiterWritten(s, a, s');
  }

  /** Every restart passes the checks that the service makes before it starts. */
  ghost predicate ValidRestarts(steps: seq<Step>) {
    forall i | 0 <= i < |steps| && steps[i].Restart? :: ValidConfig(steps[i].config)
  }

  lemma {:induction false} RunWritten(states: seq<State>, steps: seq<Step>, k: nat)
    requires IsRun(states, steps) && k < |states| && ValidRestarts(steps)
    ensures Locks(states[k]) && Written(states[k])
  {
    RunLocks(states, steps, k);
    if k == 0 {
    } else {
      RunWritten(states, steps, k - 1);
      NextWritten(states[k - 1], steps[k - 1], states[k]);
    }
  }

  // ---------------------------------------------------------------------------------------
  // Which journals are accepted again.
  // ---------------------------------------------------------------------------------------

  /** The clock did not run backwards, the result is within its lease, and a loaded anchor has a wire form. */
  predicate Reloads(f: Fragment) {
    && 0 != f.body.startedAt <= f.body.finishedAt
    && f.body.request.issuedAt - 30_000_000_000 <= f.body.startedAt
    && f.body.finishedAt <= f.body.request.expiresAt + 1_000_000_000
    && (f.body.value.present ==> f.body.value.minimumGeneration > 0)
  }

  /** Any configuration that the identity admits accepts exactly the reports under it that reload. */
  lemma ReportReloads(c: Config, id: Identity, f: Fragment)
    requires IdentityMatches(c, id) && IsReportUnder(id, f) && f.body.request.runID == id.runID
    ensures Evidence(f, c.agentID, c.signingPublicKey, id.runID, c.configurationID, c.sourceRevision) <==> Reloads(f)
  {
    var q := f.body.request;
    var d :| IdentityMatches(d, id) && IsReport(d, f);
    var answer, s, e :| f == Report(d, q, answer, s, e);
    OwnReportReloads(d, q, answer, s, e);
  }

  /** No file is torn, every result reloads, and there are no more requests than reservations. */
  ghost predicate Sound(j: Journal) {
    && (j.identity.Some? ==> j.identity.value.Complete?)
    && (forall name | name in j.requests :: j.requests[name].Complete?)
    && (forall name | name in j.results :: j.results[name].Complete? && Reloads(j.results[name].content))
    && |j.requests| <= MAX_RESERVATIONS
  }

  lemma SoundLoads(c: Config, j: Journal)
    requires GoodJournal(j) && Matches(c, j.identity) && Whole(j) && Sound(j)
    ensures Loadable(c, j)
  {
    if j != EMPTY_JOURNAL {
      var id := j.identity.value.content;
      assert Names(j.identity, id);
      forall name | name in j.requests ensures LoadsRequest(c, id.runID, name, j.requests[name]) {
        assert Has(j.requests, name, j.requests[name].content);
        assert GoodRequest(id, name, j.requests[name].content);
      }
      forall name | name in j.results ensures LoadsResult(c, id.runID, j.requests, name, j.results[name]) {
        var q, f := j.requests[name].content, j.results[name].content;
        assert Has(j.requests, name, q) && Has(j.results, name, f);
        assert GoodRequest(id, name, q) && GoodResult(id, j.requests, name, f);
        ReportReloads(c, id, f);
      }
    }
  }

  lemma LoadableIsSound(c: Config, j: Journal)
    requires GoodJournal(j) && Loadable(c, j)
    ensures Matches(c, j.identity) && Whole(j) && Sound(j)
  {
    if j != EMPTY_JOURNAL {
      var id := j.identity.value.content;
      assert Names(j.identity, id);
      forall name | name in j.requests ensures j.requests[name].Complete? {
        assert LoadsRequest(c, id.runID, name, j.requests[name]);
      }
      forall name | name in j.results
        ensures name in j.requests && j.results[name].Complete? && Reloads(j.results[name].content)
      {
        assert LoadsResult(c, id.runID, j.requests, name, j.results[name]);
        assert Has(j.results, name, j.results[name].content);
        assert GoodResult(id, j.requests, name, j.results[name].content);
        ReportReloads(c, id, j.results[name].content);
      }
    }
  }

  /**
   After any run, a configuration accepts the journal again exactly if the journal's identity admits
   it, no file is torn, none is missing that another one needs, every result on disk reloads, and
   failed writes have not left more request files than there may be reservations.
   */
  lemma RestartsExactly(states: seq<State>, steps: seq<Step>, c: Config)
    requires IsRun(states, steps) && ValidRestarts(steps)
    ensures var j := Last(states).journal; Loadable(c, j) <==> Matches(c, j.identity) && Whole(j) && Sound(j)
  {
    RunWritten(states, steps, |steps|);
    var j := Last(states).journal;
    if Matches(c, j.identity) && Whole(j) && Sound(j) {
      SoundLoads(c, j);
    }
    if Loadable(c, j) {
      LoadableIsSound(c, j);
    }
  }

  /** A running handler's journal has whatever its files need. */
  lemma RunningIsWhole(m: Memory, j: Journal)
    requires GoodHandler(m, j)
    ensures Whole(j)
  {
  }

  lemma {:induction false} RunWhole(states: seq<State>, steps: seq<Step>, k: nat)
    requires IsRun(states, steps) && k < |states| && ValidRestarts(steps)
    requires forall i | 0 <= i < k :: !steps[i].LosePower?
    ensures Whole(states[k].journal)
  {
    if k == 0 {
    } else {
      RunWritten(states, steps, k);
      if states[k].up {
        RunningIsWhole(states[k].memory, states[k].journal);
      } else {
        RunWhole(states, steps, k - 1);
        assert Next(states[k - 1], steps[k - 1], states[k]);
        StaysDown(states[k - 1], steps[k - 1], states[k]);
      }
    }
  }

  lemma StaysDown(s: State, a: Step, s': State)
    requires Next(s, a, s') && !s'.up && !a.LosePower?
    ensures s'.journal == s.journal
  {
  }

  /** Without power losses nothing is ever missing. */
  lemma RestartsWithoutPowerLoss(states: seq<State>, steps: seq<Step>, c: Config)
    requires IsRun(states, steps) && ValidRestarts(steps) && forall i | 0 <= i < |steps| :: !steps[i].LosePower?
    ensures var j := Last(states).journal; Loadable(c, j) <==> Matches(c, j.identity) && Sound(j)
  {
    RestartsExactly(states, steps, c);
    RunWhole(states, steps, |steps|);
  }

  // ---------------------------------------------------------------------------------------
  // Failed writes alone can make a journal unacceptable: their files count at the next restart.
  // ---------------------------------------------------------------------------------------

  ghost function Named(q: Request, n: nat): Request { q.(operationID := seq(n + 1, _ => 'a')) }

  /** The first n requests, each complete although its write reported an error, or read back since. */
  ghost function Leftovers(q: Request, n: nat, settled: bool): (files: map<string, File<Request>>)
    ensures |files| == n
    ensures forall name | name in files :: |name| <= n && files[name].Complete?
  {
    if n == 0 then map[]
    else
      var files := Leftovers(q, n - 1, settled);
      assert Named(q, n - 1).operationID !in files;
      files[Named(q, n - 1).operationID := Complete(Named(q, n - 1), settled)]
  }

  ghost function LeftBehind(c: Config, q: Request, n: nat): Journal {
    if n == 0 then EMPTY_JOURNAL
       else Journal(Some(Complete(IdentityOf(c, q.runID), true)), Leftovers(q, n, false), map[])
  }

  ghost function Idle(q: Request, n: nat): Memory {
    if n == 0 then FRESH else Memory(q.runID, map[], map[], map[])
  }

  ghost predicate AfterFailures(s: State, c: Config, q: Request, n: nat) {
    var holds := s.up && s.config == c && s.threads == map[] && s.memory == Idle(q, n)
                 && s.journal == LeftBehind(c, q, n);
    holds
  }

  lemma NamedIsAcceptable(c: Config, q: Request, n: nat, now: int)
    requires Acceptable(c, q) && n < 128
    ensures Acceptable(c, Named(q, n)) && (ValidAt(q, now) ==> ValidAt(Named(q, n), now))
  {
  }

  lemma LeftoverWritten(q: Request, n: nat)
    ensures WritesAt(Leftovers(q, n, false), Named(q, n).operationID, Named(q, n), false, Leftovers(q, n + 1, false))
  {
    assert Named(q, n).operationID !in Leftovers(q, n, false);
  }

  lemma ReservationFails(c: Config, q: Request, n: nat, t: nat)
    ensures var j := Journal(Some(Complete(IdentityOf(c, q.runID), true)), Leftovers(q, n, false), map[]);
            Reserves(Idle(q, n + 1), j, t, Named(q, n), Idle(q, n + 1), LeftBehind(c, q, n + 1), Refuse)
  {
    LeftoverWritten(q, n);
  }

  lemma SectionFails(c: Config, q: Request, n: nat, t: nat)
    requires Acceptable(c, q)
    ensures FirstSection(c, Idle(q, n), LeftBehind(c, q, n), t, Named(q, n), Idle(q, n + 1), LeftBehind(c, q, n + 1),
                         Refuse)
  {
    ReservationFails(c, q, n, t);
  }

  lemma DecisionFails(s: State, c: Config, q: Request, n: nat, t: nat)
    requires s.up && s.config == c && s.memory == Idle(q, n) && s.journal == LeftBehind(c, q, n)
    requires Acceptable(c, q) && s.threads == map[t := Entered(Named(q, n))]
    ensures var m, j := Idle(q, n + 1), LeftBehind(c, q, n + 1);
            Decides(s, t, m, j, Refuse, s.(memory := m, journal := j, threads := map[]))
  {
    SectionFails(c, q, n, t);
    assert s.threads - {t} == map[];
  }

  lemma CallsAlone(s: State, q: Request, now: int, s': State)
    requires s.up && s.threads == map[] && Acceptable(s.config, q) && ValidAt(q, now)
    requires s' == s.(threads := map[s.nextThread := Entered(q)], nextThread := s.nextThread + 1)
    ensures Calls(s, q, now, s')
  {
    assert s.threads[s.nextThread := Entered(q)] == s'.threads;
  }

  /** A call that arrives and is refused. */
  ghost predicate Refused(s: State, a: Step, s1: State, b: Step, s2: State) {
    var holds := a.Call? && b.Decide? && Next(s, a, s1) && Next(s1, b, s2);
    holds
  }

  lemma CallFails(s: State, c: Config, q: Request, n: nat, now: int) returns (a: Step, s1: State, b: Step, s2: State)
    requires AfterFailures(s, c, q, n) && Acceptable(c, q) && ValidAt(q, now) && n < 128
    ensures Refused(s, a, s1, b, s2) && AfterFailures(s2, c, q, n + 1)
  {
    var t, m, j := s.nextThread, Idle(q, n + 1), LeftBehind(c, q, n + 1);
    a, b := Call(Named(q, n), now), Decide(t, m, j, Refuse);
    s1 := s.(threads := map[t := Entered(Named(q, n))], nextThread := t + 1);
    s2 := s1.(memory := m, journal := j, threads := map[]);
    NamedIsAcceptable(c, q, n, now);
    CallsAlone(s, Named(q, n), now, s1);
    DecisionFails(s1, c, q, n, t);
  }

  lemma OneMoreFails(states0: seq<State>, steps0: seq<Step>, c: Config, q: Request, n: nat, now: int)
    returns (states: seq<State>, steps: seq<Step>)
    requires IsRun(states0, steps0) && AfterFailures(Last(states0), c, q, n)
    requires Acceptable(c, q) && ValidAt(q, now) && n < 128
    ensures IsRun(states, steps) && AfterFailures(Last(states), c, q, n + 1)
    ensures steps0 <= steps && forall k | |steps0| <= k < |steps| :: steps[k].Call? || steps[k].Decide?
  {
    var a, s1, b, s2 := CallFails(Last(states0), c, q, n, now);
    states, steps := Then(states0, steps0, a, s1, now);
    states, steps := Then(states, steps, b, s2, now);
  }

  /** Until the next power loss no configuration accepts the journal. */
  ghost predicate Blocked(states: seq<State>, steps: seq<Step>)
    requires states != []
  {
    forall states', steps' {:trigger Extends(states, steps, states', steps')} |
      IsRun(states', steps') && Extends(states, steps, states', steps') ::
      forall c :: !Loadable(c, Last(states').journal)
  }

  lemma SectionKeepsNames(c: Config, m: Memory, j: Journal, t: nat, q: Request, m': Memory, j': Journal, d: Decision)
    requires FirstSection(c, m, j, t, q, m', j', d)
    ensures j.requests.Keys <= j'.requests.Keys
  {
  }

  lemma NextKeepsNames(s: State, a: Step, s': State)
    requires Next(s, a, s') && !a.LosePower?
    ensures s.journal.requests.Keys <= s'.journal.requests.Keys
  {
    if a.Decide? {
      SectionKeepsNames(s.config, s.memory, s.journal, a.thread, s.threads[a.thread].request, a.memory, a.journal,
                        a.decision);
    }
  }

  lemma {:induction false} NamesOnlyGrow(states: seq<State>, steps: seq<Step>, b: nat, k: nat)
    requires IsRun(states, steps) && b <= k < |states| && forall i | b <= i < k :: !steps[i].LosePower?
    ensures states[b].journal.requests.Keys <= states[k].journal.requests.Keys
    decreases k
  {
    if k == b {
    } else {
      NamesOnlyGrow(states, steps, b, k - 1);
      assert Next(states[k - 1], steps[k - 1], states[k]);
      NextKeepsNames(states[k - 1], steps[k - 1], states[k]);
    }
  }

  /** With more request files than reservations an agent is never restarted before a power loss. */
  lemma TooManyRequestsBlock(states: seq<State>, steps: seq<Step>)
    requires IsRun(states, steps) && |Last(states).journal.requests| > MAX_RESERVATIONS
    ensures Blocked(states, steps)
  {
    forall states', steps' | IsRun(states', steps') && Extends(states, steps, states', steps')
      ensures forall c :: !Loadable(c, Last(states').journal)
    {
      assert states'[|steps|] == states[|steps|];
      NamesOnlyGrow(states', steps', |steps|, |steps'|);
      var before, after := Last(states).journal.requests, Last(states').journal.requests;
      SubsetSize(before.Keys, after.Keys);
      assert |before.Keys| == |before| && |after.Keys| == |after|;
    }
  }

  /**
   For every configuration and acceptable request there is a run without crashes or power losses, in
   which every write but one reports an error, that ends in a journal which no configuration accepts
   until a power loss, although nothing in it is torn or missing.
   */
  lemma FailedWritesBlockRestart(c: Config, q: Request, now: int) returns (states: seq<State>, steps: seq<Step>)
    requires Acceptable(c, q) && ValidAt(q, now)
    ensures IsRun(states, steps) && AfterFailures(Last(states), c, q, MAX_RESERVATIONS + 1)
    ensures forall k | 0 <= k < |steps| :: !steps[k].LosePower? && !steps[k].Crash?
    ensures var j := Last(states).journal;
            Whole(j) && j.results == map[] && (forall name | name in j.requests :: j.requests[name].Complete?)
    ensures Blocked(states, steps)
  {
    var s0 := State(false, c, FRESH, map[], 0, EMPTY_JOURNAL, NOTHING_READ, [], {}, [], [], true);
    var s1 := s0.(up := true);
    assert SettleAll(EMPTY_JOURNAL) == EMPTY_JOURNAL && Reservations(FRESH) == {};
    assert AlsoReading(NOTHING_READ, EMPTY_JOURNAL) == NOTHING_READ;
    assert Restarts(s0, c, FRESH, s1);
    states, steps := [s0, s1], [Restart(c, FRESH)];
    for n := 0 to MAX_RESERVATIONS + 1
      invariant IsRun(states, steps) && AfterFailures(Last(states), c, q, n)
      invariant forall k | 0 <= k < |steps| :: !steps[k].LosePower? && !steps[k].Crash?
    {
      states, steps := OneMoreFails(states, steps, c, q, n, now);
    }
    TooManyRequestsBlock(states, steps);
  }

  lemma {:induction false} LeftoverIs(q: Request, n: nat, settled: bool, name: string)
    requires name in Leftovers(q, n, settled)
    ensures exists k :: 0 <= k < n && name == Named(q, k).operationID
                     && Leftovers(q, n, settled)[name] == Complete(Named(q, k), settled)
  {
    if n == 0 {
    } else if name == Named(q, n - 1).operationID {
    } else {
      LeftoverIs(q, n - 1, settled, name);
    }
  }

  lemma {:induction false} SettledLeftovers(q: Request, n: nat, name: string)
    ensures name in Leftovers(q, n, true) <==> name in Leftovers(q, n, false)
    ensures name in Leftovers(q, n, true) ==>
              Leftovers(q, n, true)[name] == Settle(Leftovers(q, n, false)[name])
              && !Leftovers(q, n, false)[name].settled
  {
    if n == 0 {
    } else {
      SettledLeftovers(q, n - 1, name);
    }
  }

  /** Of n + 1 files whose writes reported an error, a power loss may drop the last and keep the others. */
  lemma OneMayGo(c: Config, q: Request, n: nat, r: ReadBack)
    requires n > 0
    ensures SurvivesPowerLoss(LeftBehind(c, q, n + 1), r, LeftBehind(c, q, n).(requests := Leftovers(q, n, true)))
  {
    forall name
      ensures var before := Lookup(Leftovers(q, n + 1, false), name);
              Survives(before, IsSettled(before) && name !in r.requests, Lookup(Leftovers(q, n, true), name))
    {
      SettledLeftovers(q, n, name);
    }
  }

  lemma LeftoversLoad(c: Config, q: Request, n: nat)
    requires Acceptable(c, q) && 0 < n <= MAX_RESERVATIONS
    ensures Loadable(c, LeftBehind(c, q, n).(requests := Leftovers(q, n, true)))
  {
    var files := Leftovers(q, n, true);
    forall name | name in files ensures LoadsRequest(c, q.runID, name, files[name]) {
      LeftoverIs(q, n, true, name);
      var k :| 0 <= k < n && name == Named(q, k).operationID && files[name] == Complete(Named(q, k), true);
      NamedIsAcceptable(c, q, k, 0);
    }
  }

  /** A power loss that drops one of the unreported files makes that journal acceptable again. */
  lemma PowerLossMayUnblock(s: State, c: Config, q: Request) returns (j: Journal, s': State)
    requires AfterFailures(s, c, q, MAX_RESERVATIONS + 1) && Acceptable(c, q)
    ensures Next(s, LosePower(j), s') && Loadable(c, j)
  {
    j := LeftBehind(c, q, MAX_RESERVATIONS).(requests := Leftovers(q, MAX_RESERVATIONS, true));
    OneMayGo(c, q, MAX_RESERVATIONS, s.readBack);
    s' := Stopped(s).(journal := j, readBack := NOTHING_READ,
                      clean := s.clean && SurvivesPowerLoss(s.journal, NOTHING_READ, j));
    LeftoversLoad(c, q, MAX_RESERVATIONS);
  }
}
