/**
 The history agent as a transition system: concurrent `execute` calls against one handler and one
 journal directory, with journal write failures, process crashes, power losses and restarts.
 */
module AgentProtocol {

  import opened HistoryWire
  import opened Options
  import opened AnchorHistory

  /** `MaxAnchorHistoryOperations - 1`. */
  const MAX_RESERVATIONS: nat := MAX_OPERATIONS - 1

  // ---------------------------------------------------------------------------------------
  // The journal directory. A file is created exclusively and never overwritten. `settled` says that
  // the agent relies on it: its write reported success, or a restart has read it.
  // ---------------------------------------------------------------------------------------

  datatype File<+T> = Torn | Complete(content: T, settled: bool)

  datatype Identity = Identity(
    schemaVersion: nat, runID: string, agentID: string, configurationID: string, sourceRevision: string,
    buildRevision: string, buildModified: bool, signingPublicKey: string)

  /** File names are an entry kind and a hash of the operation ID, so files are keyed by operation ID. */
  datatype Journal = Journal(identity: Option<File<Identity>>, requests: map<string, File<Request>>,
                             results: map<string, File<Fragment>>)

  const EMPTY_JOURNAL: Journal := Journal(None, map[], map[])

  /** The outcomes of an exclusive durable write: success, or an error that may leave a file behind. */
  predicate Writes<T(==)>(before: Option<File<T>>, content: T, ok: bool, after: Option<File<T>>) {
    if ok then before == None && after == Some(Complete(content, true))
    else after == before || (before == None && (after == Some(Torn) || after == Some(Complete(content, false))))
  }

  function Lookup<T>(files: map<string, File<T>>, name: string): Option<File<T>> {
    if name in files then Some(files[name]) else None
  }

  predicate WritesAt<T(==)>(before: map<string, File<T>>, name: string, content: T, ok: bool,
                            after: map<string, File<T>>)
  {
    && Writes(Lookup(before, name), content, ok, Lookup(after, name))
    && (forall x | x in before :: x in after && (x != name ==> after[x] == before[x]))
    && (forall x | x in after :: x in before || x == name)
  }

  /** A power loss keeps a file whose write reported success and may drop, tear or keep any other. */
  predicate Survives<T(==)>(before: Option<File<T>>, synced: bool, after: Option<File<T>>) {
    match before
    case None => after == None
    case Some(Torn) => after == None || after == Some(Torn)
    case Some(Complete(content, _)) =>
      after == Some(Complete(content, true)) || (!synced && (after == None || after == Some(Torn)))
  }

  predicate IsSettled<T>(file: Option<File<T>>) { file.Some? && file.value.Complete? && file.value.settled }

  /** The settled files whose writes had reported an error: a restart has read them back. */
  datatype ReadBack = ReadBack(identity: bool, requests: set<string>, results: set<string>)

  const NOTHING_READ: ReadBack := ReadBack(false, {}, {})

  ghost predicate SurvivesPowerLoss(j: Journal, r: ReadBack, j': Journal) {
    && Survives(j.identity, IsSettled(j.identity) && !r.identity, j'.identity)
    && (forall name ::
          Survives(Lookup(j.requests, name), IsSettled(Lookup(j.requests, name)) && name !in r.requests,
                   Lookup(j'.requests, name)))
    && (forall name ::
          Survives(Lookup(j.results, name), IsSettled(Lookup(j.results, name)) && name !in r.results,
                   Lookup(j'.results, name)))
  }

  function Settle<T>(file: File<T>): File<T> { if file.Complete? then Complete(file.content, true) else file }

  function SettleAll(j: Journal): Journal {
    Journal(if j.identity.Some? then Some(Settle(j.identity.value)) else None,
            map name | name in j.requests :: Settle(j.requests[name]),
            map name | name in j.results :: Settle(j.results[name]))
  }

  function Unsettled<T>(files: map<string, File<T>>): set<string> {
    set name | name in files && files[name].Complete? && !files[name].settled
  }

  function AlsoReading(r: ReadBack, j: Journal): ReadBack {
    ReadBack(r.identity || (j.identity.Some? && j.identity.value.Complete? && !j.identity.value.settled),
             r.requests + Unsettled(j.requests), r.results + Unsettled(j.results))
  }

  // ---------------------------------------------------------------------------------------
  // The handler's memory and its first critical section.
  // ---------------------------------------------------------------------------------------

  /** Channels are named after the thread that creates them. An empty run ID means no run yet. */
  datatype Memory = Memory(
    runID: string, results: map<string, Fragment>, digests: map<string, Digest>, inFlight: map<string, nat>)

  const FRESH: Memory := Memory("", map[], map[], map[])

  datatype Decision = Refuse | Reply(fragment: Fragment) | Await(channel: nat) | Proceed

  function IdentityOf(c: Config, runID: string): Identity {
    Identity(PROTOCOL_SCHEMA, runID, c.agentID, c.configurationID, c.sourceRevision, c.buildRevision, c.buildModified,
             c.signingPublicKey)
  }

  /** The request is written ahead; only then is the operation reserved in memory. */
  predicate Reserves(m: Memory, j: Journal, t: nat, q: Request, m': Memory, j': Journal, d: Decision) {
    && (d == Proceed || d == Refuse)
    && j'.identity == j.identity && j'.results == j.results
    && WritesAt(j.requests, q.operationID, q, d == Proceed, j'.requests)
    && m' == if d == Refuse then m
             else m.(digests := m.digests[q.operationID := Sha256(q)], inFlight := m.inFlight[q.operationID := t])
  }

  /** The run is bound, if need be, before the first reservation. */
  predicate BindsAndReserves(c: Config, m: Memory, j: Journal, t: nat, q: Request, m': Memory, j': Journal, d: Decision)
  {
    if m.runID != "" then
      Reserves(m, j, t, q, m', j', d)
    else
      || (&& d == Refuse && m' == m
          && Writes(j.identity, IdentityOf(c, q.runID), false, j'.identity)
          && j'.requests == j.requests && j'.results == j.results)
      || (&& j.identity == None
          && var bound := j.(identity := Some(Complete(IdentityOf(c, q.runID), true)));
          && Reserves(m.(runID := q.runID), bound, t, q, m', j', d))
  }

  /** Everything that happens between the first `Lock` and `Unlock` of one call. */
  predicate FirstSection(c: Config, m: Memory, j: Journal, t: nat, q: Request, m': Memory, j': Journal, d: Decision) {
    var op := q.operationID;
    if m.runID != "" && m.runID != q.runID then
      d == Refuse && m' == m && j' == j
    else if op in m.results then
      m' == m && j' == j && d == if op in m.digests && m.digests[op] == Sha256(q) then Reply(m.results[op]) else Refuse
    else if op in m.digests then
      && j' == j
      && (if m.digests[op] != Sha256(q) then d == Refuse && m' == m
          else if op in m.inFlight then d == Await(m.inFlight[op]) && m' == m
          else d == Proceed && m' == m.(inFlight := m.inFlight[op := t]))
    else if |m.digests| >= MAX_RESERVATIONS then
      d == Refuse && m' == m && j' == j
    else
      BindsAndReserves(c, m, j, t, q, m', j', d)
  }

  // ---------------------------------------------------------------------------------------
  // Recovery.
  // ---------------------------------------------------------------------------------------

  predicate IdentityMatches(c: Config, id: Identity) {
    IsLowerHex(id.runID, 16) && id == IdentityOf(c, id.runID)
  }

  predicate LoadsRequest(c: Config, runID: string, name: string, file: File<Request>) {
    && file.Complete?
    && ValidStatic(file.content, c.agentID, c.configurationID, c.sourceRevision)
    && file.content.runID == runID
    && file.content.operationID == name
  }

  predicate LoadsResult(c: Config, runID: string, requests: map<string, File<Request>>, name: string,
                        file: File<Fragment>)
  {
    && file.Complete?
    && file.content.body.request.operationID == name
    && name in requests && requests[name].Complete? && requests[name].content == file.content.body.request
    && Evidence(file.content, c.agentID, c.signingPublicKey, runID, c.configurationID, c.sourceRevision)
  }

  /** The journal is accepted, and this is the memory it restores. */
  ghost predicate Loads(c: Config, j: Journal, m: Memory) {
    if j == EMPTY_JOURNAL then m == FRESH
    else
      && j.identity.Some? && j.identity.value.Complete? && IdentityMatches(c, j.identity.value.content)
      && m.runID == j.identity.value.content.runID
      && (forall name | name in j.requests :: LoadsRequest(c, m.runID, name, j.requests[name]))
      && (forall name | name in j.results :: LoadsResult(c, m.runID, j.requests, name, j.results[name]))
      && m.digests ==
           (map name | name in j.requests ::
              if j.requests[name].Complete? then Sha256(j.requests[name].content) else OtherDigest(""))
      && m.results.Keys == j.results.Keys
      && (forall name | name in j.results && j.results[name].Complete? ::
            name in m.results && m.results[name] == j.results[name].content)
      && m.inFlight == map[]
      && |m.digests| <= MAX_RESERVATIONS
  }

  // ---------------------------------------------------------------------------------------
  // The transition system.
  // ---------------------------------------------------------------------------------------

  datatype Thread =
    | Entered(request: Request)
    | Waiting(request: Request, channel: nat)
    | Woken(request: Request)
    | Executing(request: Request)
    | Unsigned(request: Request)
    | Signed(request: Request, fragment: Fragment)
    | Unpersisted(request: Request)
    | Persisted(request: Request, fragment: Fragment)

  /** A thread between its reservation and its final critical section. */
  predicate Owns(th: Thread) { th.Executing? || th.Unsigned? || th.Signed? || th.Unpersisted? || th.Persisted? }

  datatype Close = Close(channel: nat, closer: nat)

  datatype Response = Response(request: Request, fragment: Fragment)

  /**
   `readBack`, `closes`, `reserved`, `executed` and `responses` are history variables; `clean` says
   that no power loss so far has taken away a file that a restart had read back.
   */
  datatype State = State(
    up: bool, config: Config, memory: Memory, threads: map<nat, Thread>, nextThread: nat, journal: Journal,
    readBack: ReadBack,
    closes: seq<Close>, reserved: set<Request>, executed: seq<Request>, responses: seq<Response>, clean: bool)

  ghost predicate Init(s: State) {
    && !s.up && s.journal == EMPTY_JOURNAL && s.threads == map[] && s.nextThread == 0 && s.memory == FRESH
    && s.readBack == NOTHING_READ && s.closes == [] && s.reserved == {} && s.executed == [] && s.responses == []
    && s.clean
  }

  predicate At(s: State, t: nat) { s.up && t in s.threads }

  function Without(s: State, t: nat): State { s.(threads := s.threads - {t}) }

  function Move(s: State, t: nat, th: Thread): State { s.(threads := s.threads[t := th]) }

  /**
   A request arrives that is valid by the agent's clock, which may read anything. Requests that fail
   validation return before touching any state.
   */
  predicate Calls(s: State, q: Request, now: int, s': State) {
    && s.up && ValidStatic(q, s.config.agentID, s.config.configurationID, s.config.sourceRevision) && ValidAt(q, now)
    && s' == s.(threads := s.threads[s.nextThread := Entered(q)], nextThread := s.nextThread + 1)
  }

  predicate Decides(s: State, t: nat, m: Memory, j: Journal, d: Decision, s': State) {
    && At(s, t) && s.threads[t].Entered?
    && var q := s.threads[t].request;
    && FirstSection(s.config, s.memory, s.journal, t, q, m, j, d)
    && var u := s.(memory := m, journal := j);
    && match d
       case Refuse => s' == Without(u, t)
       case Reply(f) => s' == Without(u, t).(responses := s.responses + [Response(q, f)])
       case Await(ch) => s' == Move(u, t, Waiting(q, ch))
       case Proceed => s' == Move(u, t, Executing(q)).(reserved := s.reserved + {q})
  }

  /** The executor runs; then the result is signed, or signing fails. */
  predicate Executes(s: State, t: nat, answer: Answer, startedAt: int, finishedAt: int, signed: bool, s': State) {
    && At(s, t) && s.threads[t].Executing?
    && var q := s.threads[t].request;
    && s' == Move(s, t, if signed then Signed(q, Report(s.config, q, answer, startedAt, finishedAt)) else Unsigned(q))
             .(executed := s.executed + [q])
  }

  predicate PersistsResult(s: State, t: nat, files: map<string, File<Fragment>>, ok: bool, s': State) {
    && At(s, t) && s.threads[t].Signed?
    && var q, f := s.threads[t].request, s.threads[t].fragment;
    && WritesAt(s.journal.results, q.operationID, f, ok, files)
    && s' == Move(s.(journal := s.journal.(results := files)), t, if ok then Persisted(q, f) else Unpersisted(q))
  }

  /** The final critical section: the thread closes the channel stored for its operation and forgets it. */
  predicate Ends(s: State, t: nat, s': State) {
    && At(s, t) && (s.threads[t].Persisted? || s.threads[t].Unpersisted? || s.threads[t].Unsigned?)
    && var th := s.threads[t];
    && var op := th.request.operationID;
    && op in s.memory.inFlight
    && var u := Without(s, t).(closes := s.closes + [Close(s.memory.inFlight[op], t)]);
    && if th.Persisted?
       then s' ==
         u.(memory := s.memory.(results := s.memory.results[op := th.fragment], inFlight := s.memory.inFlight - {op}),
                     responses := s.responses + [Response(th.request, th.fragment)])
       else s' == u.(memory := s.memory.(inFlight := s.memory.inFlight - {op}))
  }

  predicate Wakes(s: State, t: nat, s': State) {
    && At(s, t) && s.threads[t].Waiting?
    && (exists k :: 0 <= k < |s.closes| && s.closes[k].channel == s.threads[t].channel)
    && s' == Move(s, t, Woken(s.threads[t].request))
  }

  predicate Cancels(s: State, t: nat, s': State) {
    At(s, t) && s.threads[t].Waiting? && s' == Without(s, t)
  }

  predicate Rereads(s: State, t: nat, s': State) {
    && At(s, t) && s.threads[t].Woken?
    && var q := s.threads[t].request;
    && if q.operationID in s.memory.results
       then s' == Without(s, t).(responses := s.responses + [Response(q, s.memory.results[q.operationID])])
       else s' == Without(s, t)
  }

  /** The requests that the digests in memory stand for. */
  ghost function Reservations(m: Memory): set<Request> {
    set name | name in m.digests && m.digests[name].Sha256? :: m.digests[name].request
  }

  function Stopped(s: State): State { s.(up := false, threads := map[], memory := FRESH) }

  predicate Crashes(s: State, s': State) { s.up && s' == Stopped(s) }

  /** What survives is on disk for good; the run stays clean if every file relied on survives. */
  ghost predicate LosesPower(s: State, j: Journal, s': State) {
    && SurvivesPowerLoss(s.journal, s.readBack, j)
    && s' == Stopped(s).(journal := j, readBack := NOTHING_READ,
                         clean := s.clean && SurvivesPowerLoss(s.journal, NOTHING_READ, j))
  }

  /** A restart may use another configuration; it succeeds only if the journal is accepted. */
  ghost predicate Restarts(s: State, c: Config, m: Memory, s': State) {
    && !s.up && Loads(c, s.journal, m)
    && s' == s.(up := true, config := c, memory := m, threads := map[], reserved := s.reserved + Reservations(m),
                journal := SettleAll(s.journal), readBack := AlsoReading(s.readBack, s.journal))
  }

  datatype Step =
    | Call(request: Request, now: int)
    | Decide(thread: nat, memory: Memory, journal: Journal, decision: Decision)
    | Execute(thread: nat, answer: Answer, startedAt: int, finishedAt: int, signed: bool)
    | PersistResult(thread: nat, files: map<string, File<Fragment>>, ok: bool)
    | End(thread: nat)
    | Wake(thread: nat)
    | Cancel(thread: nat)
    | Reread(thread: nat)
    | Crash
    | LosePower(journal: Journal)
    | Restart(config: Config, memory: Memory)

  ghost predicate Next(s: State, a: Step, s': State) {
    match a
    case Call(q, now) => Calls(s, q, now, s')
    case Decide(t, m, j, d) => Decides(s, t, m, j, d, s')
    case Execute(t, answer, started, finished, signed) => Executes(s, t, answer, started, finished, signed, s')
    case PersistResult(t, files, ok) => PersistsResult(s, t, files, ok, s')
    case End(t) => Ends(s, t, s')
    case Wake(t) => Wakes(s, t, s')
    case Cancel(t) => Cancels(s, t, s')
    case Reread(t) => Rereads(s, t, s')
    case Crash => Crashes(s, s')
    case LosePower(j) => LosesPower(s, j, s')
    case Restart(c, m) => Restarts(s, c, m, s')
  }

  /** A run of the agent: from an empty journal, through any number of calls, failures and restarts. */
  ghost predicate IsRun(states: seq<State>, steps: seq<Step>) {
    && |states| == |steps| + 1
    && Init(states[0])
    && forall k | 0 <= k < |steps| :: Next(states[k], steps[k], states[k + 1])
  }
}
