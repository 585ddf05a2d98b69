/**
 What every run of the history agent keeps. `Locks` is about the handler's maps and threads and
 holds in every reachable state; `Durable` ties them to the journal.
 */
module AgentSafety {

  import opened HistoryWire
  import opened Options
  import opened AgentProtocol

  // ---------------------------------------------------------------------------------------
  // Mutual exclusion. Conjunctions are bound to a name so that proofs pass them on whole.
  // ---------------------------------------------------------------------------------------

  ghost predicate GoodMemory(m: Memory) {
    var holds :=
      && m.results.Keys <= m.digests.Keys
      && m.inFlight.Keys <= m.digests.Keys
      && m.inFlight.Keys !! m.results.Keys
      && |m.digests| <= MAX_RESERVATIONS;
    holds
  }

  ghost predicate GoodThread(m: Memory, t: nat, th: Thread) {
    var op := th.request.operationID;
    && (Owns(th) ==> op in m.inFlight && m.inFlight[op] == t)
    && (!th.Entered? ==> op in m.digests && m.digests[op] == Sha256(th.request))
    && th.request.runID != ""
  }

  /** Exactly the threads between reservation and final section hold an in-flight entry, each its own. */
  ghost predicate GoodThreads(m: Memory, threads: map<nat, Thread>, bound: nat) {
    var holds :=
      && (forall t | t in threads :: t < bound && GoodThread(m, t, threads[t]))
      && (forall op | op in m.inFlight ::
            m.inFlight[op] in threads && Owns(threads[m.inFlight[op]])
              && threads[m.inFlight[op]].request.operationID == op);
    holds
  }

  /** Every channel is closed at most once, by the thread that created it, and only as its last act. */
  ghost predicate GoodCloses(closes: seq<Close>, threads: map<nat, Thread>, bound: nat) {
    var holds :=
      && (forall k | 0 <= k < |closes| ::
            closes[k].closer == closes[k].channel < bound && closes[k].channel !in threads)
      && (forall k, l | 0 <= k < l < |closes| :: closes[k].channel != closes[l].channel);
    holds
  }

  ghost predicate Locks(s: State) {
    var holds :=
      && GoodMemory(s.memory)
      && GoodThreads(s.memory, s.threads, s.nextThread)
      && GoodCloses(s.closes, s.threads, s.nextThread);
    holds
  }

  lemma ThreadMoves(m: Memory, threads: map<nat, Thread>, bound: nat, closes: seq<Close>, t: nat, th: Thread)
    requires GoodThreads(m, threads, bound) && GoodCloses(closes, threads, bound) && t in threads
    requires GoodThread(m, t, th) && th.request == threads[t].request && Owns(th) == Owns(threads[t])
    ensures GoodThreads(m, threads[t := th], bound) && GoodCloses(closes, threads[t := th], bound)
  {
  }

  lemma ThreadLeaves(m: Memory, threads: map<nat, Thread>, bound: nat, closes: seq<Close>, t: nat)
    requires GoodThreads(m, threads, bound) && GoodCloses(closes, threads, bound) && t in threads && !Owns(threads[t])
    ensures GoodThreads(m, threads - {t}, bound) && GoodCloses(closes, threads - {t}, bound)
  {
  }

  lemma CallLocks(s: State, q: Request, now: int, s': State)
    requires Locks(s) && Calls(s, q, now, s')
    ensures Locks(s')
  {
    ThreadEnters(s.memory, s.threads, s.nextThread, s.closes, q);
  }

  lemma ThreadEnters(m: Memory, threads: map<nat, Thread>, bound: nat, closes: seq<Close>, q: Request)
    requires GoodThreads(m, threads, bound) && GoodCloses(closes, threads, bound) && q.runID != ""
    ensures GoodThreads(m, threads[bound := Entered(q)], bound + 1)
            && GoodCloses(closes, threads[bound := Entered(q)], bound + 1)
  {
    forall t | t in threads ensures t < bound && GoodThread(m, t, threads[t]) {
    }
  }

  /** What the first critical section does to the handler's maps, the journal left aside. */
  ghost predicate MapsChange(m: Memory, t: nat, q: Request, m': Memory, d: Decision) {
    var op := q.operationID;
    var holds :=
      && m'.results == m.results
      && (d != Proceed ==> m'.digests == m.digests && m'.inFlight == m.inFlight)
      && (d == Proceed ==> op !in m.results && op !in m.inFlight && m'.inFlight == m.inFlight[op := t])
      && (d == Proceed && op in m.digests ==> m.digests[op] == Sha256(q) && m'.digests == m.digests)
      && (d == Proceed && op !in m.digests ==>
            |m.digests| < MAX_RESERVATIONS && m'.digests == m.digests[op := Sha256(q)])
      && (d.Await? ==> op in m.digests && m.digests[op] == Sha256(q));
    holds
  }

  lemma SectionChangesMaps(c: Config, m: Memory, j: Journal, t: nat, q: Request, m': Memory, j': Journal, d: Decision)
    requires GoodMemory(m) && FirstSection(c, m, j, t, q, m', j', d)
    ensures MapsChange(m, t, q, m', d)
  {
    if q.operationID !in m.digests {
      assert q.operationID !in m.inFlight.Keys && q.operationID !in m.results.Keys;
    }
  }

  lemma ChangeKeepsMemory(m: Memory, t: nat, q: Request, m': Memory, d: Decision)
    requires GoodMemory(m) && MapsChange(m, t, q, m', d)
    ensures GoodMemory(m')
  {
    if d == Proceed {
      KeyAdded(m.inFlight, q.operationID, t);
      KeyAdded(m.digests, q.operationID, Sha256(q));
      KeySetsStayGood(m.results.Keys, m.digests.Keys, m.inFlight.Keys, q.operationID);
      assert q.operationID in m.digests ==> m.digests.Keys + {q.operationID} == m.digests.Keys;
    }
  }

  lemma KeyAdded<V>(entries: map<string, V>, key: string, value: V)
    ensures entries[key := value].Keys == entries.Keys + {key}
    ensures |entries[key := value]| == |entries| + if key in entries then 0 else 1
  {
    assert |entries| == |entries.Keys| && |entries[key := value]| == |entries[key := value].Keys|;
    assert key in entries ==> entries.Keys + {key} == entries.Keys;
  }

  lemma KeySetsStayGood(results: set<string>, digests: set<string>, inFlight: set<string>, op: string)
    requires results <= digests && inFlight <= digests && inFlight !! results && op !in results
    ensures results <= digests + {op} && inFlight + {op} <= digests + {op} && inFlight + {op} !! results
  {
  }

  /** After the first critical section the other threads are undisturbed. */
  lemma SectionKeepsMemory(c: Config, m: Memory, j: Journal, t: nat, q: Request, m': Memory, j': Journal, d: Decision)
    requires GoodMemory(m) && FirstSection(c, m, j, t, q, m', j', d)
    ensures GoodMemory(m')
    ensures d != Proceed ==> m'.digests == m.digests && m'.inFlight == m.inFlight
    ensures d == Proceed ==>
              && q.operationID !in m.inFlight && m'.inFlight == m.inFlight[q.operationID := t]
              && q.operationID in m'.digests && m'.digests[q.operationID] == Sha256(q)
              && (forall op | op in m.digests :: op in m'.digests && m'.digests[op] == m.digests[op])
    ensures d.Await? ==> q.operationID in m.digests && m.digests[q.operationID] == Sha256(q)
  {
    SectionChangesMaps(c, m, j, t, q, m', j', d);
    ChangeKeepsMemory(m, t, q, m', d);
  }

  lemma OthersKept(m: Memory, m': Memory, threads: map<nat, Thread>, bound: nat)
    requires GoodThreads(m, threads, bound) && m'.inFlight == m.inFlight
    requires forall op | op in m.digests :: op in m'.digests && m'.digests[op] == m.digests[op]
    ensures GoodThreads(m', threads, bound)
  {
    forall t | t in threads ensures t < bound && GoodThread(m', t, threads[t]) {
      assert GoodThread(m, t, threads[t]);
    }
  }

  lemma ReservationKept(m: Memory, m': Memory, threads: map<nat, Thread>, bound: nat, t: nat, q: Request)
    requires GoodThreads(m, threads, bound) && t in threads && threads[t] == Entered(q)
    requires q.operationID !in m.inFlight && m'.inFlight == m.inFlight[q.operationID := t]
    requires q.operationID in m'.digests && m'.digests[q.operationID] == Sha256(q)
    requires forall op | op in m.digests :: op in m'.digests && m'.digests[op] == m.digests[op]
    ensures GoodThreads(m', threads[t := Executing(q)], bound)
  {
    forall u | u in threads && u != t ensures u < bound && GoodThread(m', u, threads[u]) {
      assert GoodThread(m, u, threads[u]);
    }
  }

  lemma DecideLocks(s: State, t: nat, m: Memory, j: Journal, d: Decision, s': State)
    requires Locks(s) && Decides(s, t, m, j, d, s')
    ensures Locks(s')
  {
    var q := s.threads[t].request;
    SectionKeepsMemory(s.config, s.memory, s.journal, t, q, m, j, d);
    if d == Proceed {
      ReservationKept(s.memory, m, s.threads, s.nextThread, t, q);
      ClosesKept(s.closes, s.threads, s'.threads, s.nextThread);
    } else {
      OthersKept(s.memory, m, s.threads, s.nextThread);
      if d.Await? {
        ThreadMoves(m, s.threads, s.nextThread, s.closes, t, Waiting(q, d.channel));
      } else {
        ThreadLeaves(m, s.threads, s.nextThread, s.closes, t);
      }
    }
  }

  lemma ClosesKept(closes: seq<Close>, threads: map<nat, Thread>, threads': map<nat, Thread>, bound: nat)
    requires GoodCloses(closes, threads, bound) && threads'.Keys <= threads.Keys
    ensures GoodCloses(closes, threads', bound)
  {
  }

  lemma ExecuteLocks(s: State, t: nat, answer: Answer, startedAt: int, finishedAt: int, signed: bool, s': State)
    requires Locks(s) && Executes(s, t, answer, startedAt, finishedAt, signed, s')
    ensures Locks(s')
  {
    assert GoodThread(s.memory, t, s.threads[t]);
    ThreadMoves(s.memory, s.threads, s.nextThread, s.closes, t, s'.threads[t]);
  }

  lemma PersistLocks(s: State, t: nat, files: map<string, File<Fragment>>, ok: bool, s': State)
    requires Locks(s) && PersistsResult(s, t, files, ok, s')
    ensures Locks(s')
  {
    assert GoodThread(s.memory, t, s.threads[t]);
    ThreadMoves(s.memory, s.threads, s.nextThread, s.closes, t, s'.threads[t]);
  }

  lemma EndLocks(s: State, t: nat, s': State)
    requires Locks(s) && Ends(s, t, s')
    ensures Locks(s')
  {
    var op := s.threads[t].request.operationID;
    assert GoodThread(s.memory, t, s.threads[t]);
    OwnerLeaves(s.memory, s'.memory, s.threads, s.nextThread, t);
    CloseOnce(s.closes, s.threads, s.nextThread, t);
  }

  lemma OwnerLeaves(m: Memory, m': Memory, threads: map<nat, Thread>, bound: nat, t: nat)
    requires GoodThreads(m, threads, bound) && t in threads && Owns(threads[t])
    requires m'.digests == m.digests && m'.inFlight == m.inFlight - {threads[t].request.operationID}
    ensures GoodThreads(m', threads - {t}, bound)
  {
    assert GoodThread(m, t, threads[t]);
    forall u | u in threads && u != t ensures u < bound && GoodThread(m', u, threads[u]) {
      assert GoodThread(m, u, threads[u]);
    }
  }

  lemma CloseOnce(closes: seq<Close>, threads: map<nat, Thread>, bound: nat, t: nat)
    requires GoodCloses(closes, threads, bound) && t in threads && t < bound
    ensures GoodCloses(closes + [Close(t, t)], threads - {t}, bound)
  {
  }

  lemma WakeLocks(s: State, t: nat, s': State)
    requires Locks(s) && (Wakes(s, t, s') || Cancels(s, t, s') || Rereads(s, t, s'))
    ensures Locks(s')
  {
    assert GoodThread(s.memory, t, s.threads[t]);
    if Wakes(s, t, s') {
      ThreadMoves(s.memory, s.threads, s.nextThread, s.closes, t, s'.threads[t]);
    } else {
      ThreadLeaves(s.memory, s.threads, s.nextThread, s.closes, t);
    }
  }

  lemma StopLocks(s: State, s': State)
    requires Locks(s) && s'.threads == map[] && s'.memory == FRESH && s'.closes == s.closes
             && s'.nextThread == s.nextThread
    ensures Locks(s')
  {
    ClosesKept(s.closes, s.threads, s'.threads, s.nextThread);
  }

  lemma RestartLocks(s: State, c: Config, m: Memory, s': State)
    requires Locks(s) && Restarts(s, c, m, s')
    ensures Locks(s')
  {
    ClosesKept(s.closes, s.threads, map[], s.nextThread);
    RestoredMemory(c, s.journal, m);
    assert GoodThreads(m, map[], s.nextThread);
  }

  lemma RestoredMemory(c: Config, j: Journal, m: Memory)
    requires Loads(c, j, m)
    ensures GoodMemory(m) && m.inFlight == map[]
  {
    if j != EMPTY_JOURNAL {
      assert m.digests.Keys == j.requests.Keys;
      assert forall name | name in j.results :: LoadsResult(c, m.runID, j.requests, name, j.results[name]);
    }
  }

  lemma NextLocks(s: State, a: Step, s': State)
    requires Locks(s) && Next(s, a, s')
    ensures Locks(s')
  {
    match a
    case Call(q, now) => CallLocks(s, q, now, s');
    case Decide(t, m, j, d) => DecideLocks(s, t, m, j, d, s');
    case Execute(t, answer, started, finished, signed) => ExecuteLocks(s, t, answer, started, finished, signed, s');
    case PersistResult(t, files, ok) => PersistLocks(s, t, files, ok, s');
    case End(t) => EndLocks(s, t, s');
    case Wake(t) => WakeLocks(s, t, s');
    case Cancel(t) => WakeLocks(s, t, s');
    case Reread(t) => WakeLocks(s, t, s');
    case Crash => StopLocks(s, s');
    case LosePower(j) => StopLocks(s, s');
    case Restart(c, m) => RestartLocks(s, c, m, s');
  }

  lemma {:induction false} RunLocks(states: seq<State>, steps: seq<Step>, k: nat)
    requires IsRun(states, steps) && k < |states|
    ensures Locks(states[k])
  {
    if k == 0 {
    } else {
      RunLocks(states, steps, k - 1);
      NextLocks(states[k - 1], steps[k - 1], states[k]);
    }
  }

  // ---------------------------------------------------------------------------------------
  // Durability.
  // ---------------------------------------------------------------------------------------

  /** The run identity is on disk for good. */
  ghost predicate Bound(j: Journal, runID: string) {
    && j.identity.Some? && j.identity.value.Complete? && j.identity.value.settled
    && j.identity.value.content.runID == runID
  }

  /** The request is on disk for good, under its operation ID and in the journal's run. */
  ghost predicate Reserved(j: Journal, q: Request) {
    Lookup(j.requests, q.operationID) == Some(Complete(q, true)) && Bound(j, q.runID)
  }

  /** The fragment is on disk for good as the result of its own reserved request. */
  ghost predicate Answered(j: Journal, f: Fragment) {
    Lookup(j.results, f.body.request.operationID) == Some(Complete(f, true))
  }

  ghost predicate GoodHistory(j: Journal, reserved: set<Request>, executed: seq<Request>, responses: seq<Response>) {
    var holds :=
      && (forall q | q in reserved :: Reserved(j, q))
      && (forall q | q in executed :: q in reserved)
      && (forall r | r in responses ::
            r.request in reserved && r.fragment.body.request == r.request && Answered(j, r.fragment));
    holds
  }

  /** Memory holds nothing that is not on disk. */
  ghost predicate Backed(m: Memory, j: Journal, reserved: set<Request>) {
    var holds :=
      && (forall op | op in m.digests ::
            m.digests[op].Sha256? && m.digests[op].request.operationID == op && m.digests[op].request in reserved)
      && (forall op | op in m.results ::
            && op in m.digests && m.digests[op] == Sha256(m.results[op].body.request)
            && Answered(j, m.results[op]))
      && (if m.runID == "" then m.digests == map[] else Bound(j, m.runID));
    holds
  }

  ghost predicate ThreadBacked(j: Journal, th: Thread) {
    && (th.Signed? ==> th.fragment.body.request == th.request)
    && (th.Persisted? ==> th.fragment.body.request == th.request && Answered(j, th.fragment))
  }

  ghost predicate ThreadsBacked(j: Journal, threads: map<nat, Thread>) {
    forall t | t in threads :: ThreadBacked(j, threads[t])
  }

  ghost predicate Durable(s: State) {
    var holds :=
      s.clean ==>
        && GoodHistory(s.journal, s.reserved, s.executed, s.responses)
        && Backed(s.memory, s.journal, s.reserved)
        && ThreadsBacked(s.journal, s.threads);
    holds
  }

  /** Settled files stay as they are. */
  ghost predicate Keeps(j: Journal, j': Journal) {
    var holds :=
      && (forall run :: Bound(j, run) ==> Bound(j', run))
      && (forall name, q :: Lookup(j.requests, name) == Some(Complete(q, true)) ==>
            Lookup(j'.requests, name) == Some(Complete(q, true)))
      && (forall name, f :: Lookup(j.results, name) == Some(Complete(f, true)) ==>
            Lookup(j'.results, name) == Some(Complete(f, true)));
    holds
  }

  lemma WriteKeeps<T>(before: map<string, File<T>>, name: string, content: T, ok: bool, after: map<string, File<T>>,
                      x: string, c: T)
    requires WritesAt(before, name, content, ok, after) && Lookup(before, x) == Some(Complete(c, true))
    ensures Lookup(after, x) == Some(Complete(c, true))
  {
  }

  lemma PowerLossKeeps(j: Journal, j': Journal)
    requires SurvivesPowerLoss(j, NOTHING_READ, j')
    ensures Keeps(j, j')
  {
  }

  /** Relying on more files keeps those relied on. */
  lemma SettlingKeeps(j: Journal)
    ensures Keeps(j, SettleAll(j))
  {
  }

  lemma HistoryKept(j: Journal, j': Journal, reserved: set<Request>, executed: seq<Request>, responses: seq<Response>)
    requires Keeps(j, j') && GoodHistory(j, reserved, executed, responses)
    ensures GoodHistory(j', reserved, executed, responses)
  {
    forall q | q in reserved ensures Reserved(j', q) { assert Reserved(j, q); }
    forall r | r in responses ensures Answered(j', r.fragment) { assert Answered(j, r.fragment); }
  }

  lemma BackingKept(m: Memory, j: Journal, j': Journal, reserved: set<Request>, reserved': set<Request>)
    requires Keeps(j, j') && Backed(m, j, reserved) && reserved <= reserved'
    ensures Backed(m, j', reserved')
  {
    forall op | op in m.results ensures Answered(j', m.results[op]) { assert Answered(j, m.results[op]); }
  }

  lemma ThreadsKept(j: Journal, j': Journal, threads: map<nat, Thread>)
    requires Keeps(j, j') && ThreadsBacked(j, threads)
    ensures ThreadsBacked(j', threads)
  {
    forall t | t in threads ensures ThreadBacked(j', threads[t]) {
      assert ThreadBacked(j, threads[t]);
    }
  }

  lemma ThreadsBackedMove(j: Journal, threads: map<nat, Thread>, t: nat, th: Thread)
    requires ThreadsBacked(j, threads) && ThreadBacked(j, th)
    ensures ThreadsBacked(j, threads[t := th]) && ThreadsBacked(j, threads - {t})
  {
  }

  lemma PublishBacks(m: Memory, m': Memory, j: Journal, reserved: set<Request>, f: Fragment)
    requires Backed(m, j, reserved) && Answered(j, f)
    requires var op := f.body.request.operationID;
             op in m.digests && m.digests[op] == Sha256(f.body.request) && m'.results == m.results[op := f]
    requires m'.digests == m.digests && m'.runID == m.runID
    ensures Backed(m', j, reserved)
  {
  }

  lemma UnlockBacks(m: Memory, m': Memory, j: Journal, reserved: set<Request>)
    requires Backed(m, j, reserved) && m'.digests == m.digests && m'.runID == m.runID && m'.results == m.results
    ensures Backed(m', j, reserved)
  {
  }

  lemma HistoryGrows(j: Journal, reserved: set<Request>, executed: seq<Request>, responses: seq<Response>, q: Request)
    requires GoodHistory(j, reserved, executed, responses) && Reserved(j, q)
    ensures GoodHistory(j, reserved + {q}, executed, responses)
  {
  }

  lemma ResponseRecorded(j: Journal, reserved: set<Request>, executed: seq<Request>, responses: seq<Response>,
                         r: Response)
    requires GoodHistory(j, reserved, executed, responses)
    requires r.request in reserved && r.fragment.body.request == r.request && Answered(j, r.fragment)
    ensures GoodHistory(j, reserved, executed, responses + [r])
  {
  }

  // The first critical section.

  lemma SectionKeepsFiles(c: Config, m: Memory, j: Journal, t: nat, q: Request, m': Memory, j': Journal, d: Decision)
    requires FirstSection(c, m, j, t, q, m', j', d)
    ensures Keeps(j, j')
  {
    if j' != j {
      forall name, q0 | Lookup(j.requests, name) == Some(Complete(q0, true))
        ensures Lookup(j'.requests, name) == Some(Complete(q0, true))
      {
        if j'.requests != j.requests {
          WriteKeeps(j.requests, q.operationID, q, d == Proceed, j'.requests, name, q0);
        }
      }
    }
  }

  lemma SectionBacks(c: Config, m: Memory, j: Journal, t: nat, q: Request, m': Memory, j': Journal, d: Decision,
                     reserved: set<Request>)
    requires FirstSection(c, m, j, t, q, m', j', d) && Backed(m, j, reserved)
    requires forall p | p in reserved :: Reserved(j, p)
    ensures d == Proceed ==> Reserved(j', q)
    ensures m'.results == m.results
    ensures m'.digests == m.digests || (d == Proceed && m'.digests == m.digests[q.operationID := Sha256(q)])
    ensures m'.runID == m.runID || (m.runID == "" && m.digests == map[] && m'.runID == q.runID && Bound(j', q.runID))
    ensures d.Reply? ==>
              q.operationID in m.results && d.fragment == m.results[q.operationID]
              && m.digests[q.operationID] == Sha256(q)
  {
    var op := q.operationID;
    if op in m.digests {
      assert m.digests[op].request in reserved;
    }
  }

  lemma ReservationBacks(m: Memory, m': Memory, j: Journal, j': Journal, q: Request, proceeds: bool,
                         reserved: set<Request>)
    requires Keeps(j, j') && Backed(m, j, reserved)
    requires m'.results == m.results && (forall op | op in m.results :: op in m.digests)
    requires m'.digests == m.digests
             || (proceeds && m'.digests == m.digests[q.operationID := Sha256(q)] && q.operationID !in m.results)
    requires m'.runID == m.runID || (m.runID == "" && m.digests == map[] && Bound(j', m'.runID))
    requires m'.runID == "" ==> m'.digests == m.digests
    ensures Backed(m', j', if proceeds then reserved + {q} else reserved)
  {
    forall op | op in m.results ensures Answered(j', m.results[op]) { assert Answered(j, m.results[op]); }
  }

  lemma DecideDurable(s: State, t: nat, m: Memory, j: Journal, d: Decision, s': State)
    requires Locks(s) && Durable(s) && Decides(s, t, m, j, d, s')
    ensures Durable(s')
  {
    if s.clean {
      var q := s.threads[t].request;
      assert GoodThread(s.memory, t, s.threads[t]);
      SectionDurable(s.config, s.memory, s.journal, t, q, m, j, d, s.reserved, s.executed, s.responses);
      assert Keeps(s.journal, j) by {
        SectionKeepsFiles(s.config, s.memory, s.journal, t, q, m, j, d);
      }
      ThreadsKept(s.journal, j, s.threads);
      ThreadsBackedMove(j, s.threads, t,
                        if d == Proceed then Executing(q) else if d.Await? then Waiting(q, d.channel) else Entered(q));
    }
  }

  lemma SectionDurable(c: Config, m: Memory, j: Journal, t: nat, q: Request, m': Memory, j': Journal, d: Decision,
                       reserved: set<Request>, executed: seq<Request>, responses: seq<Response>)
    requires FirstSection(c, m, j, t, q, m', j', d) && GoodMemory(m) && q.runID != ""
    requires GoodHistory(j, reserved, executed, responses) && Backed(m, j, reserved)
    ensures Backed(m', j', if d == Proceed then reserved + {q} else reserved)
    ensures GoodHistory(j', if d == Proceed then reserved + {q} else reserved, executed,
                        if d.Reply? then responses + [Response(q, d.fragment)] else responses)
  {
    SectionKeepsFiles(c, m, j, t, q, m', j', d);
    SectionBacks(c, m, j, t, q, m', j', d, reserved);
    HistoryKept(j, j', reserved, executed, responses);
    assert d == Proceed ==> q.operationID !in m.results;
    ReservationBacks(m, m', j, j', q, d == Proceed, reserved);
    if d == Proceed {
      HistoryGrows(j', reserved, executed, responses, q);
    } else if d.Reply? {
      BackingKept(m, j, j', reserved, reserved);
      ResponseRecorded(j', reserved, executed, responses, Response(q, d.fragment));
    }
  }

  lemma ExecuteDurable(s: State, t: nat, answer: Answer, startedAt: int, finishedAt: int, signed: bool, s': State)
    requires Locks(s) && Durable(s) && Executes(s, t, answer, startedAt, finishedAt, signed, s')
    ensures Durable(s')
  {
    if s.clean {
      assert GoodThread(s.memory, t, s.threads[t]);
      var q := s.threads[t].request;
      assert s.memory.digests[q.operationID].request in s.reserved;
      ThreadsBackedMove(s.journal, s.threads, t, s'.threads[t]);
    }
  }

  lemma PersistDurable(s: State, t: nat, files: map<string, File<Fragment>>, ok: bool, s': State)
    requires Locks(s) && Durable(s) && PersistsResult(s, t, files, ok, s')
    ensures Durable(s')
  {
    if s.clean {
      var q, f := s.threads[t].request, s.threads[t].fragment;
      var j' := s.journal.(results := files);
      assert ThreadBacked(s.journal, s.threads[t]);
      forall name, g | Lookup(s.journal.results, name) == Some(Complete(g, true))
        ensures Lookup(files, name) == Some(Complete(g, true))
      {
        WriteKeeps(s.journal.results, q.operationID, f, ok, files, name, g);
      }
      assert Keeps(s.journal, j');
      HistoryKept(s.journal, j', s.reserved, s.executed, s.responses);
      BackingKept(s.memory, s.journal, j', s.reserved, s.reserved);
      ThreadsKept(s.journal, j', s.threads);
      ThreadsBackedMove(j', s.threads, t, s'.threads[t]);
    }
  }

  lemma EndDurable(s: State, t: nat, s': State)
    requires Locks(s) && Durable(s) && Ends(s, t, s')
    ensures Durable(s')
  {
    if s.clean {
      var th := s.threads[t];
      assert GoodThread(s.memory, t, th) && ThreadBacked(s.journal, th);
      ThreadsBackedMove(s.journal, s.threads, t, th);
      if th.Persisted? {
        assert s.memory.digests[th.request.operationID].request in s.reserved;
        ResponseRecorded(s.journal, s.reserved, s.executed, s.responses, Response(th.request, th.fragment));
        PublishBacks(s.memory, s'.memory, s.journal, s.reserved, th.fragment);
      } else {
        UnlockBacks(s.memory, s'.memory, s.journal, s.reserved);
      }
    }
  }

  lemma RereadDurable(s: State, t: nat, s': State)
    requires Locks(s) && Durable(s) && Rereads(s, t, s')
    ensures Durable(s')
  {
    if s.clean {
      var q := s.threads[t].request;
      assert GoodThread(s.memory, t, s.threads[t]);
      if q.operationID in s.memory.results {
        assert s.memory.digests[q.operationID].request in s.reserved;
        ResponseRecorded(s.journal, s.reserved, s.executed, s.responses, Response(q, s.memory.results[q.operationID]));
      }
    }
  }

  lemma StopDurable(s: State, j: Journal, s': State)
    requires Durable(s) && s' == Stopped(s).(journal := j, readBack := s'.readBack, clean := s'.clean)
    requires s'.clean ==> s.clean && Keeps(s.journal, j)
    ensures Durable(s')
  {
    if s'.clean { HistoryKept(s.journal, j, s.reserved, s.executed, s.responses); }
  }

  /** What a restart restores is backed by the files it has read. */
  lemma LoadBacks(c: Config, j: Journal, m: Memory)
    requires Loads(c, j, m)
    ensures forall q | q in Reservations(m) :: Reserved(SettleAll(j), q)
    ensures Backed(m, SettleAll(j), Reservations(m))
  {
    var j' := SettleAll(j);
    forall op | op in m.digests
      ensures m.digests[op].Sha256? && m.digests[op].request.operationID == op && Reserved(j', m.digests[op].request)
    {
      assert LoadsRequest(c, m.runID, op, j.requests[op]);
    }
    forall op | op in m.results
      ensures op in m.digests && m.digests[op] == Sha256(m.results[op].body.request) && Answered(j', m.results[op])
    {
      assert op in j.results && LoadsResult(c, m.runID, j.requests, op, j.results[op]);
    }
  }

  lemma RestartDurable(s: State, c: Config, m: Memory, s': State)
    requires Durable(s) && Restarts(s, c, m, s')
    ensures Durable(s')
  {
    if s.clean {
      SettlingKeeps(s.journal);
      HistoryKept(s.journal, SettleAll(s.journal), s.reserved, s.executed, s.responses);
      LoadBacks(c, s.journal, m);
      RestartBacks(m, SettleAll(s.journal), s.reserved, s.executed, s.responses);
    }
  }

  lemma RestartBacks(m: Memory, j: Journal, reserved: set<Request>, executed: seq<Request>, responses: seq<Response>)
    requires GoodHistory(j, reserved, executed, responses) && Backed(m, j, Reservations(m))
    requires forall q | q in Reservations(m) :: Reserved(j, q)
    ensures GoodHistory(j, reserved + Reservations(m), executed, responses)
    ensures Backed(m, j, reserved + Reservations(m))
  {
    assert Keeps(j, j);
    BackingKept(m, j, j, Reservations(m), reserved + Reservations(m));
  }

  /** Steps that only add, move or remove a thread which holds no fragment. */
  lemma ThreadStepDurable(s: State, s': State)
    requires Durable(s) && s' == s.(threads := s'.threads, nextThread := s'.nextThread)
    requires forall u | u in s'.threads ::
               (u in s.threads && s'.threads[u] == s.threads[u])
               || (!s'.threads[u].Signed? && !s'.threads[u].Persisted?)
    ensures Durable(s')
  {
    if s.clean {
      forall u | u in s'.threads ensures ThreadBacked(s'.journal, s'.threads[u]) {
        assert u in s.threads && s'.threads[u] == s.threads[u] ==> ThreadBacked(s.journal, s.threads[u]);
      }
    }
  }

  lemma OutsideDurable(s: State, a: Step, s': State)
    requires Durable(s) && Next(s, a, s') && (a.Crash? || a.LosePower? || a.Restart?)
    ensures Durable(s')
  {
    match a
    case Crash => StopDurable(s, s.journal, s');
    case LosePower(j) =>
      if s'.clean { PowerLossKeeps(s.journal, j); }
      StopDurable(s, j, s');
    case Restart(c, m) => RestartDurable(s, c, m, s');
  }

  lemma OwnerDurable(s: State, a: Step, s': State)
    requires Locks(s) && Durable(s) && Next(s, a, s') && (a.Execute? || a.PersistResult? || a.End?)
    ensures Durable(s')
  {
    match a
    case Execute(t, answer, started, finished, signed) => ExecuteDurable(s, t, answer, started, finished, signed, s');
    case PersistResult(t, files, ok) => PersistDurable(s, t, files, ok, s');
    case End(t) => EndDurable(s, t, s');
  }

  lemma NextDurable(s: State, a: Step, s': State)
    requires Locks(s) && Durable(s) && Next(s, a, s')
    ensures Durable(s')
  {
    if a.Crash? || a.LosePower? || a.Restart? {
      OutsideDurable(s, a, s');
    } else if a.Execute? || a.PersistResult? || a.End? {
      OwnerDurable(s, a, s');
    } else if a.Decide? {
      DecideDurable(s, a.thread, a.memory, a.journal, a.decision, s');
    } else if a.Reread? {
      RereadDurable(s, a.thread, s');
    } else {
      ThreadStepDurable(s, s');
    }
  }

  lemma {:induction false} RunDurable(states: seq<State>, steps: seq<Step>, k: nat)
    requires IsRun(states, steps) && k < |states|
    ensures Locks(states[k]) && Durable(states[k])
  {
    RunLocks(states, steps, k);
    if k == 0 {
    } else {
      RunDurable(states, steps, k - 1);
      NextDurable(states[k - 1], steps[k - 1], states[k]);
    }
  }
}
