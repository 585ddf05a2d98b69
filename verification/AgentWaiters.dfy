/**
 Waiters of the history agent are released: every channel that is waited on is closed, or will be by
 a thread at work.
 */
module AgentWaiters {

  import opened HistoryWire
  import opened AgentProtocol
  import opened AgentSafety

  /** The channel has been closed by the thread that created it. */
  ghost predicate Released(closes: seq<Close>, ch: nat) {
    exists k :: 0 <= k < |closes| && closes[k] == Close(ch, ch)
  }

  /** The channel's creator is between its reservation and its final critical section. */
  ghost predicate AtWork(threads: map<nat, Thread>, ch: nat) {
    ch in threads && Owns(threads[ch])
  }

  ghost predicate Awaited(threads: map<nat, Thread>, closes: seq<Close>) {
    var holds :=
      forall t | t in threads && threads[t].Waiting? ::
        Released(closes, threads[t].channel) || AtWork(threads, threads[t].channel);
    holds
  }

  /**
   What a step of a running agent does to threads and channels: owners stay at work or leave by closing
   their own channel, and whoever starts to wait waits for a thread at work.
   */
  ghost predicate Effect(threads: map<nat, Thread>, closes: seq<Close>, threads': map<nat, Thread>, closes': seq<Close>)
  {
    var holds :=
      && closes <= closes'
      && (forall o | AtWork(threads, o) :: AtWork(threads', o) || Released(closes', o))
      && (forall u | u in threads' && threads'[u].Waiting? ::
            (u in threads && threads'[u] == threads[u]) || AtWork(threads', threads'[u].channel));
    holds
  }

  predicate Stops(a: Step) { a.Crash? || a.LosePower? || a.Restart? }

  lemma ReleasedStays(closes: seq<Close>, closes': seq<Close>, ch: nat)
    requires Released(closes, ch) && closes <= closes'
    ensures Released(closes', ch)
  {
    var k :| 0 <= k < |closes| && closes[k] == Close(ch, ch);
    assert closes'[k] == closes[k];
  }

  lemma MoveEffect(threads: map<nat, Thread>, closes: seq<Close>, t: nat, th: Thread)
    requires t in threads && (Owns(threads[t]) ==> Owns(th))
    requires th.Waiting? ==> AtWork(threads, th.channel) && th.channel != t
    ensures Effect(threads, closes, threads[t := th], closes)
  {
    forall o | AtWork(threads, o) ensures AtWork(threads[t := th], o) {
    }
  }

  lemma EnterEffect(threads: map<nat, Thread>, closes: seq<Close>, n: nat, th: Thread)
    requires n !in threads && !th.Waiting?
    ensures Effect(threads, closes, threads[n := th], closes)
  {
  }

  lemma LeaveEffect(threads: map<nat, Thread>, closes: seq<Close>, t: nat)
    requires t in threads && !Owns(threads[t])
    ensures Effect(threads, closes, threads - {t}, closes)
  {
  }

  lemma CloseEffect(threads: map<nat, Thread>, closes: seq<Close>, t: nat)
    requires t in threads
    ensures Effect(threads, closes, threads - {t}, closes + [Close(t, t)])
  {
    assert (closes + [Close(t, t)])[|closes|] == Close(t, t);
  }

  lemma EndHasEffect(s: State, t: nat, s': State)
    requires Locks(s) && Ends(s, t, s')
    ensures Effect(s.threads, s.closes, s'.threads, s'.closes)
  {
    assert GoodThread(s.memory, t, s.threads[t]);
    CloseEffect(s.threads, s.closes, t);
  }

  /** The channel that a caller is told to wait for belongs to a thread at work. */
  lemma AwaitsOwner(s: State, t: nat, m: Memory, j: Journal, d: Decision)
    requires Locks(s) && t in s.threads && s.threads[t].Entered? && d.Await?
    requires FirstSection(s.config, s.memory, s.journal, t, s.threads[t].request, m, j, d)
    ensures AtWork(s.threads, d.channel) && d.channel != t
  {
    var op := s.threads[t].request.operationID;
    assert op in s.memory.inFlight && d.channel == s.memory.inFlight[op];
  }

  lemma DecideHasEffect(s: State, t: nat, m: Memory, j: Journal, d: Decision, s': State)
    requires Locks(s) && Decides(s, t, m, j, d, s')
    ensures Effect(s.threads, s.closes, s'.threads, s'.closes)
  {
    var q := s.threads[t].request;
    match d
    case Refuse => LeaveEffect(s.threads, s.closes, t);
    case Reply(f) => LeaveEffect(s.threads, s.closes, t);
    case Await(ch) =>
      AwaitsOwner(s, t, m, j, d);
      MoveEffect(s.threads, s.closes, t, Waiting(q, ch));
    case Proceed => MoveEffect(s.threads, s.closes, t, Executing(q));
  }

  lemma OwnerHasEffect(s: State, a: Step, s': State)
    requires Next(s, a, s') && (a.Execute? || a.PersistResult?)
    ensures Effect(s.threads, s.closes, s'.threads, s'.closes)
  {
    MoveEffect(s.threads, s.closes, a.thread, s'.threads[a.thread]);
  }

  lemma WaiterHasEffect(s: State, a: Step, s': State)
    requires Next(s, a, s') && (a.Wake? || a.Cancel? || a.Reread?)
    ensures Effect(s.threads, s.closes, s'.threads, s'.closes)
  {
    if a.Wake? {
      MoveEffect(s.threads, s.closes, a.thread, s'.threads[a.thread]);
    } else {
      LeaveEffect(s.threads, s.closes, a.thread);
    }
  }

  lemma CallHasEffect(s: State, q: Request, now: int, s': State)
    requires Locks(s) && Calls(s, q, now, s')
    ensures Effect(s.threads, s.closes, s'.threads, s'.closes)
  {
    EnterEffect(s.threads, s.closes, s.nextThread, Entered(q));
  }

  lemma StepHasEffect(s: State, a: Step, s': State)
    requires Locks(s) && Next(s, a, s') && !Stops(a)
    ensures Effect(s.threads, s.closes, s'.threads, s'.closes)
  {
    if a.Decide? {
      DecideHasEffect(s, a.thread, a.memory, a.journal, a.decision, s');
    } else if a.End? {
      EndHasEffect(s, a.thread, s');
    } else if a.Execute? || a.PersistResult? {
      OwnerHasEffect(s, a, s');
    } else if a.Call? {
      CallHasEffect(s, a.request, a.now, s');
    } else {
      WaiterHasEffect(s, a, s');
    }
  }

  lemma EffectKeepsWaiters(threads: map<nat, Thread>, closes: seq<Close>, threads': map<nat, Thread>,
                           closes': seq<Close>)
    requires Awaited(threads, closes) && Effect(threads, closes, threads', closes')
    ensures Awaited(threads', closes')
  {
    forall t | t in threads' && threads'[t].Waiting?
      ensures Released(closes', threads'[t].channel) || AtWork(threads', threads'[t].channel)
    {
      var ch := threads'[t].channel;
      if !AtWork(threads', ch) && Released(closes, ch) {
        ReleasedStays(closes, closes', ch);
      }
    }
  }

  ghost predicate Served(s: State) {
    var holds := Locks(s) && Awaited(s.threads, s.closes);
    holds
  }

  lemma StepKeepsWaiters(s: State, a: Step, s': State)
    requires Served(s) && Locks(s') && Next(s, a, s')
    ensures Served(s')
  {
    if Stops(a) {
      assert s'.threads == map[];
    } else {
      StepHasEffect(s, a, s');
      EffectKeepsWaiters(s.threads, s.closes, s'.threads, s'.closes);
    }
  }

  lemma {:induction false} RunServes(states: seq<State>, steps: seq<Step>, k: nat)
    requires IsRun(states, steps) && k < |states|
    ensures Served(states[k])
  {
    RunLocks(states, steps, k);
    if k == 0 {
    } else {
      RunServes(states, steps, k - 1);
      StepKeepsWaiters(states[k - 1], steps[k - 1], states[k]);
    }
  }

  /** In every reachable state, whoever waits waits for a closed channel or for a thread at work that owns it. */
  lemma WaitersAreServed(states: seq<State>, steps: seq<Step>, k: nat, t: nat)
    requires IsRun(states, steps) && k < |states| && t in states[k].threads && states[k].threads[t].Waiting?
    ensures var ch := states[k].threads[t].channel; Released(states[k].closes, ch) || AtWork(states[k].threads, ch)
  {
    RunServes(states, steps, k);
  }

  /**
   While the agent runs, a thread that has reserved an operation is still at work or has closed its own
   channel; it has done so only once.
   */
  lemma {:induction false} OwnersClose(states: seq<State>, steps: seq<Step>, i: nat, k: nat, t: nat)
    requires IsRun(states, steps) && i <= k < |states| && AtWork(states[i].threads, t)
    requires forall x | i <= x < k :: !Stops(steps[x])
    ensures AtWork(states[k].threads, t) || Released(states[k].closes, t)
    ensures forall x, y | 0 <= x < y < |states[k].closes| ::
              !(states[k].closes[x].channel == states[k].closes[y].channel == t)
    decreases k
  {
    RunLocks(states, steps, k);
    if i == k {
    } else {
      OwnersClose(states, steps, i, k - 1, t);
      RunLocks(states, steps, k - 1);
      StepHasEffect(states[k - 1], steps[k - 1], states[k]);
      if Released(states[k - 1].closes, t) {
        ReleasedStays(states[k - 1].closes, states[k].closes, t);
      }
    }
  }
}
