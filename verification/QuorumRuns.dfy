/**
 The quorum store as a transition system: any number of concurrent advances and loads against
 member registers, with any delays, losses and arrival orders.
 */
module QuorumRuns {

  import opened Anchors
  import opened Permutations
  import opened QuorumStore

  /** An advance in progress; `start` is a history variable with the registers when it began. */
  datatype Writer = Writer(anchor: Value, start: seq<Value>, accepted: set<nat>, acknowledged: bool)

  /** A load in progress: which members have been read, and what they held. */
  datatype Loader = Loader(start: seq<Value>, observed: map<nat, Value>, results: set<Value>)

  datatype State = State(registers: seq<Value>, writers: map<nat, Writer>, loaders: map<nat, Loader>)

  datatype Action =
    | BeginAdvance(writer: nat, anchor: Value)
    | Accept(writer: nat, member: nat)
    | Acknowledge(writer: nat)
    | BeginLoad(loader: nat)
    | Observe(loader: nat, member: nat)
    | Return(loader: nat, order: seq<nat>, anchor: Value)

  predicate Init(s: State) {
    && (forall m | 0 <= m < |s.registers| :: s.registers[m] == ABSENT)
    && s.writers == map[] && s.loaders == map[]
  }

  predicate BeginsAdvance(s: State, w: nat, a: Value, s': State) {
    && w !in s.writers && a.present && a.databaseID != ZERO_ID && a.generation != 0
    && s' == s.(writers := s.writers[w := Writer(a, s.registers, {}, false)])
  }

  /** A member accepts an anchor that keeps everything of the anchor it holds. */
  predicate Accepts(s: State, w: nat, m: nat, s': State) {
    && w in s.writers && m < |s.registers| && Covers(s.writers[w].anchor, s.registers[m])
    && s' == s.(registers := s.registers[m := s.writers[w].anchor],
                writers := s.writers[w := s.writers[w].(accepted := s.writers[w].accepted + {m})])
  }

  predicate Acknowledges(s: State, w: nat, s': State) {
    && w in s.writers && |s.writers[w].accepted| >= Quorum(|s.registers|)
    && s' == s.(writers := s.writers[w := s.writers[w].(acknowledged := true)])
  }

  predicate BeginsLoad(s: State, l: nat, s': State) {
    l !in s.loaders && s' == s.(loaders := s.loaders[l := Loader(s.registers, map[], {})])
  }

  predicate ObservesMember(s: State, l: nat, m: nat, s': State) {
    && l in s.loaders && m < |s.registers| && m !in s.loaders[l].observed
    && s' == s.(loaders := s.loaders[l := s.loaders[l].(observed := s.loaders[l].observed[m := s.registers[m]])])
  }

  /** The replies of distinct members, in the order in which they arrived. */
  ghost predicate Arrived(observed: map<nat, Value>, order: seq<nat>) {
    && (forall i | 0 <= i < |order| :: order[i] in observed)
    && (forall i, j | 0 <= i < j < |order| :: order[i] != order[j])
  }

  ghost function Replies(observed: map<nat, Value>, order: seq<nat>): (values: seq<Value>)
    requires Arrived(observed, order)
    ensures |values| == |order|
  {
    seq(|order|, i requires 0 <= i < |order| => observed[order[i]])
  }

  ghost predicate Returns(s: State, l: nat, order: seq<nat>, v: Value, s': State) {
    && l in s.loaders && Arrived(s.loaders[l].observed, order)
    && Selects(Replies(s.loaders[l].observed, order), Quorum(|s.registers|), Ready(v))
    && s' == s.(loaders := s.loaders[l := s.loaders[l].(results := s.loaders[l].results + {v})])
  }

  ghost predicate Next(s: State, a: Action, s': State) {
    match a
    case BeginAdvance(w, anchor) => BeginsAdvance(s, w, anchor, s')
    case Accept(w, m) => Accepts(s, w, m, s')
    case Acknowledge(w) => Acknowledges(s, w, s')
    case BeginLoad(l) => BeginsLoad(s, l, s')
    case Observe(l, m) => ObservesMember(s, l, m, s')
    case Return(l, order, v) => Returns(s, l, order, v, s')
  }

  ghost predicate IsRun(states: seq<State>, actions: seq<Action>) {
    && |states| == |actions| + 1
    && Init(states[0])
    && forall k | 0 <= k < |actions| :: Next(states[k], actions[k], states[k + 1])
  }

  // ---------------------------------------------------------------------------------------
  // What every step keeps.
  // ---------------------------------------------------------------------------------------

  ghost function Holders(registers: seq<Value>, a: Value): set<nat> {
    set m: nat | m < |registers| && Covers(registers[m], a)
  }

  /** A quorum of members keeps everything of `a`. */
  ghost predicate Held(registers: seq<Value>, a: Value) {
    |Holders(registers, a)| >= Quorum(|registers|)
  }

  /** Every member is where it was, or further. */
  ghost predicate Forward(before: seq<Value>, after: seq<Value>) {
    |before| == |after| && forall m | 0 <= m < |before| :: Covers(after[m], before[m])
  }

  /** What a member accepted from a writer is at least what it held when the writer began, and is kept since. */
  ghost predicate GoodWriter(registers: seq<Value>, w: Writer) {
    && Forward(w.start, registers) && w.anchor.present
    && (forall m | m in w.accepted :: m < |registers| && Covers(w.anchor, w.start[m]) && Covers(registers[m], w.anchor))
    && (w.acknowledged ==> |w.accepted| >= Quorum(|registers|))
  }

  /** What a load read from a member is at least what the member held when the load began. */
  ghost predicate GoodLoader(registers: seq<Value>, l: Loader) {
    && Forward(l.start, registers)
    && (forall m | m in l.observed :: m < |l.start| && Covers(l.observed[m], l.start[m]))
    && (forall v, a | v in l.results && Held(l.start, a) :: Covers(v, a))
  }

  /** Two writers accepted by one member are ordered. */
  ghost predicate Ordered(v: Writer, w: Writer) {
    v.accepted * w.accepted == {} || BeforeOrEqual(v.anchor, w.anchor) || BeforeOrEqual(w.anchor, v.anchor)
  }

  ghost predicate Inv(s: State) {
    && (forall w | w in s.writers :: GoodWriter(s.registers, s.writers[w]))
    && (forall l | l in s.loaders :: GoodLoader(s.registers, s.loaders[l]))
    && (forall v, w | v in s.writers && w in s.writers :: Ordered(s.writers[v], s.writers[w]))
  }

  lemma ForwardTransitive(a: seq<Value>, b: seq<Value>, c: seq<Value>)
    requires Forward(a, b) && Forward(b, c)
    ensures Forward(a, c)
  {
  }

  lemma {:induction false} ImageSize(s: set<nat>, order: seq<nat>) returns (image: set<nat>)
    requires forall i | i in s :: i < |order|
    requires forall i, j | 0 <= i < j < |order| :: order[i] != order[j]
    ensures |image| == |s|
    ensures forall m :: m in image <==> exists i :: i in s && order[i] == m
  {
    image := {};
    if s == {} {
    } else {
      var x :| x in s;
      image := ImageSize(s - {x}, order);
      assert order[x] !in image;
      image := image + {order[x]};
      assert s == (s - {x}) + {x};
    }
  }

  /** A selected value, or a confirmed absence, keeps everything of a quorum of the replies. */
  lemma SelectedCoversQuorum(replies: seq<Value>, quorum: nat, v: Value)
    requires Selects(replies, quorum, Ready(v))
    ensures |CoveredBy(replies, v)| >= quorum
  {
    if v == ABSENT {
      assert AbsentAmong(replies, |replies|) == CoveredBy(replies, ABSENT);
    }
  }

  /** The load floor: a load keeps everything that a quorum held when it began. */
  lemma LoadCoversHeld(start: seq<Value>, observed: map<nat, Value>, order: seq<nat>, v: Value, a: Value)
    requires Arrived(observed, order)
    requires forall m | m in observed :: m < |start| && Covers(observed[m], start[m])
    requires Held(start, a) && Selects(Replies(observed, order), Quorum(|start|), Ready(v))
    ensures Covers(v, a)
  {
    var replies, n := Replies(observed, order), |start|;
    SelectedCoversQuorum(replies, Quorum(n), v);
    var support := ImageSize(CoveredBy(replies, v), order);
    assert support <= Below(n) && Holders(start, a) <= Below(n);
    var m := MajoritiesMeet(n, support, Holders(start, a));
    var i :| i in CoveredBy(replies, v) && order[i] == m;
    CoversTransitive(a, start[m], observed[m]);
    CoversTransitive(a, observed[m], v);
  }

  /** The same for advances: an acknowledged anchor keeps everything that a quorum held when its advance began. */
  lemma AdvanceCoversHeld(registers: seq<Value>, w: Writer, a: Value)
    requires GoodWriter(registers, w) && |w.accepted| >= Quorum(|registers|) && Held(w.start, a)
    ensures Covers(w.anchor, a)
  {
    var n := |registers|;
    assert w.accepted <= Below(n) && Holders(w.start, a) <= Below(n);
    var m := MajoritiesMeet(n, w.accepted, Holders(w.start, a));
    CoversTransitive(a, w.start[m], w.anchor);
  }

  /** An acknowledged anchor is held by a quorum. */
  lemma AcknowledgedIsHeld(registers: seq<Value>, w: Writer)
    requires GoodWriter(registers, w) && w.acknowledged
    ensures Held(registers, w.anchor)
  {
    assert w.accepted <= Holders(registers, w.anchor);
    SubsetSize(w.accepted, Holders(registers, w.anchor));
  }

  // ---------------------------------------------------------------------------------------
  // Preservation.
  // ---------------------------------------------------------------------------------------

  lemma WriterStays(before: seq<Value>, after: seq<Value>, w: Writer)
    requires GoodWriter(before, w) && Forward(before, after)
    ensures GoodWriter(after, w)
  {
    ForwardTransitive(w.start, before, after);
  }

  lemma WriterGains(before: seq<Value>, after: seq<Value>, w: Writer, m: nat)
    requires GoodWriter(before, w) && GoodWriter(after, w) && m < |before| == |after|
    requires Covers(w.anchor, before[m]) && after[m] == w.anchor
    ensures GoodWriter(after, w.(accepted := w.accepted + {m}))
  {
    CoversTransitive(w.start[m], before[m], w.anchor);
    if m in w.accepted {
      assert w.accepted + {m} == w.accepted;
    } else {
      assert |w.accepted + {m}| == |w.accepted| + 1;
    }
  }

  lemma LoaderStays(before: seq<Value>, after: seq<Value>, l: Loader)
    requires GoodLoader(before, l) && Forward(before, after)
    ensures GoodLoader(after, l)
  {
    ForwardTransitive(l.start, before, after);
  }

  lemma AcceptKeeps(s: State, w: nat, m: nat, s': State)
    requires Inv(s) && Accepts(s, w, m, s')
    ensures Inv(s')
  {
    assert Forward(s.registers, s'.registers);
    forall v | v in s'.writers ensures GoodWriter(s'.registers, s'.writers[v]) {
      WriterStays(s.registers, s'.registers, s.writers[v]);
      if v == w {
        WriterGains(s.registers, s'.registers, s.writers[w], m);
      }
    }
    forall l | l in s'.loaders ensures GoodLoader(s'.registers, s'.loaders[l]) {
      LoaderStays(s.registers, s'.registers, s.loaders[l]);
    }
    forall v, u | v in s'.writers && u in s'.writers ensures Ordered(s'.writers[v], s'.writers[u]) {
      AcceptOrders(s, w, m, s', v, u);
    }
  }

  lemma AcceptOrders(s: State, w: nat, m: nat, s': State, v: nat, u: nat)
    requires Inv(s) && Accepts(s, w, m, s') && v in s.writers && u in s.writers
    ensures Ordered(s'.writers[v], s'.writers[u])
  {
    assert Ordered(s.writers[v], s.writers[u]);
    if v == w && m in s.writers[u].accepted {
      CoversTransitive(s.writers[u].anchor, s.registers[m], s.writers[w].anchor);
    }
    if u == w && m in s.writers[v].accepted {
      CoversTransitive(s.writers[v].anchor, s.registers[m], s.writers[w].anchor);
    }
  }

  lemma ReturnKeeps(s: State, l: nat, order: seq<nat>, v: Value, s': State)
    requires Inv(s) && Returns(s, l, order, v, s')
    ensures Inv(s')
  {
    var loader := s.loaders[l];
    forall a | Held(loader.start, a) ensures Covers(v, a) {
      LoadCoversHeld(loader.start, loader.observed, order, v, a);
    }
  }

  lemma NextKeeps(s: State, a: Action, s': State)
    requires Inv(s) && Next(s, a, s')
    ensures Inv(s')
  {
    match a
    case BeginAdvance(w, anchor) =>
    case Accept(w, m) => AcceptKeeps(s, w, m, s');
    case Acknowledge(w) =>
    case BeginLoad(l) =>
    case Observe(l, m) =>
    case Return(l, order, v) => ReturnKeeps(s, l, order, v, s');
  }

  lemma {:induction false} RunInv(states: seq<State>, actions: seq<Action>, k: nat)
    requires IsRun(states, actions) && k < |states|
    ensures Inv(states[k])
  {
    if k == 0 {
    } else {
      RunInv(states, actions, k - 1);
      NextKeeps(states[k - 1], actions[k - 1], states[k]);
    }
  }

  /** Operations stay in the record, with what they began from. */
  ghost predicate Remembers(s: State, s': State) {
    && (forall w | w in s.writers :: w in s'.writers && s'.writers[w].anchor == s.writers[w].anchor
                     && s'.writers[w].start == s.writers[w].start
                     && (s.writers[w].acknowledged ==> s'.writers[w].acknowledged))
    && (forall l | l in s.loaders :: l in s'.loaders && s'.loaders[l].start == s.loaders[l].start)
  }

  lemma {:induction false} RunRemembers(states: seq<State>, actions: seq<Action>, i: nat, k: nat)
    requires IsRun(states, actions) && i <= k < |states|
    ensures Remembers(states[i], states[k])
    decreases k
  {
    if i == k {
    } else {
      RunRemembers(states, actions, i, k - 1);
      StepRemembers(states[k - 1], actions[k - 1], states[k]);
      RemembersTransitive(states[i], states[k - 1], states[k]);
    }
  }

  lemma RemembersTransitive(s: State, s': State, s'': State)
    requires Remembers(s, s') && Remembers(s', s'')
    ensures Remembers(s, s'')
  {
  }

  lemma StepRemembers(s: State, a: Action, s': State)
    requires Next(s, a, s')
    ensures Remembers(s, s')
  {
  }

  // ---------------------------------------------------------------------------------------
  // Theorems over whole runs.
  // ---------------------------------------------------------------------------------------

  /** From its acknowledgement on, an anchor is held. */
  lemma AcknowledgedStaysHeld(states: seq<State>, actions: seq<Action>, w: nat, i: nat, j: nat)
    requires IsRun(states, actions) && i <= j < |states|
    requires w in states[i].writers && states[i].writers[w].acknowledged
    ensures states[i].writers[w].anchor.present && Held(states[j].registers, states[i].writers[w].anchor)
  {
    RunRemembers(states, actions, i, j);
    RunInv(states, actions, j);
    AcknowledgedIsHeld(states[j].registers, states[j].writers[w]);
  }

  lemma LoadStartsFrom(states: seq<State>, actions: seq<Action>, l: nat, j: nat, k: nat)
    requires IsRun(states, actions) && j < k < |states| && actions[j] == BeginLoad(l)
    ensures l in states[k].loaders && states[k].loaders[l].start == states[j].registers
  {
    assert Next(states[j], actions[j], states[j + 1]);
    RunRemembers(states, actions, j + 1, k);
  }

  lemma AdvanceStartsFrom(states: seq<State>, actions: seq<Action>, w: nat, j: nat, k: nat)
    requires IsRun(states, actions) && j < k < |states| && actions[j].BeginAdvance? && actions[j].writer == w
    ensures w in states[k].writers && states[k].writers[w].start == states[j].registers
  {
    assert Next(states[j], actions[j], states[j + 1]);
    RunRemembers(states, actions, j + 1, k);
  }

  /** A load that begins after an acknowledgement returns a value that keeps the acknowledged anchor. */
  lemma LoadsKeepAcknowledged(states: seq<State>, actions: seq<Action>, w: nat, i: nat, l: nat, j: nat, k: nat,
                              v: Value)
    requires IsRun(states, actions) && i <= j < k < |states|
    requires w in states[i].writers && states[i].writers[w].acknowledged
    requires actions[j] == BeginLoad(l)
    requires l in states[k].loaders && v in states[k].loaders[l].results
    ensures v.present && BeforeOrEqual(states[i].writers[w].anchor, v)
  {
    AcknowledgedStaysHeld(states, actions, w, i, j);
    LoadStartsFrom(states, actions, l, j, k);
    RunInv(states, actions, k);
    assert GoodLoader(states[k].registers, states[k].loaders[l]);
  }

  /**
   Acknowledged advances take effect in real-time order: a later advance keeps every anchor
   acknowledged before it began.
   */
  lemma AdvancesKeepAcknowledged(states: seq<State>, actions: seq<Action>, w: nat, i: nat, u: nat, j: nat, k: nat)
    requires IsRun(states, actions) && i <= j < k < |states|
    requires w in states[i].writers && states[i].writers[w].acknowledged
    requires actions[j].BeginAdvance? && actions[j].writer == u
    requires u in states[k].writers && states[k].writers[u].acknowledged
    ensures BeforeOrEqual(states[i].writers[w].anchor, states[k].writers[u].anchor)
  {
    AcknowledgedStaysHeld(states, actions, w, i, j);
    AdvanceStartsFrom(states, actions, u, j, k);
    RunInv(states, actions, k);
    AdvanceCoversHeld(states[k].registers, states[k].writers[u], states[i].writers[w].anchor);
  }

  /** Crossed advances are never both acknowledged: all acknowledged anchors form one chain. */
  lemma AcknowledgedFormChain(states: seq<State>, actions: seq<Action>, k: nat, v: nat, w: nat)
    requires IsRun(states, actions) && k < |states|
    requires v in states[k].writers && states[k].writers[v].acknowledged
    requires w in states[k].writers && states[k].writers[w].acknowledged
    ensures BeforeOrEqual(states[k].writers[v].anchor, states[k].writers[w].anchor)
         || BeforeOrEqual(states[k].writers[w].anchor, states[k].writers[v].anchor)
  {
    RunInv(states, actions, k);
    var s := states[k];
    assert GoodWriter(s.registers, s.writers[v]) && GoodWriter(s.registers, s.writers[w]);
    var n := |s.registers|;
    assert s.writers[v].accepted <= Below(n) && s.writers[w].accepted <= Below(n);
    var m := MajoritiesMeet(n, s.writers[v].accepted, s.writers[w].accepted);
    assert m in s.writers[v].accepted * s.writers[w].accepted;
    assert Ordered(s.writers[v], s.writers[w]);
  }
}
