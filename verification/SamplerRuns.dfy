/**
 The sampler with its subscribers as a transition system: captures, subscriptions and closes under
 one lock, and consumers that receive at any time, also between the selects of one delivery.
 */
module SamplerRuns {

  import opened Options
  import opened Permutations

  /**
   A subscriber's channel. Samples are known by their sequence numbers. All fields but `pending` and
   `open` are history variables; a value that is pending at the close can still be received.
   */
  datatype Channel = Channel(
    pending: Option<nat>, open: bool, closes: nat, received: seq<nat>, offered: nat, sent: nat, dropped: nat)

  /** Where the capture is in its loop over the subscribers, and within one delivery. */
  datatype Stage = Choosing | Blocked(id: nat) | Drained(id: nat)

  datatype Producer = Idle | Delivering(rest: set<nat>, stage: Stage)

  /** `panicked` says that a closed channel was sent to or closed; `stalled` that the last default branch was taken. */
  datatype State = State(
    closed: bool, sequence: nat, nextID: nat, subscribers: set<nat>, channels: map<nat, Channel>, dropped: nat,
    producer: Producer, maximum: nat, panicked: bool, stalled: bool)

  ghost predicate Init(s: State) {
    && !s.closed && s.sequence == 0 && s.nextID == 0 && s.subscribers == {} && s.channels == map[] && s.dropped == 0
    && s.producer == Idle && !s.panicked && !s.stalled
  }

  // ---------------------------------------------------------------------------------------
  // Steps.
  // ---------------------------------------------------------------------------------------

  function With(s: State, id: nat, ch: Channel): State { s.(channels := s.channels[id := ch]) }

  function Sent(ch: Channel, value: nat): Channel { ch.(pending := Some(value), sent := ch.sent + 1) }

  predicate BeginsCapture(s: State, s': State) {
    && s.producer == Idle && !s.closed
    && s' == s.(sequence := s.sequence + 1, producer := Delivering(s.subscribers, Choosing))
  }

  /** The first select: send if the slot is empty. */
  predicate SendsFirst(s: State, id: nat, s': State) {
    && s.producer.Delivering? && s.producer.stage == Choosing && id in s.producer.rest && id in s.channels
    && var ch := s.channels[id].(offered := s.channels[id].offered + 1);
    && if !ch.open then s' == s.(panicked := true)
       else if ch.pending.None?
               then s' == With(s, id, Sent(ch, s.sequence)).(producer := Delivering(s.producer.rest - {id}, Choosing))
       else s' == With(s, id, ch).(producer := s.producer.(stage := Blocked(id)))
  }

  /** The second select: drop the stale sample unless the consumer has taken it meanwhile. */
  predicate Drains(s: State, id: nat, s': State) {
    && s.producer.Delivering? && s.producer.stage == Blocked(id) && id in s.channels
    && var ch, next := s.channels[id], s.producer.(stage := Drained(id));
    && if ch.pending.Some?
       then s' ==
         With(s, id, ch.(pending := None, dropped := ch.dropped + 1)).(dropped := s.dropped + 1, producer := next)
       else s' == s.(producer := next)
  }

  /** The third select. */
  predicate SendsLast(s: State, id: nat, s': State) {
    && s.producer.Delivering? && s.producer.stage == Drained(id) && id in s.channels
    && var ch, next := s.channels[id], Delivering(s.producer.rest - {id}, Choosing);
    && if !ch.open then s' == s.(panicked := true)
       else if ch.pending.None? then s' == With(s, id, Sent(ch, s.sequence)).(producer := next)
       else s' == s.(producer := next, stalled := true)
  }

  predicate EndsCapture(s: State, s': State) {
    s.producer == Delivering({}, Choosing) && s' == s.(producer := Idle)
  }

  predicate Receives(s: State, id: nat, s': State) {
    && id in s.channels && s.channels[id].pending.Some?
    && var ch := s.channels[id];
    && s' == With(s, id, ch.(pending := None, received := ch.received + [ch.pending.value]))
  }

  function NewChannel(sequence: nat): Channel {
    if sequence == 0 then Channel(None, true, 0, [], 0, 0, 0) else Channel(Some(sequence), true, 0, [], 1, 1, 0)
  }

  /** A new subscriber starts with the latest sample, if there is one. */
  predicate Subscribes(s: State, s': State) {
    && s.producer == Idle && !s.closed && |s.subscribers| < s.maximum
    && s' == s.(nextID := s.nextID + 1, subscribers := s.subscribers + {s.nextID + 1},
                channels := s.channels[s.nextID + 1 := NewChannel(s.sequence)])
  }

  function Closed(ch: Channel): Channel { ch.(open := false, closes := ch.closes + 1) }

  predicate Unsubscribes(s: State, id: nat, s': State) {
    && s.producer == Idle
    && if id !in s.subscribers then s' == s
       else
         && id in s.channels
         && s' == With(s, id,
                       Closed(s.channels[id])).(subscribers := s.subscribers - {id}, panicked := s.panicked
                                                || !s.channels[id].open)
  }

  predicate Closes(s: State, s': State) {
    && s.producer == Idle
    && if s.closed then s' == s
       else
         && s.subscribers <= s.channels.Keys
         && s' == s.(closed := true, subscribers := {},
                     channels := map id | id in s.channels ::
                       if id in s.subscribers then Closed(s.channels[id]) else s.channels[id],
                     panicked := s.panicked || exists id :: id in s.subscribers && !s.channels[id].open)
  }

  datatype Action =
    | BeginCapture | SendFirst(id: nat) | Drain(id: nat) | SendLast(id: nat) | EndCapture
    | Receive(id: nat) | Subscribe | Unsubscribe(id: nat) | Close

  predicate Next(s: State, a: Action, s': State) {
    match a
    case BeginCapture => BeginsCapture(s, s')
    case SendFirst(id) => SendsFirst(s, id, s')
    case Drain(id) => Drains(s, id, s')
    case SendLast(id) => SendsLast(s, id, s')
    case EndCapture => EndsCapture(s, s')
    case Receive(id) => Receives(s, id, s')
    case Subscribe => Subscribes(s, s')
    case Unsubscribe(id) => Unsubscribes(s, id, s')
    case Close => Closes(s, s')
  }

  ghost predicate IsRun(states: seq<State>, actions: seq<Action>) {
    && |states| == |actions| + 1
    && Init(states[0])
    && forall k | 0 <= k < |actions| :: Next(states[k], actions[k], states[k + 1])
  }

  // ---------------------------------------------------------------------------------------
  // What every step keeps.
  // ---------------------------------------------------------------------------------------

  /** Everything delivered so far, the pending sample last. */
  function Delivered(ch: Channel): seq<nat> { ch.received + if ch.pending.Some? then [ch.pending.value] else [] }

  /** The deliveries increase and stay within `limit`, and the books balance. */
  ghost predicate GoodChannel(ch: Channel, limit: int) {
    var holds :=
      && Increasing(Delivered(ch)) && (forall i | 0 <= i < |Delivered(ch)| :: Delivered(ch)[i] <= limit)
      && ch.sent == |Delivered(ch)| + ch.dropped
      && ch.closes == (if ch.open then 0 else 1);
    holds
  }

  /** The delivery of the current sample to this channel has begun and has not ended. */
  predicate InDelivery(p: Producer, id: nat) {
    p.Delivering? && (p.stage == Blocked(id) || p.stage == Drained(id))
  }

  /** The subscriber still waits for the current sample. */
  predicate Awaits(p: Producer, id: nat) { p.Delivering? && id in p.rest }

  /** The newest delivery to this channel is this sample. */
  predicate UpToDate(ch: Channel, sequence: nat) {
    sequence > 0 ==> Delivered(ch) != [] && Delivered(ch)[|Delivered(ch)| - 1] == sequence
  }

  ghost predicate GoodEntry(p: Producer, sequence: nat, subscribed: bool, id: nat, ch: Channel) {
    var holds :=
      && GoodChannel(ch, if Awaits(p, id) then sequence - 1 else sequence)
      && ch.offered == (if InDelivery(p, id) then ch.sent + 1 else ch.sent)
      && (subscribed <==> ch.open)
      && (subscribed && !Awaits(p, id) ==> UpToDate(ch, sequence))
      && (p.Delivering? && p.stage == Drained(id) ==> ch.pending.None?);
    holds
  }

  ghost predicate GoodProducer(p: Producer, closed: bool, sequence: nat, subscribers: set<nat>) {
    && (p.Delivering? ==> !closed && sequence > 0 && p.rest <= subscribers)
    && (p.Delivering? && !p.stage.Choosing? ==> p.stage.id in p.rest)
    && (closed ==> subscribers == {})
  }

  /** The samples dropped on the channels numbered up to `n`. */
  ghost function Total(channels: map<nat, Channel>, n: nat): nat {
    if n == 0 then 0 else Total(channels, n - 1) + if n in channels then channels[n].dropped else 0
  }

  ghost predicate GoodEntries(p: Producer, sequence: nat, subscribers: set<nat>, channels: map<nat, Channel>) {
    forall id | id in channels :: GoodEntry(p, sequence, id in subscribers, id, channels[id])
  }

  ghost predicate Inv(s: State) {
    && GoodEntries(s.producer, s.sequence, s.subscribers, s.channels)
    && GoodProducer(s.producer, s.closed, s.sequence, s.subscribers)
    && s.subscribers <= s.channels.Keys && (forall id | id in s.channels :: 0 < id <= s.nextID)
    && |s.subscribers| <= s.maximum
    && s.dropped == Total(s.channels, s.nextID)
    && !s.panicked && !s.stalled
  }

  // ---------------------------------------------------------------------------------------
  // One channel.
  // ---------------------------------------------------------------------------------------

  lemma SendKeeps(ch: Channel, sequence: nat)
    requires GoodChannel(ch, sequence - 1) && ch.pending.None?
    ensures GoodChannel(Sent(ch, sequence), sequence) && UpToDate(Sent(ch, sequence), sequence)
  {
    assert Delivered(ch) == ch.received;
    assert Delivered(Sent(ch, sequence)) == ch.received + [sequence];
  }

  lemma DropKeeps(ch: Channel, limit: int)
    requires GoodChannel(ch, limit) && ch.pending.Some?
    ensures GoodChannel(ch.(pending := None, dropped := ch.dropped + 1), limit)
  {
    var ch' := ch.(pending := None, dropped := ch.dropped + 1);
    assert Delivered(ch) == Delivered(ch') + [ch.pending.value];
    assert forall i | 0 <= i < |Delivered(ch')| :: Delivered(ch)[i] == Delivered(ch')[i];
  }

  lemma ReceiveKeeps(ch: Channel)
    requires ch.pending.Some?
    ensures Delivered(ch.(pending := None, received := ch.received + [ch.pending.value])) == Delivered(ch)
  {
  }

  lemma NewChannelIsGood(sequence: nat)
    ensures GoodChannel(NewChannel(sequence), sequence) && UpToDate(NewChannel(sequence), sequence)
  {
  }

  // ---------------------------------------------------------------------------------------
  // The total of dropped samples.
  // ---------------------------------------------------------------------------------------

  lemma {:induction false} TotalSame(a: map<nat, Channel>, b: map<nat, Channel>, n: nat)
    requires forall id | 0 < id <= n :: id in a <==> id in b
    requires forall id | 0 < id <= n && id in a :: a[id].dropped == b[id].dropped
    ensures Total(a, n) == Total(b, n)
  {
    if n > 0 { TotalSame(a, b, n - 1); }
  }

  lemma {:induction false} TotalOneMore(a: map<nat, Channel>, id: nat, ch: Channel, n: nat)
    requires 0 < id <= n && id in a && ch.dropped == a[id].dropped + 1
    ensures Total(a[id := ch], n) == Total(a, n) + 1
  {
    if id < n { TotalOneMore(a, id, ch, n - 1); } else { TotalSame(a, a[id := ch], n - 1); }
  }

  lemma TotalNew(a: map<nat, Channel>, n: nat, ch: Channel)
    requires ch.dropped == 0
    ensures Total(a[n + 1 := ch], n + 1) == Total(a, n)
  {
    TotalSame(a, a[n + 1 := ch], n);
  }

  // ---------------------------------------------------------------------------------------
  // Steps.
  // ---------------------------------------------------------------------------------------

  /** A step that touches one channel and changes nothing for the others. */
  lemma OneChannel(p: Producer, p': Producer, sequence: nat, subscribers: set<nat>, channels: map<nat, Channel>,
                   id: nat, ch: Channel)
    requires GoodEntries(p, sequence, subscribers, channels)
    requires forall x | x in channels && x != id ::
               (Awaits(p, x) <==> Awaits(p', x)) && !InDelivery(p', x) && !InDelivery(p, x)
    requires GoodEntry(p', sequence, id in subscribers, id, ch)
    ensures GoodEntries(p', sequence, subscribers, channels[id := ch])
  {
    forall x | x in channels && x != id ensures GoodEntry(p', sequence, x in subscribers, x, channels[x]) {
      assert GoodEntry(p, sequence, x in subscribers, x, channels[x]);
    }
  }

  lemma SendFirstEntry(p: Producer, sequence: nat, id: nat, ch: Channel)
    requires p.Delivering? && p.stage == Choosing && id in p.rest && GoodEntry(p, sequence, true, id, ch)
    ensures var counted := ch.(offered := ch.offered + 1);
            if ch.pending.None?
               then GoodEntry(Delivering(p.rest - {id}, Choosing), sequence, true, id, Sent(counted, sequence))
            else GoodEntry(p.(stage := Blocked(id)), sequence, true, id, counted)
  {
    var counted := ch.(offered := ch.offered + 1);
    assert Delivered(counted) == Delivered(ch);
    if ch.pending.None? { SendKeeps(counted, sequence); }
  }

  lemma SendFirstKeeps(s: State, id: nat, s': State)
    requires Inv(s) && SendsFirst(s, id, s')
    ensures Inv(s')
  {
    assert GoodEntry(s.producer, s.sequence, true, id, s.channels[id]);
    SendFirstEntry(s.producer, s.sequence, id, s.channels[id]);
    OneChannel(s.producer, s'.producer, s.sequence, s.subscribers, s.channels, id, s'.channels[id]);
    TotalSame(s.channels, s'.channels, s.nextID);
  }

  lemma DrainKeeps(s: State, id: nat, s': State)
    requires Inv(s) && Drains(s, id, s')
    ensures Inv(s')
  {
    var ch := s.channels[id];
    assert GoodEntry(s.producer, s.sequence, id in s.subscribers, id, ch);
    if ch.pending.Some? {
      DropKeeps(ch, s.sequence - 1);
      TotalOneMore(s.channels, id, s'.channels[id], s.nextID);
    }
    OneChannel(s.producer, s'.producer, s.sequence, s.subscribers, s.channels, id, s'.channels[id]);
    assert ch.pending.None? ==> s.channels[id := ch] == s.channels;
  }

  lemma SendLastKeeps(s: State, id: nat, s': State)
    requires Inv(s) && SendsLast(s, id, s')
    ensures Inv(s')
  {
    var ch := s.channels[id];
    assert GoodEntry(s.producer, s.sequence, id in s.subscribers, id, ch);
    SendKeeps(ch, s.sequence);
    OneChannel(s.producer, s'.producer, s.sequence, s.subscribers, s.channels, id, s'.channels[id]);
    TotalSame(s.channels, s'.channels, s.nextID);
  }

  lemma ReceiveStepKeeps(s: State, id: nat, s': State)
    requires Inv(s) && Receives(s, id, s')
    ensures Inv(s')
  {
    var ch := s.channels[id];
    ReceiveKeeps(ch);
    assert GoodEntry(s.producer, s.sequence, id in s.subscribers, id, ch);
    forall x | x in s'.channels ensures GoodEntry(s.producer, s.sequence, x in s.subscribers, x, s'.channels[x]) {
      assert x != id ==> GoodEntry(s.producer, s.sequence, x in s.subscribers, x, s.channels[x]);
    }
    TotalSame(s.channels, s'.channels, s.nextID);
  }

  lemma CaptureKeeps(s: State, s': State)
    requires Inv(s) && (BeginsCapture(s, s') || EndsCapture(s, s'))
    ensures Inv(s')
  {
    forall x | x in s'.channels ensures GoodEntry(s'.producer, s'.sequence, x in s.subscribers, x, s.channels[x]) {
      assert GoodEntry(s.producer, s.sequence, x in s.subscribers, x, s.channels[x]);
    }
  }

  lemma SubscribeKeeps(s: State, s': State)
    requires Inv(s) && Subscribes(s, s')
    ensures Inv(s')
  {
    var id, ch := s.nextID + 1, NewChannel(s.sequence);
    assert id !in s.channels && id !in s.subscribers;
    EntriesGrow(s.sequence, s.subscribers, s.channels, id);
    TotalNew(s.channels, s.nextID, ch);
    OneSubscriberMore(s.subscribers, id);
  }

  lemma OneSubscriberMore(subscribers: set<nat>, id: nat)
    requires id !in subscribers
    ensures |subscribers + {id}| == |subscribers| + 1
  {
  }

  lemma EntriesGrow(sequence: nat, subscribers: set<nat>, channels: map<nat, Channel>, id: nat)
    requires GoodEntries(Idle, sequence, subscribers, channels) && id !in channels
    ensures GoodEntries(Idle, sequence, subscribers + {id}, channels[id := NewChannel(sequence)])
  {
    NewChannelIsGood(sequence);
    forall x | x in channels ensures GoodEntry(Idle, sequence, x in subscribers + {id}, x, channels[x]) {
      assert GoodEntry(Idle, sequence, x in subscribers, x, channels[x]);
    }
  }

  lemma CloseChannelKeeps(sequence: nat, id: nat, ch: Channel)
    requires GoodEntry(Idle, sequence, true, id, ch)
    ensures GoodEntry(Idle, sequence, false, id, Closed(ch)) && ch.open
  {
    assert Delivered(Closed(ch)) == Delivered(ch);
  }

  lemma UnsubscribeKeeps(s: State, id: nat, s': State)
    requires Inv(s) && Unsubscribes(s, id, s')
    ensures Inv(s')
  {
    if id in s.subscribers {
      assert GoodEntry(Idle, s.sequence, true, id, s.channels[id]);
      CloseChannelKeeps(s.sequence, id, s.channels[id]);
      forall x | x in s'.channels ensures GoodEntry(Idle, s.sequence, x in s'.subscribers, x, s'.channels[x]) {
        assert x != id ==> GoodEntry(Idle, s.sequence, x in s.subscribers, x, s.channels[x]);
      }
      TotalSame(s.channels, s'.channels, s.nextID);
    }
  }

  lemma CloseKeeps(s: State, s': State)
    requires Inv(s) && Closes(s, s')
    ensures Inv(s')
  {
    if !s.closed {
      forall x | x in s.channels
        ensures GoodEntry(Idle, s.sequence, false, x, s'.channels[x]) && (x in s.subscribers ==> s.channels[x].open)
      {
        assert GoodEntry(Idle, s.sequence, x in s.subscribers, x, s.channels[x]);
        if x in s.subscribers { CloseChannelKeeps(s.sequence, x, s.channels[x]); }
      }
      TotalSame(s.channels, s'.channels, s.nextID);
    }
  }

  lemma NextKeeps(s: State, a: Action, s': State)
    requires Inv(s) && Next(s, a, s')
    ensures Inv(s')
  {
    match a
    case BeginCapture => CaptureKeeps(s, s');
    case SendFirst(id) => SendFirstKeeps(s, id, s');
    case Drain(id) => DrainKeeps(s, id, s');
    case SendLast(id) => SendLastKeeps(s, id, s');
    case EndCapture => CaptureKeeps(s, s');
    case Receive(id) => ReceiveStepKeeps(s, id, s');
    case Subscribe => SubscribeKeeps(s, s');
    case Unsubscribe(id) => UnsubscribeKeeps(s, id, s');
    case Close => CloseKeeps(s, s');
  }

  lemma {:induction false} RunKeeps(states: seq<State>, actions: seq<Action>, k: nat)
    requires IsRun(states, actions) && k < |states|
    ensures Inv(states[k])
  {
    if k == 0 {
    } else {
      RunKeeps(states, actions, k - 1);
      NextKeeps(states[k - 1], actions[k - 1], states[k]);
    }
  }

  // ---------------------------------------------------------------------------------------
  // Theorems over whole runs.
  // ---------------------------------------------------------------------------------------

  /** The last default branch is never taken, and no channel is sent to after its close or closed twice. */
  lemma DeliveryNeverFails(states: seq<State>, actions: seq<Action>, k: nat)
    requires IsRun(states, actions) && k < |states|
    ensures !states[k].stalled && !states[k].panicked
    ensures forall id | id in states[k].channels ::
              states[k].channels[id].closes == (if states[k].channels[id].open then 0 else 1)
    ensures |states[k].subscribers| <= states[k].maximum
  {
    RunKeeps(states, actions, k);
    forall id | id in states[k].channels
      ensures states[k].channels[id].closes == (if states[k].channels[id].open then 0 else 1)
    {
      assert GoodEntry(states[k].producer, states[k].sequence, id in states[k].subscribers, id, states[k].channels[id]);
    }
  }

  /**
   Each subscriber receives strictly increasing samples, and offered is received plus dropped plus
   pending once no delivery is under way.
   */
  lemma DeliveriesAddUp(states: seq<State>, actions: seq<Action>, k: nat, id: nat)
    requires IsRun(states, actions) && k < |states| && id in states[k].channels
    ensures var ch := states[k].channels[id];
            && Increasing(ch.received)
            && (ch.pending.Some? ==> forall i | 0 <= i < |ch.received| :: ch.received[i] < ch.pending.value)
            && ch.sent == |ch.received| + ch.dropped + (if ch.pending.Some? then 1 else 0)
            && (!InDelivery(states[k].producer, id) ==> ch.offered == ch.sent)
  {
    RunKeeps(states, actions, k);
    var ch := states[k].channels[id];
    assert GoodEntry(states[k].producer, states[k].sequence, id in states[k].subscribers, id, ch);
    assert forall i | 0 <= i < |ch.received| :: Delivered(ch)[i] == ch.received[i];
    if ch.pending.Some? {
      assert Delivered(ch)[|ch.received|] == ch.pending.value;
    }
  }

  /** Between captures every subscriber has received the newest sample or has it pending. */
  lemma SubscribersAreUpToDate(states: seq<State>, actions: seq<Action>, k: nat, id: nat)
    requires IsRun(states, actions) && k < |states| && id in states[k].subscribers
    requires states[k].producer == Idle && states[k].sequence > 0
    ensures id in states[k].channels
    ensures var ch := states[k].channels[id];
            ch.pending == Some(states[k].sequence)
            || (ch.pending.None? && ch.received != [] && ch.received[|ch.received| - 1] == states[k].sequence)
  {
    RunKeeps(states, actions, k);
    assert GoodEntry(Idle, states[k].sequence, true, id, states[k].channels[id]);
  }

  /** The published counter is the number of samples dropped on all channels there ever were. */
  lemma DroppedIsTotal(states: seq<State>, actions: seq<Action>, k: nat)
    requires IsRun(states, actions) && k < |states|
    ensures states[k].dropped == Total(states[k].channels, states[k].nextID)
    ensures forall id | id in states[k].channels :: 0 < id <= states[k].nextID
  {
    RunKeeps(states, actions, k);
  }
}
