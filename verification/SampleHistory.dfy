/** The sampler's fixed-size history and its one-slot delivery to a racing consumer. */
module SampleHistory {

  import opened Options

  // ---------------------------------------------------------------------------------------
  // The ring of retained samples.
  // ---------------------------------------------------------------------------------------

  /** The last elements of a sequence, at most `count` of them. */
  function Newest<T>(all: seq<T>, count: nat): seq<T> {
    if |all| <= count then all else all[|all| - count..]
  }

  function Wrap(index: nat, capacity: nat): nat
    requires 0 < capacity && index < 2 * capacity
  {
    if index < capacity then index else index - capacity
  }

  /** The remainder by which the ring is indexed. */
  method Position(index: nat, capacity: nat) returns (position: nat)
    requires 0 < capacity && index < 2 * capacity
    ensures position == Wrap(index, capacity)
  {
    position := index % capacity;
  }

  lemma NewestGrows<T>(all: seq<T>, sample: T, capacity: nat)
    requires 0 < capacity
    ensures var before := Newest(all, capacity);
            Newest(all + [sample], capacity) == (if |before| < capacity then before else before[1..]) + [sample]
  {
  }

  /** The i-th element is in its place. */
  ghost predicate InPlace<T>(ring: seq<T>, head: nat, elements: seq<T>, i: nat)
    requires head < |ring| && |elements| <= |ring| && i < |elements|
  {
    ring[Wrap(head + i, |ring|)] == elements[i]
  }

  /** The ring holds these elements, oldest at its head. */
  ghost predicate Holds<T>(ring: seq<T>, head: nat, length: nat, elements: seq<T>) {
    var holds :=
      && head < |ring| && length == |elements| <= |ring|
      && forall i {:trigger InPlace(ring, head, elements, i)} | 0 <= i < length :: InPlace(ring, head, elements, i);
    holds
  }

  lemma HoldsOneMore<T>(ring: seq<T>, head: nat, length: nat, elements: seq<T>, sample: T)
    requires Holds(ring, head, length, elements) && length < |ring|
    ensures Holds(ring[Wrap(head + length, |ring|) := sample], head, length + 1, elements + [sample])
  {
    var ring', elements' := ring[Wrap(head + length, |ring|) := sample], elements + [sample];
    forall i | 0 <= i < length + 1 ensures InPlace(ring', head, elements', i) {
      assert i < length ==> InPlace(ring, head, elements, i);
    }
  }

  lemma HoldsReplaced<T>(ring: seq<T>, head: nat, length: nat, elements: seq<T>, sample: T)
    requires Holds(ring, head, length, elements) && length == |ring|
    ensures Holds(ring[Wrap(head + length, |ring|) := sample], Wrap(head + 1, |ring|), length, elements[1..] + [sample])
  {
    var n := |ring|;
    var ring', head', elements' := ring[Wrap(head + length, n) := sample], Wrap(head + 1, n), elements[1..] + [sample];
    forall i | 0 <= i < length ensures InPlace(ring', head', elements', i) {
      if i < length - 1 {
        assert InPlace(ring, head, elements, i + 1);
        assert Wrap(head' + i, n) == Wrap(head + (i + 1), n);
        assert elements'[i] == elements[i + 1];
      }
    }
  }

  lemma RecordsOneMore<T>(ring: seq<T>, head: nat, length: nat, all: seq<T>, sample: T)
    requires Holds(ring, head, length, Newest(all, |ring|)) && length < |ring|
    ensures Holds(ring[Wrap(head + length, |ring|) := sample], head, length + 1, Newest(all + [sample], |ring|))
  {
    NewestGrows(all, sample, |ring|);
    HoldsOneMore(ring, head, length, Newest(all, |ring|), sample);
  }

  lemma RecordsInstead<T>(ring: seq<T>, head: nat, length: nat, all: seq<T>, sample: T)
    requires Holds(ring, head, length, Newest(all, |ring|)) && length == |ring|
    ensures Holds(ring[Wrap(head + length, |ring|) := sample], Wrap(head + 1, |ring|), length,
                  Newest(all + [sample], |ring|))
  {
    NewestGrows(all, sample, |ring|);
    HoldsReplaced(ring, head, length, Newest(all, |ring|), sample);
  }

  class History<T(0)> {
    var buffer: array<T>
    var head: nat
    var length: nat
    ghost var all: seq<T>

    ghost predicate Valid()
      reads this, buffer
    {
      Holds(buffer[..], head, length, Newest(all, buffer.Length))
    }

    constructor (capacity: nat)
      requires 0 < capacity
      ensures Valid() && fresh(buffer) && buffer.Length == capacity && all == []
    {
      buffer := new T[capacity];
      head, length, all := 0, 0, [];
    }

    /** Records a sample, replacing the oldest one when the history is full. */
    method Record(sample: T)
      requires Valid()
      modifies this, buffer
      ensures Valid() && buffer == old(buffer) && all == old(all) + [sample]
    {
      ghost var ring := buffer[..];
      var position := Position(head + length, buffer.Length);
      buffer[position] := sample;
      ghost var ring' := buffer[..];
      assert ring' == ring[position := sample];
      if length < buffer.Length {
        RecordsOneMore(ring, head, length, all, sample);
        length := length + 1;
        assert Holds(ring', head, length, Newest(all + [sample], |ring'|));
      } else {
        RecordsInstead(ring, head, length, all, sample);
        head := Position(head + 1, buffer.Length);
        assert Holds(ring', head, length, Newest(all + [sample], |ring'|));
      }
      all := all + [sample];
    }

    /** The retained samples, oldest first: exactly the newest ones recorded, as many as fit. */
    method ToSequence() returns (samples: seq<T>)
      requires Valid()
      ensures samples == Newest(all, buffer.Length)
    {
      samples := [];
      for index := 0 to length
        invariant |samples| == index
        invariant forall i | 0 <= i < index :: samples[i] == Newest(all, buffer.Length)[i]
      {
        assert InPlace(buffer[..], head, Newest(all, buffer.Length), index);
        var position := Position(head + index, buffer.Length);
        samples := samples + [buffer[position]];
      }
    }
  }

  // ---------------------------------------------------------------------------------------
  // One-slot delivery.
  // ---------------------------------------------------------------------------------------

  /** A channel with one slot, as its only producer and its only consumer see it. */
  class Slot<T> {
    var pending: Option<T>
    ghost var received: seq<T>
    ghost var sent: seq<T>
    ghost var dropped: nat

    constructor ()
      ensures pending == None && received == [] && sent == [] && dropped == 0
    {
      pending, received, sent, dropped := None, [], [], 0;
    }

    /** Nothing is lost or duplicated: what was sent was received, was dropped or is pending. */
    ghost predicate Conserves()
      reads this
    {
      |sent| == |received| + dropped + if pending.Some? then 1 else 0
    }

    /** The newest value has been received or is pending. */
    ghost predicate Has(value: T)
      reads this
    {
      pending == Some(value) || (pending == None && received != [] && received[|received| - 1] == value)
    }

    method Receive(ready: bool)
      requires Conserves()
      modifies this
      ensures Conserves() && sent == old(sent) && dropped == old(dropped)
      ensures !ready || old(pending) == None ==> pending == old(pending) && received == old(received)
      ensures ready && old(pending).Some? ==> pending == None && received == old(received) + [old(pending).value]
    {
      if ready && pending.Some? {
        received := received + [pending.value];
        pending := None;
      }
    }

    method TrySend(value: T) returns (ok: bool)
      requires Conserves()
      modifies this
      ensures Conserves() && received == old(received) && dropped == old(dropped)
      ensures ok <==> old(pending) == None
      ensures ok ==> pending == Some(value) && sent == old(sent) + [value]
      ensures !ok ==> pending == old(pending) && sent == old(sent)
    {
      ok := pending == None;
      if ok {
        pending, sent := Some(value), sent + [value];
      }
    }

    method TryDrain() returns (ok: bool)
      requires Conserves()
      modifies this
      ensures Conserves() && pending == None && received == old(received) && sent == old(sent)
      ensures ok <==> old(pending).Some?
      ensures dropped == old(dropped) + if ok then 1 else 0
    {
      ok := pending.Some?;
      if ok {
        pending, dropped := None, dropped + 1;
      }
    }

    /**
     The three selects, with the consumer free to receive before each of them and after the last.
     The last send always succeeds, so the value is sent exactly once and ends pending or received.
     */
    method OfferLatest(value: T, early: bool, between: bool, late: bool, after: bool) returns (replaced: bool)
      requires Conserves()
      modifies this
      ensures Conserves() && Has(value) && sent == old(sent) + [value]
      ensures dropped == old(dropped) + if replaced then 1 else 0
      ensures replaced <==> old(pending).Some? && !early && !between
      ensures old(received) <= received
    {
      Receive(early);
      var ok := TrySend(value);
      if ok {
        Receive(after);
        return false;
      }
      Receive(between);
      replaced := TryDrain();
      Receive(late);
      ok := TrySend(value);
      assert ok;
      Receive(after);
    }
  }
}
