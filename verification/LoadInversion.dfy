/**
 What the load floor does not give. A load is certain to keep an anchor only if a quorum already
 holds it; a value that a load merely saw at a minority may be missing from the next load.
 */
module LoadInversion {

  import opened Anchors
  import opened Permutations
  import opened QuorumStore
  import opened QuorumRuns

  /** Replies with a greatest element are answered with it. */
  lemma TopIsSelected(replies: seq<Value>, quorum: nat, top: Value)
    requires 1 <= quorum <= |replies| && top in replies && (top.present || top == ABSENT)
    requires forall i | 0 <= i < |replies| :: Covers(top, replies[i])
    ensures Selects(replies, quorum, Ready(top))
  {
    assert CoveredBy(replies, top) == Below(|replies|);
    if top.present {
      assert Qualified(replies, quorum, top);
      assert Selectable(replies, quorum, top);
    } else {
      assert AbsentAmong(replies, |replies|) == Below(|replies|);
    }
  }

  /** Everything every member holds. */
  ghost function Everything(registers: seq<Value>): map<nat, Value> {
    map m: nat | m < |registers| :: registers[m]
  }

  /** The members are pairwise ordered, and an empty member is plainly empty. */
  ghost predicate Chain(registers: seq<Value>, members: set<nat>) {
    && (forall m | m in members :: m < |registers| && (registers[m].present || registers[m] == ABSENT))
    && (forall m, k | m in members && k in members ::
          Covers(registers[m], registers[k]) || Covers(registers[k], registers[m]))
  }

  /** The members in some order. */
  lemma {:induction false} Enumerate(members: set<nat>) returns (order: seq<nat>)
    ensures |order| == |members|
    ensures forall m :: m in order <==> m in members
    ensures forall i, j | 0 <= i < j < |order| :: order[i] != order[j]
  {
    order := [];
    if members == {} {
    } else {
      var m :| m in members;
      order := Enumerate(members - {m});
      order := order + [m];
    }
  }

  lemma {:induction false} ChainHasTop(registers: seq<Value>, members: set<nat>) returns (top: nat)
    requires Chain(registers, members) && members != {}
    ensures top in members && forall m | m in members :: Covers(registers[top], registers[m])
  {
    var first :| first in members;
    var rest := members - {first};
    assert members == rest + {first};
    if rest == {} {
      return first;
    }
    var best := ChainHasTop(registers, rest);
    if Covers(registers[best], registers[first]) {
      return best;
    }
    forall m | m in rest ensures Covers(registers[first], registers[m]) {
      CoversTransitive(registers[m], registers[best], registers[first]);
    }
    top := first;
  }

  /** A load may return this value when it reads these registers while nothing else happens. */
  ghost predicate MayLoad(registers: seq<Value>, order: seq<nat>, v: Value) {
    && Arrived(Everything(registers), order)
    && Selects(Replies(Everything(registers), order), Quorum(|registers|), Ready(v))
  }

  /** An empty register is plainly empty. */
  ghost predicate Canonical(registers: seq<Value>) {
    forall m | 0 <= m < |registers| :: registers[m].present || registers[m] == ABSENT
  }

  /** In every run of the store that is so. */
  lemma {:induction false} RegistersAreCanonical(states: seq<State>, actions: seq<Action>, k: nat)
    requires IsRun(states, actions) && k < |states|
    ensures Canonical(states[k].registers)
  {
    if k == 0 {
    } else {
      RegistersAreCanonical(states, actions, k - 1);
      RunInv(states, actions, k - 1);
      assert Next(states[k - 1], actions[k - 1], states[k]);
      if actions[k - 1].Accept? {
        var w := actions[k - 1].writer;
        assert GoodWriter(states[k - 1].registers, states[k - 1].writers[w]);
      }
    }
  }

  /** A value that some member holds and that keeps everything of a quorum of members. */
  ghost predicate Loadable(registers: seq<Value>, v: Value) {
    v in registers && |CoveredBy(registers, v)| >= Quorum(|registers|)
  }

  /** A load may hear from exactly the members that a loadable value keeps everything of. */
  lemma LoadableMayBeLoaded(registers: seq<Value>, v: Value) returns (order: seq<nat>)
    requires Canonical(registers) && Loadable(registers, v)
    ensures MayLoad(registers, order, v)
  {
    var members := CoveredBy(registers, v);
    order := Enumerate(members);
    assert forall i | 0 <= i < |order| :: order[i] in order;
    var replies := Replies(Everything(registers), order);
    var m :| 0 <= m < |registers| && registers[m] == v;
    assert m in members;
    var i :| 0 <= i < |order| && order[i] == m;
    assert replies[i] == v;
    TopIsSelected(replies, Quorum(|registers|), v);
  }

  /** Whatever replies a load gets and in whatever order, the value it returns is loadable. */
  lemma LoadedIsLoadable(registers: seq<Value>, order: seq<nat>, v: Value)
    requires Canonical(registers) && MayLoad(registers, order, v)
    ensures Loadable(registers, v)
  {
    var replies, n := Replies(Everything(registers), order), |registers|;
    SelectedCoversQuorum(replies, Quorum(n), v);
    var support := ImageSize(CoveredBy(replies, v), order);
    assert support <= CoveredBy(registers, v);
    SubsetSize(support, CoveredBy(registers, v));
    SelectedIsReply(replies, Quorum(n), v);
    var i :| 0 <= i < |replies| && !Differs(replies[i], v);
    assert registers[order[i]] == v;
  }

  predicate Differs(a: Value, b: Value) { if a.present || b.present then a != b else false }

  /** What is selected is one of the replies, or the absence that one of them reports. */
  lemma SelectedIsReply(replies: seq<Value>, quorum: nat, v: Value)
    requires 1 <= quorum && Selects(replies, quorum, Ready(v))
    ensures v.present || v == ABSENT
    ensures exists i :: 0 <= i < |replies| && !Differs(replies[i], v)
  {
    if v == ABSENT {
      var i :| i in AbsentAmong(replies, |replies|);
      assert !Differs(replies[i], v);
    } else {
      var i :| 0 <= i < |replies| && replies[i] == v;
      assert !Differs(replies[i], v);
    }
  }

  /**
   Exactly which anchors a load that runs alone is certain to keep, for any number of members and any
   registers, crossed or not: those that every loadable value keeps.
   */
  lemma CertainIffLoadableKeep(registers: seq<Value>, a: Value)
    requires Canonical(registers)
    ensures (forall order, v | MayLoad(registers, order, v) :: Covers(v, a))
       <==> (forall v | Loadable(registers, v) :: Covers(v, a))
  {
    forall v | Loadable(registers, v) ensures exists order :: MayLoad(registers, order, v) {
      var order := LoadableMayBeLoaded(registers, v);
    }
    forall order, v | MayLoad(registers, order, v) ensures Loadable(registers, v) {
      LoadedIsLoadable(registers, order, v);
    }
  }

  /** If no quorum holds `a` and the other members are ordered, the highest of them is loadable and misses `a`. */
  lemma UnheldMayBeMissed(registers: seq<Value>, a: Value) returns (v: Value)
    requires |registers| % 2 == 1 && !Held(registers, a)
    requires Chain(registers, Below(|registers|) - Holders(registers, a))
    ensures Loadable(registers, v) && !Covers(v, a)
  {
    var n, others := |registers|, Below(|registers|) - Holders(registers, a);
    assert Holders(registers, a) <= Below(n);
    assert |others| == n - |Holders(registers, a)| >= Quorum(n);
    var top := ChainHasTop(registers, others);
    v := registers[top];
    assert others <= CoveredBy(registers, v);
    SubsetSize(others, CoveredBy(registers, v));
    assert top !in Holders(registers, a);
  }

  /** On ordered registers of an odd number of members these are the anchors held by a quorum. */
  lemma CertainIffHeld(registers: seq<Value>, a: Value)
    requires |registers| % 2 == 1 && Chain(registers, Below(|registers|))
    ensures Held(registers, a) <==> forall order, v | MayLoad(registers, order, v) :: Covers(v, a)
  {
    assert Canonical(registers) by {
      assert forall m | 0 <= m < |registers| :: m in Below(|registers|);
    }
    CertainIffLoadableKeep(registers, a);
    if Held(registers, a) {
      forall order, v | MayLoad(registers, order, v) ensures Covers(v, a) {
        LoadCoversHeld(registers, Everything(registers), order, v, a);
      }
    } else {
      var v := UnheldMayBeMissed(registers, a);
    }
  }

  /**
   On crossed registers a load may be certain to keep an anchor that no quorum holds: it then fails
   instead of missing it.
   */
  lemma CrossedRegistersLoadNothing(a: Value, b: Value, c: Value)
    requires a.present && b.present && c.present
    requires forall x, y | x in [a, b, c] && y in [a, b, c] && x != y :: !Covers(x, y)
    requires a != b && b != c && a != c
    ensures !Held([a, b, c], a) && forall order, v :: !MayLoad([a, b, c], order, v)
  {
    var registers := [a, b, c];
    assert Holders(registers, a) == {0};
    forall v ensures !Loadable(registers, v) {
      if v in registers {
        var m: nat :| m < 3 && registers[m] == v;
        assert CoveredBy(registers, v) == {m};
      }
    }
    forall order, v | MayLoad(registers, order, v) ensures Loadable(registers, v) {
      LoadedIsLoadable(registers, order, v);
    }
  }

  // ---------------------------------------------------------------------------------------
  // A run in which loads go back.
  // ---------------------------------------------------------------------------------------

  lemma Then(states0: seq<State>, actions0: seq<Action>, a: Action, s: State)
    returns (states: seq<State>, actions: seq<Action>)
    requires IsRun(states0, actions0) && Next(states0[|actions0|], a, s)
    ensures IsRun(states, actions) && states[|actions|] == s
    ensures states == states0 + [s] && actions == actions0 + [a]
  {
    states, actions := states0 + [s], actions0 + [a];
    forall k | 0 <= k < |actions| ensures Next(states[k], actions[k], states[k + 1]) {
      if k < |actions0| {
        assert states[k] == states0[k] && states[k + 1] == states0[k + 1] && actions[k] == actions0[k];
      }
    }
  }

  predicate Storable(a: Value) { a.present && a.databaseID != ZERO_ID && a.generation != 0 }

  /** Three members accept `low`, which is acknowledged. */
  lemma AllAccept(low: Value) returns (states: seq<State>, actions: seq<Action>)
    requires Storable(low)
    ensures IsRun(states, actions) && |actions| == 5 && actions[0] == BeginAdvance(0, low)
            && actions[4] == Acknowledge(0)
    ensures states[5].registers == [low, low, low] && states[5].loaders == map[] && states[5].writers.Keys == {0}
  {
    var none := [ABSENT, ABSENT, ABSENT];
    var s := State(none, map[], map[]);
    states, actions := [s], [];
    s := s.(writers := map[0 := Writer(low, none, {}, false)]);
    states, actions := Then(states, actions, BeginAdvance(0, low), s);
    for m := 0 to 3
      invariant IsRun(states, actions) && states[|actions|] == s && s.loaders == map[]
      invariant s.writers.Keys == {0} && s.writers[0].anchor == low
      invariant |s.registers| == 3 && |actions| == m + 1 && actions[0] == BeginAdvance(0, low)
      invariant |s.writers[0].accepted| == m && forall k | k in s.writers[0].accepted :: k < m
      invariant forall k | 0 <= k < 3 :: s.registers[k] == if k < m then low else ABSENT
    {
      s := s.(registers := s.registers[m := low],
              writers := s.writers[0 := s.writers[0].(accepted := s.writers[0].accepted + {m})]);
      states, actions := Then(states, actions, Accept(0, m), s);
    }
    s := s.(writers := s.writers[0 := s.writers[0].(acknowledged := true)]);
    states, actions := Then(states, actions, Acknowledge(0), s);
  }

  /** Three members hold `low`; then one member accepts `high`. */
  lemma MinorityAccepts(low: Value, high: Value) returns (states: seq<State>, actions: seq<Action>)
    requires Storable(low) && Storable(high) && BeforeOrEqual(low, high)
    ensures IsRun(states, actions)
    ensures states[|actions|].registers == [high, low, low] && states[|actions|].loaders == map[]
    ensures |actions| == 7 && actions[0] == BeginAdvance(0, low) && actions[4] == Acknowledge(0)
            && actions[5] == BeginAdvance(1, high)
  {
    states, actions := AllAccept(low);
    var s := states[5];
    s := s.(writers := s.writers[1 := Writer(high, s.registers, {}, false)]);
    states, actions := Then(states, actions, BeginAdvance(1, high), s);
    s := s.(registers := s.registers[0 := high],
            writers := s.writers[1 := s.writers[1].(accepted := s.writers[1].accepted + {0})]);
    states, actions := Then(states, actions, Accept(1, 0), s);
  }

  lemma ReturnsFirst(s: State, l: nat, m: nat, k: nat, s': State)
    requires l in s.loaders && |s.registers| == 3 && m != k && s.loaders[l].results == {}
    requires var o := s.loaders[l].observed; m in o && k in o && o[m].present && Covers(o[m], o[k])
    requires s' == s.(loaders := s.loaders[l := s.loaders[l].(results := {s.loaders[l].observed[m]})])
    ensures Returns(s, l, [m, k], s.loaders[l].observed[m], s')
  {
    var o := s.loaders[l].observed;
    var replies := Replies(o, [m, k]);
    assert replies == [o[m], o[k]];
    TopIsSelected(replies, 2, o[m]);
    assert {} + {o[m]} == {o[m]};
  }

  /** A whole load that reads two of three members and returns the value of the first. */
  lemma LoadsTwo(states0: seq<State>, actions0: seq<Action>, l: nat, m: nat, k: nat)
    returns (states: seq<State>, actions: seq<Action>)
    requires IsRun(states0, actions0) && l !in states0[|actions0|].loaders
    requires var r := states0[|actions0|].registers;
             |r| == 3 && m < 3 && k < 3 && m != k && r[m].present && Covers(r[m], r[k])
    ensures IsRun(states, actions) && |actions| == |actions0| + 4
    ensures states[..|states0|] == states0 && actions[..|actions0|] == actions0
    ensures actions[|actions0|] == BeginLoad(l)
    ensures actions[|actions0| + 3] == Return(l, [m, k], states0[|actions0|].registers[m])
    ensures states[|actions|].registers == states0[|actions0|].registers
    ensures states[|actions|].loaders.Keys == states0[|actions0|].loaders.Keys + {l}
    ensures states[|actions|].loaders[l].results == {states0[|actions0|].registers[m]}
    ensures forall x | x in states0[|actions0|].loaders ::
              states[|actions|].loaders[x] == states0[|actions0|].loaders[x]
  {
    var s := states0[|actions0|];
    var r := s.registers;
    var s1 := s.(loaders := s.loaders[l := Loader(r, map[], {})]);
    states, actions := Then(states0, actions0, BeginLoad(l), s1);
    var s2 := s1.(loaders := s1.loaders[l := Loader(r, map[m := r[m]], {})]);
    states, actions := Then(states, actions, Observe(l, m), s2);
    var s3 := s2.(loaders := s2.loaders[l := Loader(r, map[m := r[m], k := r[k]], {})]);
    states, actions := Then(states, actions, Observe(l, k), s3);
    var s4 := s3.(loaders := s3.loaders[l := Loader(r, map[m := r[m], k := r[k]], {r[m]})]);
    assert Returns(s3, l, [m, k], r[m], s4) by {
      ReturnsFirst(s3, l, m, k, s4);
    }
    states, actions := Then(states, actions, Return(l, [m, k], r[m]), s4);
  }

  /**
   For any two anchors of one database, some run of three members acknowledges the lower one and has two
   loads, the second beginning after the first has returned, of which the first returns the higher
   anchor and the second the lower.
   */
  lemma LoadsMayGoBack(low: Value, high: Value) returns (states: seq<State>, actions: seq<Action>)
    requires Storable(low) && Storable(high) && BeforeOrEqual(low, high)
    ensures IsRun(states, actions) && |actions| == 15
    ensures actions[0] == BeginAdvance(0, low) && actions[4] == Acknowledge(0) && actions[5] == BeginAdvance(1, high)
    ensures actions[7] == BeginLoad(0) && actions[10] == Return(0, [0, 1], high)
    ensures actions[11] == BeginLoad(1) && actions[14] == Return(1, [1, 2], low)
  {
    states, actions := MinorityAccepts(low, high);
    var first := actions;
    states, actions := LoadsTwo(states, actions, 0, 0, 1);
    var second := actions;
    assert forall k | 0 <= k < 7 :: second[k] == second[..7][k] == first[k];
    states, actions := LoadsTwo(states, actions, 1, 1, 2);
    assert forall k | 0 <= k < 11 :: actions[k] == actions[..11][k] == second[k];
  }
}
