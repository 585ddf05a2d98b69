/**
 What the number of explored states counts: the root and every placement that the search follows, no
 placement twice; all that can be reached if there is no linearization, and one path to the end if
 there is.
 */
module SearchCount {

  import opened Anchors
  import opened AnchorHistory
  import opened HistorySearch
  import opened LinearizabilityCheck
  import opened Permutations

  /** A placement: in this state this move is made. */
  datatype Edge = Edge(from: Key, move: Move)

  ghost predicate IsEdge(ops: seq<Operation>, e: Edge) { Allowed(ops, e.from.placed, e.from.value, e.move) }

  function Target(e: Edge): Key { Key(e.from.placed + {e.move.index}, e.move.next) }

  // ---------------------------------------------------------------------------------------
  // Walks.
  // ---------------------------------------------------------------------------------------

  predicate Within(root: Key, key: Key) { key == root || root.placed < key.placed }

  /** The state of this placement is the root or was reached by an earlier placement. */
  ghost predicate Connected(root: Key, v: seq<Edge>, k: nat)
    requires k < |v|
  {
    v[k].from == root || exists j :: 0 <= j < k && Target(v[j]) == v[k].from
  }

  /** Placements in the order in which they are followed: each allowed, none twice, none from a dead state. */
  ghost predicate Walk(ops: seq<Operation>, root: Key, dead: set<Key>, v: seq<Edge>) {
    var holds :=
      && (forall k | 0 <= k < |v| :: IsEdge(ops, v[k]) && v[k].from !in dead && Within(root, v[k].from))
      && (forall j, k | 0 <= j < k < |v| :: v[j] != v[k])
      && (forall k {:trigger Connected(root, v, k)} | 0 <= k < |v| :: Connected(root, v, k));
    holds
  }

  ghost predicate Own(root: Key, v: seq<Edge>, own: iset<Move>) {
    var holds := forall k | 0 <= k < |v| && v[k].from == root :: v[k].move in own;
    holds
  }

  /** Every move from this state was followed and led to a dead state. */
  ghost predicate Spent(ops: seq<Operation>, dead: set<Key>, v: seq<Edge>, key: Key, own: iset<Move>) {
    forall m | Allowed(ops, key.placed, key.value, m) && m in own :: Edge(key, m) in v && Target(Edge(key, m)) in dead
  }

  ghost const EVERY: iset<Move> := iset m: Move | true

  /** What became dead did so because everything from it was followed. */
  ghost predicate Burnt(ops: seq<Operation>, root: Key, dead: set<Key>, dead': set<Key>, v: seq<Edge>) {
    var holds :=
      && dead <= dead'
      && (forall key | key in dead' && key !in dead :: root.placed < key.placed && Spent(ops, dead', v, key, EVERY))
      && (forall k | 0 <= k < |v| :: v[k].from == root || v[k].from in dead');
    holds
  }

  ghost predicate Ends(ops: seq<Operation>, root: Key, v: seq<Edge>) {
    AllPlaced(ops, (if v == [] then root else Target(v[|v| - 1])).placed)
  }

  /** A loop that tries these moves from a state. */
  ghost predicate Tried(ops: seq<Operation>, root: Key, dead: set<Key>, dead': set<Key>, ok: bool, v: seq<Edge>,
                        own: iset<Move>)
  {
    var holds :=
      && Walk(ops, root, dead, v) && Own(root, v, own)
      && (ok ==> v != [] && Ends(ops, root, v))
      && (!ok ==> Burnt(ops, root, dead, dead', v) && Spent(ops, dead', v, root, own));
    holds
  }

  /** A call of the search on a state. */
  ghost predicate Explored(ops: seq<Operation>, root: Key, dead: set<Key>, dead': set<Key>, ok: bool, v: seq<Edge>) {
    var holds :=
      && Walk(ops, root, dead, v) && (ok ==> Ends(ops, root, v))
      && (!ok ==>
            && dead <= dead' && root in dead'
            && (forall key | key in dead' && key !in dead :: Within(root, key) && Spent(ops, dead', v, key, EVERY))
            && (forall k | 0 <= k < |v| :: v[k].from in dead'));
    holds
  }

  // ---------------------------------------------------------------------------------------
  // Putting walks together.
  // ---------------------------------------------------------------------------------------

  lemma ConnectedJoins(root: Key, v: seq<Edge>, w: seq<Edge>)
    requires forall k | 0 <= k < |v| :: Connected(root, v, k)
    requires forall k | 0 <= k < |w| :: Connected(root, w, k)
    ensures forall k | 0 <= k < |v + w| :: Connected(root, v + w, k)
  {
    var u := v + w;
    forall k | 0 <= k < |u| ensures Connected(root, u, k) {
      if k < |v| {
        assert Connected(root, v, k);
        if v[k].from != root {
          var j :| 0 <= j < k && Target(v[j]) == v[k].from;
          assert u[j] == v[j];
        }
      } else {
        assert Connected(root, w, k - |v|);
        if w[k - |v|].from != root {
          var j :| 0 <= j < k - |v| && Target(w[j]) == w[k - |v|].from;
          assert u[|v| + j] == w[j];
        }
      }
    }
  }

  lemma ConnectedBelow(e: Edge, v: seq<Edge>)
    requires forall k | 0 <= k < |v| :: Connected(Target(e), v, k)
    ensures forall k | 0 <= k < |[e] + v| :: Connected(e.from, [e] + v, k)
  {
    var u := [e] + v;
    forall k | 0 <= k < |u| ensures Connected(e.from, u, k) {
      if k > 0 {
        assert Connected(Target(e), v, k - 1);
        if v[k - 1].from == Target(e) {
          assert u[0] == e;
        } else {
          var j :| 0 <= j < k - 1 && Target(v[j]) == v[k - 1].from;
          assert u[j + 1] == v[j];
        }
      }
    }
  }

  lemma SpentMore(ops: seq<Operation>, dead: set<Key>, dead': set<Key>, v: seq<Edge>, v': seq<Edge>, key: Key,
                  own: iset<Move>)
    requires Spent(ops, dead, v, key, own) && dead <= dead' && forall e | e in v :: e in v'
    ensures Spent(ops, dead', v', key, own)
  {
  }

  /** One placement and what the call on its target followed. */
  lemma EdgeWalks(ops: seq<Operation>, e: Edge, dead: set<Key>, v: seq<Edge>)
    requires IsEdge(ops, e) && e.from !in dead && Walk(ops, Target(e), dead, v)
    ensures Walk(ops, e.from, dead, [e] + v) && Own(e.from, [e] + v, iset{e.move})
  {
    ConnectedBelow(e, v);
    assert e.move.index !in e.from.placed;
    forall k | 0 <= k < |v| ensures e.from.placed < v[k].from.placed {
      assert Within(Target(e), v[k].from);
      assert e.from.placed < Target(e).placed;
    }
  }

  lemma EdgeBurns(ops: seq<Operation>, e: Edge, dead: set<Key>, dead': set<Key>, v: seq<Edge>)
    requires IsEdge(ops, e) && Explored(ops, Target(e), dead, dead', false, v)
    ensures Burnt(ops, e.from, dead, dead', [e] + v) && Spent(ops, dead', [e] + v, e.from, iset{e.move})
  {
    assert e.move.index !in e.from.placed && e.from.placed < Target(e).placed;
    var u := [e] + v;
    assert forall x | x in v :: x in u;
    forall key | key in dead' && key !in dead ensures e.from.placed < key.placed && Spent(ops, dead', u, key, EVERY) {
      SpentMore(ops, dead', dead', v, u, key, EVERY);
    }
    assert u[0] == e;
  }

  lemma EdgeTried(ops: seq<Operation>, e: Edge, dead: set<Key>, dead': set<Key>, ok: bool, v: seq<Edge>)
    requires IsEdge(ops, e) && e.from !in dead && Explored(ops, Target(e), dead, dead', ok, v)
    ensures Tried(ops, e.from, dead, dead', ok, [e] + v, iset{e.move})
  {
    EdgeWalks(ops, e, dead, v);
    if ok {
      assert v != [] ==> ([e] + v)[|v|] == v[|v| - 1];
    } else {
      EdgeBurns(ops, e, dead, dead', v);
    }
  }

  lemma WalksJoin(ops: seq<Operation>, root: Key, dead: set<Key>, dead': set<Key>, v: seq<Edge>, w: seq<Edge>,
                  own: iset<Move>, own': iset<Move>)
    requires Walk(ops, root, dead, v) && Own(root, v, own) && Burnt(ops, root, dead, dead', v)
    requires Walk(ops, root, dead', w) && Own(root, w, own') && own !! own'
    ensures Walk(ops, root, dead, v + w) && Own(root, v + w, own + own')
  {
    ConnectedJoins(root, v, w);
    forall j, k | 0 <= j < |v| && 0 <= k < |w| ensures v[j] != w[k] {
      if v[j].from == root == w[k].from {
        assert v[j].move in own && w[k].move in own';
      }
    }
  }

  lemma BurnsJoin(ops: seq<Operation>, root: Key, dead: set<Key>, dead1: set<Key>, dead2: set<Key>, v: seq<Edge>,
                  w: seq<Edge>, own: iset<Move>, own': iset<Move>)
    requires Burnt(ops, root, dead, dead1, v) && Spent(ops, dead1, v, root, own)
    requires Burnt(ops, root, dead1, dead2, w) && Spent(ops, dead2, w, root, own')
    ensures Burnt(ops, root, dead, dead2, v + w) && Spent(ops, dead2, v + w, root, own + own')
  {
    var u := v + w;
    assert (forall e | e in v :: e in u) && (forall e | e in w :: e in u);
    forall key | key in dead2 && key !in dead ensures root.placed < key.placed && Spent(ops, dead2, u, key, EVERY) {
      if key in dead1 {
        SpentMore(ops, dead1, dead2, v, u, key, EVERY);
      } else {
        SpentMore(ops, dead2, dead2, w, u, key, EVERY);
      }
    }
    SpentMore(ops, dead1, dead2, v, u, root, own);
    SpentMore(ops, dead2, dead2, w, u, root, own');
  }

  lemma TriedJoin(ops: seq<Operation>, root: Key, dead: set<Key>, dead1: set<Key>, dead2: set<Key>, ok: bool,
                  v: seq<Edge>, w: seq<Edge>, own: iset<Move>, own': iset<Move>)
    requires Tried(ops, root, dead, dead1, false, v, own) && Tried(ops, root, dead1, dead2, ok, w, own') && own !! own'
    ensures Tried(ops, root, dead, dead2, ok, v + w, own + own')
  {
    WalksJoin(ops, root, dead, dead1, v, w, own, own');
    if ok {
      assert (v + w)[|v + w| - 1] == w[|w| - 1];
    } else {
      BurnsJoin(ops, root, dead, dead1, dead2, v, w, own, own');
    }
  }

  lemma NothingTried(ops: seq<Operation>, root: Key, dead: set<Key>, own: iset<Move>)
    requires forall m | m in own :: !Allowed(ops, root.placed, root.value, m)
    ensures Tried(ops, root, dead, dead, false, [], own)
  {
  }

  lemma SameMoves(ops: seq<Operation>, root: Key, dead: set<Key>, dead': set<Key>, ok: bool, v: seq<Edge>,
                  own: iset<Move>, own': iset<Move>)
    requires Tried(ops, root, dead, dead', ok, v, own)
    requires forall m | Allowed(ops, root.placed, root.value, m) :: m in own <==> m in own'
    ensures Tried(ops, root, dead, dead', ok, v, own')
  {
  }

  /** A state from which everything was tried in vain is dead afterwards. */
  lemma TriedExplores(ops: seq<Operation>, root: Key, dead: set<Key>, dead': set<Key>, ok: bool, v: seq<Edge>)
    requires Tried(ops, root, dead, dead', ok, v, EVERY)
    ensures Explored(ops, root, dead, if ok then dead' else dead' + {root}, ok, v)
  {
    if !ok {
      var dead2 := dead' + {root};
      forall key | key in dead2 && key !in dead ensures Within(root, key) && Spent(ops, dead2, v, key, EVERY) {
        SpentMore(ops, dead', dead2, v, v, key, EVERY);
      }
    }
  }

  // ---------------------------------------------------------------------------------------
  // The search follows a walk.
  // ---------------------------------------------------------------------------------------

  lemma {:induction false} ExploringWalks(ops: seq<Operation>, placed: set<nat>, value: Value, memo: Memo, left: nat)
    returns (v: seq<Edge>)
    requires Remaining(ops, placed, left)
    ensures var r := Exploring(ops, placed, value, memo, left);
            && r.memo.explored == memo.explored + 1 + |v|
            && Explored(ops, Key(placed, value), memo.dead, r.memo.dead, r.ok, v)
    decreases left, 2, 0
  {
    var m, root := memo.(explored := memo.explored + 1), Key(placed, value);
    if left == 0 {
      v := [];
      SubsetSize(placed, Below(|ops|));
    } else if root in memo.dead {
      v := [];
    } else {
      v := TryingWalks(ops, placed, value, m, left, 0);
      var r := TryingFrom(ops, placed, value, m, left, 0);
      SameMoves(ops, root, memo.dead, r.memo.dead, r.ok, v, From(0), EVERY);
      TriedExplores(ops, root, memo.dead, r.memo.dead, r.ok, v);
    }
  }

  ghost function From(index: nat): iset<Move> { iset m: Move | m.index >= index }

  ghost function At(index: nat): iset<Move> { iset m: Move | m.index == index }

  lemma {:induction false} TryingWalks(ops: seq<Operation>, placed: set<nat>, value: Value, memo: Memo, left: nat,
                                       index: nat)
    returns (v: seq<Edge>)
    requires Remaining(ops, placed, left) && left > 0 && index <= |ops| && Key(placed, value) !in memo.dead
    ensures var r := TryingFrom(ops, placed, value, memo, left, index);
            && r.memo.explored == memo.explored + |v|
            && Tried(ops, Key(placed, value), memo.dead, r.memo.dead, r.ok, v, From(index))
    decreases left, 1, |ops| - index
  {
    var root := Key(placed, value);
    if index == |ops| {
      v := [];
      NothingTried(ops, root, memo.dead, From(index));
    } else if !Enabled(ops, placed, index) {
      v := TryingWalks(ops, placed, value, memo, left, index + 1);
      var r := TryingFrom(ops, placed, value, memo, left, index + 1);
      SameMoves(ops, root, memo.dead, r.memo.dead, r.ok, v, From(index + 1), From(index));
    } else {
      v := TryingEnabledWalks(ops, placed, value, memo, left, index);
    }
  }

  lemma {:induction false} TryingEnabledWalks(ops: seq<Operation>, placed: set<nat>, value: Value, memo: Memo,
                                              left: nat,
                                              index: nat)
    returns (v: seq<Edge>)
    requires Remaining(ops, placed, left) && left > 0 && Enabled(ops, placed, index) && Key(placed, value) !in memo.dead
    ensures var r := TryingFrom(ops, placed, value, memo, left, index);
            && r.memo.explored == memo.explored + |v|
            && Tried(ops, Key(placed, value), memo.dead, r.memo.dead, r.ok, v, From(index))
    decreases left, 1, |ops| - index, 0
  {
    var root, ts := Key(placed, value), InOrder(value, ops[index]);
    InOrderLists(value, ops[index]);
    v := TryingOneWalks(ops, placed, value, memo, left, index, ts, 0);
    var r := TryingOne(ops, placed, memo, left, index, ts, 0);
    if r.ok {
      OwnMore(ops, root, memo.dead, r.memo.dead, v, OneFrom(index, ts, 0), From(index));
    } else {
      SameMoves(ops, root, memo.dead, r.memo.dead, false, v, OneFrom(index, ts, 0), At(index));
      StaysAlive(ops, root, memo.dead, r.memo.dead, v, At(index));
      var w := TryingWalks(ops, placed, value, r.memo, left, index + 1);
      var r' := TryingFrom(ops, placed, value, r.memo, left, index + 1);
      TriedJoin(ops, root, memo.dead, r.memo.dead, r'.memo.dead, r'.ok, v, w, At(index), From(index + 1));
      assert At(index) + From(index + 1) == From(index);
      v := v + w;
    }
  }

  lemma OwnMore(ops: seq<Operation>, root: Key, dead: set<Key>, dead': set<Key>, v: seq<Edge>, own: iset<Move>,
                own': iset<Move>)
    requires Tried(ops, root, dead, dead', true, v, own) && own <= own'
    ensures Tried(ops, root, dead, dead', true, v, own')
  {
  }

  lemma StaysAlive(ops: seq<Operation>, root: Key, dead: set<Key>, dead': set<Key>, v: seq<Edge>, own: iset<Move>)
    requires Tried(ops, root, dead, dead', false, v, own) && root !in dead
    ensures root !in dead'
  {
  }

  ghost function OneFrom(index: nat, ts: seq<Transition>, t: nat): iset<Move> {
    iset m: Move | m.index == index && exists u :: t <= u < |ts| && ts[u].value == m.next
  }

  lemma OneMore(index: nat, ts: seq<Transition>, t: nat)
    requires t < |ts| && forall k, l | 0 <= k < l < |ts| :: ts[k].value != ts[l].value
    ensures OneFrom(index, ts, t) == iset{Move(index, ts[t].value)} + OneFrom(index, ts, t + 1)
    ensures iset{Move(index, ts[t].value)} !! OneFrom(index, ts, t + 1)
  {
    forall m: Move
      ensures m in OneFrom(index, ts, t) <==> m == Move(index, ts[t].value) || m in OneFrom(index, ts, t + 1)
    {
    }
  }

  lemma {:induction false} TryingOneWalks(ops: seq<Operation>, placed: set<nat>, value: Value, memo: Memo, left: nat,
                                          index: nat, ts: seq<Transition>, t: nat)
    returns (v: seq<Edge>)
    requires Remaining(ops, placed, left) && left > 0 && t <= |ts| && Key(placed, value) !in memo.dead
    requires Enabled(ops, placed, index) && ListsTransitions(value, ops[index], ts)
    ensures var r := TryingOne(ops, placed, memo, left, index, ts, t);
            && r.memo.explored == memo.explored + |v|
            && Tried(ops, Key(placed, value), memo.dead, r.memo.dead, r.ok, v, OneFrom(index, ts, t))
    decreases left, 0, |ts| - t
  {
    var root := Key(placed, value);
    if t == |ts| {
      v := [];
      NothingTried(ops, root, memo.dead, OneFrom(index, ts, t));
    } else {
      var m := Move(index, ts[t].value);
      v := MoveWalks(ops, placed, value, memo, left, m);
      var r := Exploring(ops, placed + {index}, ts[t].value, memo, left - 1);
      OneMore(index, ts, t);
      if r.ok {
        OwnMore(ops, root, memo.dead, r.memo.dead, v, iset{m}, OneFrom(index, ts, t));
      } else {
        StaysAlive(ops, root, memo.dead, r.memo.dead, v, iset{m});
        var w := TryingOneWalks(ops, placed, value, r.memo, left, index, ts, t + 1);
        var r' := TryingOne(ops, placed, r.memo, left, index, ts, t + 1);
        TriedJoin(ops, root, memo.dead, r.memo.dead, r'.memo.dead, r'.ok, v, w, iset{m}, OneFrom(index, ts, t + 1));
        v := v + w;
      }
    }
  }

  lemma OnePlaced(ops: seq<Operation>, placed: set<nat>, left: nat, index: nat)
    requires Remaining(ops, placed, left) && left > 0 && Enabled(ops, placed, index)
    ensures Remaining(ops, placed + {index}, left - 1)
  {
  }

  lemma {:induction false} MoveWalks(ops: seq<Operation>, placed: set<nat>, value: Value, memo: Memo, left: nat,
                                     m: Move)
    returns (v: seq<Edge>)
    requires Remaining(ops, placed, left) && left > 0 && Key(placed, value) !in memo.dead
    requires Allowed(ops, placed, value, m)
    ensures var r := Exploring(ops, placed + {m.index}, m.next, memo, left - 1);
            && r.memo.explored == memo.explored + |v|
            && Tried(ops, Key(placed, value), memo.dead, r.memo.dead, r.ok, v, iset{m})
    decreases left, 0, 0
  {
    var e := Edge(Key(placed, value), m);
    OnePlaced(ops, placed, left, m.index);
    v := ExploringWalks(ops, placed + {m.index}, m.next, memo, left - 1);
    var r := Exploring(ops, placed + {m.index}, m.next, memo, left - 1);
    EdgeTried(ops, e, memo.dead, r.memo.dead, r.ok, v);
    v := [e] + v;
  }

  // ---------------------------------------------------------------------------------------
  // The number of explored states.
  // ---------------------------------------------------------------------------------------

  function Root(h: History): Key { Key({}, h.initial) }

  /** The state that these moves lead to, one after the other. */
  ghost predicate Leads(ops: seq<Operation>, root: Key, moves: seq<Move>, key: Key) {
    if moves == [] then key == root
    else
      var last := moves[|moves| - 1];
      exists p ::
        Leads(ops, root, moves[..|moves| - 1], p) && IsEdge(ops, Edge(p, last)) && key == Target(Edge(p, last))
  }

  ghost predicate Reachable(ops: seq<Operation>, root: Key, key: Key) { exists moves :: Leads(ops, root, moves, key) }

  lemma {:induction false} DeadIsClosed(ops: seq<Operation>, root: Key, dead: set<Key>, v: seq<Edge>, moves: seq<Move>,
                                        key: Key)
    requires Explored(ops, root, {}, dead, false, v) && Leads(ops, root, moves, key)
    ensures key in dead
    decreases |moves|
  {
    if moves == [] {
    } else {
      var front, last := moves[..|moves| - 1], moves[|moves| - 1];
      var p :| Leads(ops, root, front, p) && IsEdge(ops, Edge(p, last)) && key == Target(Edge(p, last));
      DeadIsClosed(ops, root, dead, v, front, p);
      assert Spent(ops, dead, v, p, EVERY);
    }
  }

  lemma LeadsOn(ops: seq<Operation>, root: Key, e: Edge)
    requires Reachable(ops, root, e.from) && IsEdge(ops, e)
    ensures Reachable(ops, root, Target(e))
  {
    var moves :| Leads(ops, root, moves, e.from);
    var longer := moves + [e.move];
    assert longer[..|longer| - 1] == moves && longer[|longer| - 1] == e.move;
    assert Leads(ops, root, longer[..|longer| - 1], e.from) && e == Edge(e.from, e.move);
    assert Leads(ops, root, longer, Target(e));
  }

  lemma {:induction false} WalkIsReachable(ops: seq<Operation>, root: Key, v: seq<Edge>, k: nat)
    requires Walk(ops, root, {}, v) && k < |v|
    ensures Reachable(ops, root, v[k].from) && |v[k].from.placed| <= |root.placed| + k
  {
    assert Connected(root, v, k);
    if v[k].from == root {
      assert Leads(ops, root, [], root);
    } else {
      var j :| 0 <= j < k && Target(v[j]) == v[k].from;
      WalkIsReachable(ops, root, v, j);
      LeadsOn(ops, root, v[j]);
    }
  }

  /** No placement is followed twice, and each from a state reached before. */
  ghost predicate Follows(h: History, v: seq<Edge>) {
    && (forall k | 0 <= k < |v| :: IsEdge(h.operations, v[k]) && Reachable(h.operations, Root(h), v[k].from))
    && (forall j, k | 0 <= j < k < |v| :: v[j] != v[k])
    && (forall k | 0 <= k < |v| :: Connected(Root(h), v, k))
  }

  /**
   The reported number of explored states is one for the root and one for each placement that was
   followed, none of them twice. Without a linearization these are all placements from all reachable
   states; with one the last of them completes the history, so that there are at least as many as
   operations.
   */
  lemma ExploredStates(h: History) returns (v: seq<Edge>)
    requires ValidHistory(h)
    ensures CheckOf(h).check.exploredStates == 1 + |v| && Follows(h, v)
    ensures Linearizable(h) ==> v != [] && AllPlaced(h.operations, Target(v[|v| - 1]).placed) && |v| >= |h.operations|
    ensures !Linearizable(h) ==>
              forall e | IsEdge(h.operations, e) && Reachable(h.operations, Root(h), e.from) :: e in v
  {
    var ops, n := h.operations, |h.operations|;
    CheckDecides(h);
    v := ExploringWalks(ops, {}, h.initial, Memo({}, 0), n);
    var r := Exploring(ops, {}, h.initial, Memo({}, 0), n);
    forall k | 0 <= k < |v| ensures Reachable(ops, Root(h), v[k].from) && |v[k].from.placed| <= k {
      WalkIsReachable(ops, Root(h), v, k);
    }
    if r.ok {
      LastCompletes(h, v);
    } else {
      forall e | IsEdge(ops, e) && Reachable(ops, Root(h), e.from) ensures e in v {
        var moves :| Leads(ops, Root(h), moves, e.from);
        DeadIsClosed(ops, Root(h), r.memo.dead, v, moves, e.from);
        assert Spent(ops, r.memo.dead, v, e.from, EVERY);
        assert e == Edge(e.from, e.move);
      }
    }
  }

  lemma LastCompletes(h: History, v: seq<Edge>)
    requires ValidHistory(h) && Ends(h.operations, Root(h), v)
    requires forall k | 0 <= k < |v| :: |v[k].from.placed| <= k
    ensures v != [] && AllPlaced(h.operations, Target(v[|v| - 1]).placed) && |v| >= |h.operations|
  {
    var n := |h.operations|;
    var end := if v == [] then Root(h) else Target(v[|v| - 1]);
    assert Below(n) <= end.placed;
    SubsetSize(Below(n), end.placed);
  }
}
