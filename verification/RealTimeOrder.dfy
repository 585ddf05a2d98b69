/**
 Real-time orders of a history whose operations were dispatched in waves.
 */
module RealTimeOrder {

  import opened AnchorHistory
  import opened Permutations

  /** Operations of one wave overlap pairwise; operations of different waves do not overlap. */
  ghost predicate Separated(ops: seq<Operation>, waveOf: seq<nat>) {
    && |waveOf| == |ops|
    && (forall a, b | 0 <= a < |ops| && 0 <= b < |ops| && waveOf[a] == waveOf[b] :: ops[a].invoke < ops[b].ret)
    && (forall a, b | 0 <= a < |ops| && 0 <= b < |ops| && waveOf[a] < waveOf[b] :: ops[a].ret < ops[b].invoke)
  }

  ghost predicate WavesAscend(waveOf: seq<nat>, order: seq<nat>)
    requires forall i | 0 <= i < |order| :: order[i] < |waveOf|
  {
    forall i, j | 0 <= i < j < |order| :: waveOf[order[i]] <= waveOf[order[j]]
  }

  lemma PrecedenceIsWaveOrder(ops: seq<Operation>, waveOf: seq<nat>, a: nat, b: nat)
    requires Separated(ops, waveOf) && a < |ops| && b < |ops|
    ensures Precedes(ops[a], ops[b]) <==> waveOf[a] < waveOf[b]
  {
    if waveOf[b] < waveOf[a] {
      assert ops[b].ret < ops[a].invoke;
      assert ops[b].invoke < ops[b].ret && ops[a].invoke < ops[a].ret;
    }
  }

  lemma RealTimeIffWavesAscend(ops: seq<Operation>, waveOf: seq<nat>, order: seq<nat>)
    requires Separated(ops, waveOf) && IsOrder(|ops|, order)
    ensures RespectsRealTime(ops, order) <==> WavesAscend(waveOf, order)
  {
    forall i, j | 0 <= i < j < |ops|
      ensures !Precedes(ops[order[j]], ops[order[i]]) <==> waveOf[order[i]] <= waveOf[order[j]]
    {
      PrecedenceIsWaveOrder(ops, waveOf, order[j], order[i]);
    }
  }

  // ---------------------------------------------------------------------------------------
  // Concatenations of per-wave permutations.
  // ---------------------------------------------------------------------------------------

  ghost function Flatten(segments: seq<seq<nat>>): seq<nat> {
    if segments == [] then [] else Flatten(segments[..|segments| - 1]) + segments[|segments| - 1]
  }

  /** `segment` lists every operation of wave `w`, each once. */
  ghost predicate IsWavePermutation(waveOf: seq<nat>, w: nat, segment: seq<nat>) {
    && (forall k | 0 <= k < |segment| :: segment[k] < |waveOf| && waveOf[segment[k]] == w)
    && (forall k, l | 0 <= k < l < |segment| :: segment[k] != segment[l])
    && (forall a: nat | a < |waveOf| && waveOf[a] == w :: a in segment)
  }

  ghost predicate IsWaveConcatenation(waves: nat, waveOf: seq<nat>, order: seq<nat>) {
    exists segments: seq<seq<nat>> ::
      && |segments| == waves
      && Flatten(segments) == order
      && forall w | 0 <= w < waves :: IsWavePermutation(waveOf, w, segments[w])
  }

  /** The segment holds the operations of the order that are of this wave, without repetition. */
  ghost predicate Sorts(waveOf: seq<nat>, order: seq<nat>, w: nat, segment: seq<nat>)
    requires forall i | 0 <= i < |order| :: order[i] < |waveOf|
  {
    var holds :=
      && (forall k | 0 <= k < |segment| :: segment[k] < |waveOf| && waveOf[segment[k]] == w && segment[k] in order)
      && (forall k, l | 0 <= k < l < |segment| :: segment[k] != segment[l])
      && (forall i {:trigger order[i] in segment} | 0 <= i < |order| && waveOf[order[i]] == w :: order[i] in segment);
    holds
  }

  /** The segments sort the order by wave and spell it out, and none follows that of its last operation. */
  ghost predicate SpelledBy(waveOf: seq<nat>, order: seq<nat>, segments: seq<seq<nat>>)
    requires forall i | 0 <= i < |order| :: order[i] < |waveOf|
  {
    var holds :=
      && Flatten(segments) == order
      && (forall w {:trigger Sorts(waveOf, order, w, segments[w])} | 0 <= w < |segments| ::
            Sorts(waveOf, order, w, segments[w]))
      && (forall w | 0 <= w < |segments| && (order == [] || waveOf[order[|order| - 1]] < w) :: segments[w] == []);
    holds
  }

  lemma {:induction false} EmptySegments(waves: nat) returns (segments: seq<seq<nat>>)
    ensures |segments| == waves && Flatten(segments) == [] && forall w | 0 <= w < waves :: segments[w] == []
  {
    segments := [];
    if waves == 0 {
    } else {
      var front := EmptySegments(waves - 1);
      segments := front + [[]];
      assert segments[..waves - 1] == front;
    }
  }

  /** Appending to a segment with only empty segments behind it appends to the whole. */
  lemma {:induction false} FlattenAppends(segments: seq<seq<nat>>, v: nat, x: nat)
    requires v < |segments| && forall w | v < w < |segments| :: segments[w] == []
    ensures Flatten(segments[v := segments[v] + [x]]) == Flatten(segments) + [x]
  {
    var n := |segments| - 1;
    var longer := segments[v := segments[v] + [x]];
    if v == n {
      assert longer[..n] == segments[..n];
    } else {
      FlattenAppends(segments[..n], v, x);
      assert longer[..n] == segments[..n][v := segments[v] + [x]];
    }
  }

  lemma SpelledOneMore(waveOf: seq<nat>, rest: seq<nat>, last: nat, segments: seq<seq<nat>>)
    requires last < |waveOf| && forall i | 0 <= i < |rest| :: rest[i] < |waveOf| && waveOf[rest[i]] <= waveOf[last]
    requires SpelledBy(waveOf, rest, segments) && last !in rest && waveOf[last] < |segments|
    ensures var v := waveOf[last]; SpelledBy(waveOf, rest + [last], segments[v := segments[v] + [last]])
  {
    var v := waveOf[last];
    FlattenAppends(segments, v, last);
    var order, longer := rest + [last], segments[v := segments[v] + [last]];
    forall w | 0 <= w < |segments| ensures Sorts(waveOf, order, w, longer[w]) {
      assert Sorts(waveOf, rest, w, segments[w]);
      SortsOneMore(waveOf, rest, last, w, segments[w]);
    }
  }

  /** In an ascending order the operations, sorted by wave, spell out the order. */
  lemma SegmentsSpell(waveOf: seq<nat>, order: seq<nat>, waves: nat) returns (segments: seq<seq<nat>>)
    requires forall i | 0 <= i < |order| :: order[i] < |waveOf| && waveOf[order[i]] < waves
    requires forall i, j | 0 <= i < j < |order| :: order[i] != order[j]
    requires WavesAscend(waveOf, order)
    ensures |segments| == waves && SpelledBy(waveOf, order, segments)
  {
    segments := EmptySegments(waves);
    for n := 0 to |order|
      invariant |segments| == waves && SpelledBy(waveOf, order[..n], segments)
    {
      var v := waveOf[order[n]];
      SpelledOneMore(waveOf, order[..n], order[n], segments);
      segments := segments[v := segments[v] + [order[n]]];
      assert order[..n + 1] == order[..n] + [order[n]];
    }
    assert order[..|order|] == order;
  }

  lemma SortsOneMore(waveOf: seq<nat>, rest: seq<nat>, last: nat, w: nat, segment: seq<nat>)
    requires last < |waveOf| && forall i | 0 <= i < |rest| :: rest[i] < |waveOf|
    requires Sorts(waveOf, rest, w, segment) && last !in rest
    ensures Sorts(waveOf, rest + [last], w, if waveOf[last] == w then segment + [last] else segment)
  {
    var order, longer := rest + [last], if waveOf[last] == w then segment + [last] else segment;
    forall i | 0 <= i < |order| && waveOf[order[i]] == w ensures order[i] in longer {
      assert i < |rest| ==> rest[i] in segment;
    }
  }

  lemma {:induction false} ConcatenationAscends(waveOf: seq<nat>, segments: seq<seq<nat>>)
    requires forall w | 0 <= w < |segments| :: forall x | x in segments[w] :: x < |waveOf| && waveOf[x] == w
    ensures forall k | 0 <= k < |Flatten(segments)| ::
              Flatten(segments)[k] < |waveOf| && waveOf[Flatten(segments)[k]] < |segments|
    ensures WavesAscend(waveOf, Flatten(segments))
  {
    if segments == [] {
    } else {
      var front, last := segments[..|segments| - 1], segments[|segments| - 1];
      assert forall w | 0 <= w < |front| :: front[w] == segments[w];
      ConcatenationAscends(waveOf, front);
      forall k | 0 <= k < |last| ensures last[k] < |waveOf| && waveOf[last[k]] == |segments| - 1 {
        assert last[k] in segments[|segments| - 1];
      }
    }
  }

  lemma SegmentIsPermutation(waveOf: seq<nat>, order: seq<nat>, w: nat, segment: seq<nat>)
    requires IsOrder(|waveOf|, order) && Sorts(waveOf, order, w, segment)
    ensures IsWavePermutation(waveOf, w, segment)
  {
    OrderCovers(|waveOf|, order);
    forall a: nat | a < |waveOf| && waveOf[a] == w ensures a in segment {
      assert a in order;
      var i :| 0 <= i < |order| && order[i] == a;
      assert order[i] in segment;
    }
  }

  /**
   A total order of a wave-dispatched history respects real time exactly when it runs through the
   waves one after another, in any order inside each wave.
   */
  lemma RealTimeIffWaveConcatenation(ops: seq<Operation>, waves: nat, waveOf: seq<nat>, order: seq<nat>)
    requires Separated(ops, waveOf) && IsOrder(|ops|, order)
    requires forall a | 0 <= a < |ops| :: waveOf[a] < waves
    ensures RespectsRealTime(ops, order) <==> IsWaveConcatenation(waves, waveOf, order)
  {
    RealTimeIffWavesAscend(ops, waveOf, order);
    if WavesAscend(waveOf, order) {
      var segments := SegmentsSpell(waveOf, order, waves);
      forall w | 0 <= w < waves
        ensures IsWavePermutation(waveOf, w, segments[w])
      {
        assert Sorts(waveOf, order, w, segments[w]);
        SegmentIsPermutation(waveOf, order, w, segments[w]);
      }
    }
    if IsWaveConcatenation(waves, waveOf, order) {
      var segments: seq<seq<nat>> :|
        && |segments| == waves
        && Flatten(segments) == order
        && forall w | 0 <= w < waves :: IsWavePermutation(waveOf, w, segments[w]);
      ConcatenationAscends(waveOf, segments);
    }
  }
}
