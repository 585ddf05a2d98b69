/** The quorum anchor store: selecting a load result from replies, and its safety over all concurrent runs. */
module QuorumStore {

  import opened Anchors

  // ---------------------------------------------------------------------------------------
  // Selecting a result from the replies received so far.
  // ---------------------------------------------------------------------------------------

  ghost function AbsentAmong(replies: seq<Value>, k: nat): set<nat>
    requires k <= |replies|
  {
    set i: nat | i < k && !replies[i].present
  }

  ghost function PrecedingAmong(replies: seq<Value>, k: nat, c: Value): set<nat>
    requires k <= |replies|
  {
    set i: nat | i < k && replies[i].present && BeforeOrEqual(replies[i], c)
  }

  /** The replies that `c` keeps everything of. */
  ghost function CoveredBy(replies: seq<Value>, c: Value): set<nat> {
    set i: nat | i < |replies| && Covers(c, replies[i])
  }

  /** A reply that keeps everything of a quorum of replies. */
  ghost predicate Qualified(replies: seq<Value>, quorum: nat, c: Value) {
    c in replies && c.present && |CoveredBy(replies, c)| >= quorum
  }

  /** A qualified reply ahead of every other qualified reply. */
  ghost predicate Selectable(replies: seq<Value>, quorum: nat, c: Value) {
    Qualified(replies, quorum, c) && forall other | Qualified(replies, quorum, other) :: BeforeOrEqual(other, c)
  }

  ghost predicate AbsentQuorum(replies: seq<Value>, quorum: nat) {
    |AbsentAmong(replies, |replies|)| >= quorum
  }

  datatype Selection = NotReady | Ready(anchor: Value)

  /** The selection a load may make; `ABSENT` is the confirmed absence. */
  ghost predicate Selects(replies: seq<Value>, quorum: nat, r: Selection) {
    if quorum < 1 || |replies| < quorum then r == NotReady
    else if exists c :: Selectable(replies, quorum, c) then r.Ready? && Selectable(replies, quorum, r.anchor)
    else r == if AbsentQuorum(replies, quorum) then Ready(ABSENT) else NotReady
  }

  lemma AbsentStep(replies: seq<Value>, k: nat)
    requires k < |replies|
    ensures |AbsentAmong(replies, k + 1)| == |AbsentAmong(replies, k)| + if replies[k].present then 0 else 1
  {
    assert AbsentAmong(replies, k + 1) == if replies[k].present then AbsentAmong(replies, k)
           else AbsentAmong(replies, k) + {k};
  }

  lemma PrecedingStep(replies: seq<Value>, k: nat, c: Value)
    requires k < |replies|
    ensures |PrecedingAmong(replies, k + 1, c)|
         == |PrecedingAmong(replies, k, c)| + if replies[k].present && BeforeOrEqual(replies[k], c) then 1 else 0
  {
    assert PrecedingAmong(replies, k + 1, c) ==
           if replies[k].present && BeforeOrEqual(replies[k], c) then PrecedingAmong(replies, k, c) + {k}
              else PrecedingAmong(replies, k, c);
  }

  lemma CoveredSize(replies: seq<Value>, c: Value)
    requires c.present
    ensures |CoveredBy(replies, c)| == |AbsentAmong(replies, |replies|)| + |PrecedingAmong(replies, |replies|, c)|
  {
    var a, b := AbsentAmong(replies, |replies|), PrecedingAmong(replies, |replies|, c);
    assert a * b == {} && CoveredBy(replies, c) == a + b;
  }

  method CountAbsent(replies: seq<Value>) returns (missing: nat)
    ensures missing == |AbsentAmong(replies, |replies|)|
  {
    missing := 0;
    for k := 0 to |replies|
      invariant missing == |AbsentAmong(replies, k)|
    {
      AbsentStep(replies, k);
      if !replies[k].present {
        missing := missing + 1;
      }
    }
  }

  method CountDominated(replies: seq<Value>, missing: nat, c: Value) returns (dominated: nat)
    requires c.present && missing == |AbsentAmong(replies, |replies|)|
    ensures dominated == |CoveredBy(replies, c)|
  {
    dominated := missing;
    for k := 0 to |replies|
      invariant dominated == missing + |PrecedingAmong(replies, k, c)|
    {
      PrecedingStep(replies, k, c);
      if replies[k].present && BeforeOrEqual(replies[k], c) {
        dominated := dominated + 1;
      }
    }
    CoveredSize(replies, c);
  }

  method CollectQualified(replies: seq<Value>, quorum: nat, missing: nat) returns (qualified: seq<Value>)
    requires missing == |AbsentAmong(replies, |replies|)|
    ensures forall c :: c in qualified <==> Qualified(replies, quorum, c)
  {
    qualified := [];
    for k := 0 to |replies|
      invariant forall c | c in qualified :: Qualified(replies, quorum, c)
      invariant forall i | 0 <= i < k && Qualified(replies, quorum, replies[i]) :: replies[i] in qualified
    {
      var candidate := replies[k];
      if candidate.present {
        var dominated := CountDominated(replies, missing, candidate);
        if dominated >= quorum {
          qualified := qualified + [candidate];
        }
      }
    }
  }

  method SelectLoadQuorum(replies: seq<Value>, quorum: nat) returns (r: Selection)
    ensures Selects(replies, quorum, r)
  {
    if quorum < 1 || |replies| < quorum {
      return NotReady;
    }
    var missing := CountAbsent(replies);
    var qualified := CollectQualified(replies, quorum, missing);
    for k := 0 to |qualified|
      invariant forall i | 0 <= i < k :: !Selectable(replies, quorum, qualified[i])
    {
      var dominatesAll := true;
      for i := 0 to |qualified|
        invariant dominatesAll <==> forall j | 0 <= j < i :: BeforeOrEqual(qualified[j], qualified[k])
      {
        if !BeforeOrEqual(qualified[i], qualified[k]) {
          dominatesAll := false;
          break;
        }
      }
      assert qualified[k] in qualified;
      if dominatesAll {
        return Ready(qualified[k]);
      }
    }
    r := if missing >= quorum then Ready(ABSENT) else NotReady;
  }

  // ---------------------------------------------------------------------------------------
  // Loading and advancing: what the callers make of the replies in the order they arrive.
  // ---------------------------------------------------------------------------------------

  function Quorum(replicas: nat): nat { replicas / 2 + 1 }

  datatype Refusal = Authentication | Configuration | Protocol

  datatype LoadReply = Answer(value: Value) | LoadRefused(refusal: Refusal) | LoadUnreachable

  datatype LoadResult = Loaded(anchor: Value) | LoadError(refusal: Refusal) | LoadConflict | LoadNoQuorum

  /** The answers among the first arrivals, in order. */
  function Answers(arrivals: seq<LoadReply>): (values: seq<Value>)
    ensures |values| <= |arrivals|
  {
    if arrivals == [] then []
    else
      var last := arrivals[|arrivals| - 1];
      Answers(arrivals[..|arrivals| - 1]) + if last.Answer? then [last.value] else []
  }

  lemma {:induction false} AnswersBound(arrivals: seq<LoadReply>, k: nat)
    requires k <= |arrivals|
    ensures |Answers(arrivals)| <= |Answers(arrivals[..k])| + |arrivals| - k
  {
    if k < |arrivals| {
      AnswersBound(arrivals[..|arrivals| - 1], k);
      assert arrivals[..|arrivals| - 1][..k] == arrivals[..k];
    } else {
      assert arrivals[..k] == arrivals;
    }
  }

  ghost predicate NoRefusal(arrivals: seq<LoadReply>) {
    forall i | 0 <= i < |arrivals| :: !arrivals[i].LoadRefused?
  }

  /** After `k` arrivals without a refusal the answers select `anchor`. */
  ghost predicate LoadsAt(arrivals: seq<LoadReply>, quorum: nat, k: nat, anchor: Value) {
    k <= |arrivals| && NoRefusal(arrivals[..k]) && Selects(Answers(arrivals[..k]), quorum, Ready(anchor))
  }

  ghost predicate NotReadyAt(arrivals: seq<LoadReply>, quorum: nat, k: nat) {
    forall anchor :: !LoadsAt(arrivals, quorum, k, anchor)
  }

  ghost predicate NeverLoads(arrivals: seq<LoadReply>, quorum: nat) {
    forall k: nat :: NotReadyAt(arrivals, quorum, k)
  }

  lemma TooFewAnswers(arrivals: seq<LoadReply>, replicas: nat, quorum: nat, k: nat, later: nat)
    requires k <= later <= |arrivals| <= replicas && |Answers(arrivals[..k])| + replicas - k < quorum
    ensures NotReadyAt(arrivals, quorum, later)
  {
    AnswersBound(arrivals[..later], k);
    assert arrivals[..later][..k] == arrivals[..k];
  }

  ghost predicate NotReadyUpTo(arrivals: seq<LoadReply>, quorum: nat, k: nat) {
    var holds := forall j: nat | j <= k :: NotReadyAt(arrivals, quorum, j);
    holds
  }

  /** Nothing is selected before the `k`-th arrival, and that selects `anchor`. */
  ghost predicate LoadsFirstAt(arrivals: seq<LoadReply>, quorum: nat, k: nat, anchor: Value) {
    var holds := 0 < k && LoadsAt(arrivals, quorum, k, anchor) && NotReadyUpTo(arrivals, quorum, k - 1);
    holds
  }

  /** After `k` arrivals the replicas still to be heard could make a quorum of answers. */
  ghost predicate LoadPossible(arrivals: seq<LoadReply>, replicas: nat, k: nat)
    requires k <= |arrivals|
  {
    |Answers(arrivals[..k])| + replicas - k >= Quorum(replicas)
  }

  /** The arrival at `i` is the first refusal, and nothing was decided before it. */
  ghost predicate LoadRefusedAt(arrivals: seq<LoadReply>, replicas: nat, i: nat, refusal: Refusal) {
    var holds :=
      && i < |arrivals| && arrivals[i] == LoadRefused(refusal) && NoRefusal(arrivals[..i])
      && LoadPossible(arrivals, replicas, i) && NotReadyUpTo(arrivals, Quorum(replicas), i);
    holds
  }

  ghost predicate LoadRefuses(arrivals: seq<LoadReply>, replicas: nat, refusal: Refusal) {
    var holds := exists i: nat :: LoadRefusedAt(arrivals, replicas, i, refusal);
    holds
  }

  /** Every replica was heard, and the answers of a quorum select nothing. */
  ghost predicate LoadConflicts(arrivals: seq<LoadReply>, replicas: nat) {
    var holds :=
      && |arrivals| == replicas && NoRefusal(arrivals) && NeverLoads(arrivals, Quorum(replicas))
      && |Answers(arrivals)| >= Quorum(replicas);
    holds
  }

  lemma LoadedAlone(arrivals: seq<LoadReply>, replicas: nat, k: nat, anchor: Value)
    requires LoadsFirstAt(arrivals, Quorum(replicas), k, anchor)
    ensures !LoadConflicts(arrivals, replicas) && forall refusal :: !LoadRefuses(arrivals, replicas, refusal)
  {
    assert !NotReadyAt(arrivals, Quorum(replicas), k);
    forall i: nat, refusal ensures !LoadRefusedAt(arrivals, replicas, i, refusal) {
      if i < k {
        assert arrivals[..k][i] == arrivals[i];
      }
    }
  }

  lemma RefusalAlone(arrivals: seq<LoadReply>, replicas: nat, i: nat, refusal: Refusal)
    requires LoadRefusedAt(arrivals, replicas, i, refusal)
    ensures NeverLoads(arrivals, Quorum(replicas)) && !LoadConflicts(arrivals, replicas)
    ensures forall other :: LoadRefuses(arrivals, replicas, other) <==> other == refusal
  {
    forall k: nat ensures NotReadyAt(arrivals, Quorum(replicas), k) {
      if i < k {
        RefusalEnds(arrivals, Quorum(replicas), i, k);
      }
    }
    forall k: nat, other | other != refusal ensures !LoadRefusedAt(arrivals, replicas, k, other) {
      if i < k < |arrivals| {
        assert arrivals[..k][i] == arrivals[i];
      } else if k < i {
        assert arrivals[..i][k] == arrivals[k];
      }
    }
  }

  /** Once a quorum is out of reach it stays so: nothing is loaded, no later refusal counts, nothing conflicts. */
  lemma TooFewAlone(arrivals: seq<LoadReply>, replicas: nat, k: nat)
    requires k <= |arrivals| <= replicas && NoRefusal(arrivals[..k]) && !LoadPossible(arrivals, replicas, k)
    requires NotReadyUpTo(arrivals, Quorum(replicas), k)
    ensures NeverLoads(arrivals, Quorum(replicas)) && !LoadConflicts(arrivals, replicas)
    ensures forall refusal :: !LoadRefuses(arrivals, replicas, refusal)
  {
    forall later: nat ensures NotReadyAt(arrivals, Quorum(replicas), later) {
      if k <= later <= |arrivals| {
        TooFewAnswers(arrivals, replicas, Quorum(replicas), k, later);
      }
    }
    AnswersBound(arrivals, k);
    forall i: nat, refusal ensures !LoadRefusedAt(arrivals, replicas, i, refusal) {
      if i < k {
        assert arrivals[..k][i] == arrivals[i];
      } else if i < |arrivals| {
        AnswersBound(arrivals[..i], k);
        assert arrivals[..i][..k] == arrivals[..k];
      }
    }
  }

  lemma UnrefusedLoad(arrivals: seq<LoadReply>, replicas: nat)
    requires NoRefusal(arrivals) && NotReadyUpTo(arrivals, Quorum(replicas), |arrivals|)
    ensures NeverLoads(arrivals, Quorum(replicas)) && forall refusal :: !LoadRefuses(arrivals, replicas, refusal)
  {
    assert forall k: nat | k > |arrivals| :: NotReadyAt(arrivals, Quorum(replicas), k);
  }

  /**
   The load loop. It returns an anchor exactly if some prefix of the arrivals selects one before any
   refusal: giving up early, once a quorum has become unreachable, never loses a result. It returns a
   refusal exactly if that came first and while a quorum was still possible, and a conflict exactly if
   every replica was heard and the answers of a quorum select nothing. Fewer arrivals than replicas
   mean that the caller's context ended first.
   */
  method Load(replicas: nat, arrivals: seq<LoadReply>) returns (r: LoadResult)
    requires |arrivals| <= replicas
    ensures r.Loaded? ==> exists k: nat :: LoadsFirstAt(arrivals, Quorum(replicas), k, r.anchor)
    ensures !r.Loaded? ==> NeverLoads(arrivals, Quorum(replicas))
    ensures forall refusal :: r == LoadError(refusal) <==> LoadRefuses(arrivals, replicas, refusal)
    ensures r.LoadConflict? <==> LoadConflicts(arrivals, replicas)
  {
    var quorum := Quorum(replicas);
    var successes: seq<Value> := [];
    for received := 0 to |arrivals|
      invariant NoRefusal(arrivals[..received]) && successes == Answers(arrivals[..received])
      invariant NotReadyUpTo(arrivals, quorum, received)
      invariant |arrivals| > 0 ==> LoadPossible(arrivals, replicas, received)
    {
      var reply := arrivals[received];
      if reply.LoadRefused? {
        RefusalAlone(arrivals, replicas, received, reply.refusal);
        return LoadError(reply.refusal);
      }
      assert arrivals[..received + 1][..received] == arrivals[..received];
      if reply.Answer? {
        successes := successes + [reply.value];
        var selection := SelectLoadQuorum(successes, quorum);
        if selection.Ready? {
          assert LoadsFirstAt(arrivals, quorum, received + 1, selection.anchor);
          LoadedAlone(arrivals, replicas, received + 1, selection.anchor);
          return Loaded(selection.anchor);
        }
        NotReadyOnly(successes, quorum);
        NotReadyYet(arrivals, quorum, received + 1);
      } else {
        NothingNew(arrivals, quorum, received);
        NotReadyYet(arrivals, quorum, received + 1);
      }
      if |successes| + replicas - received - 1 < quorum {
        TooFewAlone(arrivals, replicas, received + 1);
        return LoadNoQuorum;
      }
    }
    assert arrivals[..|arrivals|] == arrivals;
    UnrefusedLoad(arrivals, replicas);
    r := if |arrivals| == replicas && |successes| >= quorum then LoadConflict else LoadNoQuorum;
  }

  lemma RefusalEnds(arrivals: seq<LoadReply>, quorum: nat, i: nat, k: nat)
    requires i < |arrivals| && arrivals[i].LoadRefused? && i < k
    ensures NotReadyAt(arrivals, quorum, k)
  {
    if k <= |arrivals| {
      assert arrivals[..k][i] == arrivals[i];
    }
  }

  lemma NothingNew(arrivals: seq<LoadReply>, quorum: nat, k: nat)
    requires k < |arrivals| && !arrivals[k].Answer? && NotReadyUpTo(arrivals, quorum, k)
    ensures NotReadyAt(arrivals, quorum, k + 1)
  {
    assert arrivals[..k + 1][..k] == arrivals[..k];
    assert Answers(arrivals[..k + 1]) == Answers(arrivals[..k]);
    var next := k + 1;
    assert NotReadyAt(arrivals, quorum, k);
    forall anchor ensures !LoadsAt(arrivals, quorum, next, anchor) {
      assert !LoadsAt(arrivals, quorum, k, anchor);
      assert forall i | 0 <= i < k :: arrivals[..next][i] == arrivals[..k][i];
    }
  }

  lemma NotReadyYet(arrivals: seq<LoadReply>, quorum: nat, k: nat)
    requires 0 < k && NotReadyUpTo(arrivals, quorum, k - 1) && NotReadyAt(arrivals, quorum, k)
    ensures NotReadyUpTo(arrivals, quorum, k)
  {
  }

  /** A selection is either not ready or ready, never both. */
  lemma NotReadyOnly(replies: seq<Value>, quorum: nat)
    requires Selects(replies, quorum, NotReady)
    ensures forall anchor :: !Selects(replies, quorum, Ready(anchor))
  {
  }

  datatype AdvanceReply = Accepted | Conflicted | AdvanceRefused(refusal: Refusal) | AdvanceUnreachable

  datatype AdvanceResult = Acknowledged | AdvanceError(refusal: Refusal) | AdvanceConflict | AdvanceNoQuorum

  function Acceptances(arrivals: seq<AdvanceReply>): (n: nat)
    ensures n <= |arrivals|
  {
    if arrivals == [] then 0
    else Acceptances(arrivals[..|arrivals| - 1]) + if arrivals[|arrivals| - 1].Accepted? then 1 else 0
  }

  lemma {:induction false} AcceptancesBound(arrivals: seq<AdvanceReply>, k: nat)
    requires k <= |arrivals|
    ensures Acceptances(arrivals[..k]) <= Acceptances(arrivals) <= Acceptances(arrivals[..k]) + |arrivals| - k
  {
    if k < |arrivals| {
      AcceptancesBound(arrivals[..|arrivals| - 1], k);
      assert arrivals[..|arrivals| - 1][..k] == arrivals[..k];
    } else {
      assert arrivals[..k] == arrivals;
    }
  }

  /** After `k` arrivals without a refusal a quorum has accepted. */
  ghost predicate AcknowledgedAt(arrivals: seq<AdvanceReply>, quorum: nat, k: nat) {
    k <= |arrivals| && (forall i | 0 <= i < k :: !arrivals[i].AdvanceRefused?) && Acceptances(arrivals[..k]) >= quorum
  }

  ghost predicate Unrefused(arrivals: seq<AdvanceReply>, k: nat)
    requires k <= |arrivals|
  {
    forall i | 0 <= i < k :: !arrivals[i].AdvanceRefused?
  }

  /** After `k` arrivals the replicas still to be heard could complete a quorum. */
  ghost predicate QuorumPossible(arrivals: seq<AdvanceReply>, replicas: nat, k: nat)
    requires k <= |arrivals|
  {
    Acceptances(arrivals[..k]) + replicas - k >= Quorum(replicas)
  }

  /** The arrival at `i` is the first refusal, and nothing was decided before it. */
  ghost predicate AdvanceRefusedAt(arrivals: seq<AdvanceReply>, replicas: nat, i: nat, refusal: Refusal) {
    && i < |arrivals| && arrivals[i] == AdvanceRefused(refusal) && Unrefused(arrivals, i)
    && Acceptances(arrivals[..i]) < Quorum(replicas) && QuorumPossible(arrivals, replicas, i)
  }

  /** The arrival before `k` puts a quorum out of reach. */
  ghost predicate GivesUpAt(arrivals: seq<AdvanceReply>, replicas: nat, k: nat) {
    && 0 < k <= |arrivals| && Unrefused(arrivals, k)
    && QuorumPossible(arrivals, replicas, k - 1) && !QuorumPossible(arrivals, replicas, k)
  }

  lemma PossibleEarlier(arrivals: seq<AdvanceReply>, replicas: nat, j: nat, k: nat)
    requires j <= k <= |arrivals|
    ensures Acceptances(arrivals[..j]) <= Acceptances(arrivals[..k])
    ensures QuorumPossible(arrivals, replicas, k) ==> QuorumPossible(arrivals, replicas, j)
  {
    AcceptancesBound(arrivals[..k], j);
    assert arrivals[..k][..j] == arrivals[..j];
  }

  ghost predicate Acknowledges(arrivals: seq<AdvanceReply>, replicas: nat) {
    var holds := exists k: nat :: AcknowledgedAt(arrivals, Quorum(replicas), k);
    holds
  }

  ghost predicate AdvanceRefuses(arrivals: seq<AdvanceReply>, replicas: nat, refusal: Refusal) {
    var holds := exists i: nat :: AdvanceRefusedAt(arrivals, replicas, i, refusal);
    holds
  }

  ghost predicate ConflictsAt(arrivals: seq<AdvanceReply>, replicas: nat, k: nat) {
    GivesUpAt(arrivals, replicas, k) && Conflicted in arrivals[..k]
  }

  /** A conflict was among the arrivals that put a quorum out of reach. */
  ghost predicate AdvanceConflicts(arrivals: seq<AdvanceReply>, replicas: nat) {
    var holds := exists k: nat :: ConflictsAt(arrivals, replicas, k);
    holds
  }

  lemma AcknowledgedAlone(arrivals: seq<AdvanceReply>, replicas: nat, k: nat)
    requires |arrivals| <= replicas && AcknowledgedAt(arrivals, Quorum(replicas), k)
    ensures Acknowledges(arrivals, replicas) && !AdvanceConflicts(arrivals, replicas)
    ensures forall refusal :: !AdvanceRefuses(arrivals, replicas, refusal)
  {
    forall i: nat, refusal ensures !AdvanceRefusedAt(arrivals, replicas, i, refusal) {
      if k <= i < |arrivals| {
        PossibleEarlier(arrivals, replicas, k, i);
      }
    }
    forall j: nat ensures !GivesUpAt(arrivals, replicas, j) {
      if j <= k {
        PossibleEarlier(arrivals, replicas, j, k);
      } else if j <= |arrivals| {
        PossibleEarlier(arrivals, replicas, k, j);
      }
    }
  }

  lemma StillTooFew(arrivals: seq<AdvanceReply>, replicas: nat, quorum: nat, now: nat, k: nat)
    requires now <= |arrivals| <= replicas && k <= |arrivals| && Acceptances(arrivals[..now]) + replicas - now < quorum
    ensures Acceptances(arrivals[..k]) < quorum
  {
    if k <= now {
      AcceptancesBound(arrivals[..now], k);
      assert arrivals[..now][..k] == arrivals[..k];
    } else {
      AcceptancesBound(arrivals[..k], now);
      assert arrivals[..k][..now] == arrivals[..now];
    }
  }

  lemma RefusedBefore(arrivals: seq<AdvanceReply>, quorum: nat, now: nat, k: nat)
    requires now < |arrivals| && arrivals[now].AdvanceRefused? && Acceptances(arrivals[..now]) < quorum
    ensures !AcknowledgedAt(arrivals, quorum, k)
  {
    if k <= now {
      AcceptancesBound(arrivals[..now], k);
      assert arrivals[..now][..k] == arrivals[..k];
    }
  }

  lemma RefusedAlone(arrivals: seq<AdvanceReply>, replicas: nat, i: nat, refusal: Refusal)
    requires AdvanceRefusedAt(arrivals, replicas, i, refusal)
    ensures !Acknowledges(arrivals, replicas) && !AdvanceConflicts(arrivals, replicas)
    ensures forall other :: AdvanceRefuses(arrivals, replicas, other) <==> other == refusal
  {
    forall k: nat ensures !AcknowledgedAt(arrivals, Quorum(replicas), k) {
      RefusedBefore(arrivals, Quorum(replicas), i, k);
    }
    forall j: nat ensures !GivesUpAt(arrivals, replicas, j) {
      if j <= i {
        PossibleEarlier(arrivals, replicas, j, i);
      }
    }
  }

  lemma GivenUpAlone(arrivals: seq<AdvanceReply>, replicas: nat, k: nat)
    requires |arrivals| <= replicas && GivesUpAt(arrivals, replicas, k)
    ensures !Acknowledges(arrivals, replicas)
    ensures forall refusal :: !AdvanceRefuses(arrivals, replicas, refusal)
    ensures AdvanceConflicts(arrivals, replicas) <==> Conflicted in arrivals[..k]
  {
    forall later: nat | later <= |arrivals| ensures !AcknowledgedAt(arrivals, Quorum(replicas), later) {
      StillTooFew(arrivals, replicas, Quorum(replicas), k, later);
    }
    forall i: nat, refusal ensures !AdvanceRefusedAt(arrivals, replicas, i, refusal) {
      if k <= i < |arrivals| {
        PossibleEarlier(arrivals, replicas, k, i);
      }
    }
    forall j: nat | GivesUpAt(arrivals, replicas, j) ensures j == k {
      if j < k {
        PossibleEarlier(arrivals, replicas, j, k - 1);
      } else if k < j {
        PossibleEarlier(arrivals, replicas, k, j - 1);
      }
    }
    assert ConflictsAt(arrivals, replicas, k) <==> Conflicted in arrivals[..k];
  }

  lemma Undecided(arrivals: seq<AdvanceReply>, replicas: nat)
    requires Unrefused(arrivals, |arrivals|) && Acceptances(arrivals) < Quorum(replicas)
    requires arrivals == [] || QuorumPossible(arrivals, replicas, |arrivals|)
    ensures !Acknowledges(arrivals, replicas) && !AdvanceConflicts(arrivals, replicas)
    ensures forall refusal :: !AdvanceRefuses(arrivals, replicas, refusal)
  {
    forall k: nat | k <= |arrivals| ensures !AcknowledgedAt(arrivals, Quorum(replicas), k) {
      AcceptancesBound(arrivals, k);
    }
    forall j: nat ensures !GivesUpAt(arrivals, replicas, j) {
      if j <= |arrivals| {
        PossibleEarlier(arrivals, replicas, j, |arrivals|);
      }
    }
  }

  /**
   The advance loop. It acknowledges exactly if a quorum accepts before any refusal; it returns a
   refusal exactly if that came first and while a quorum was still possible, and a conflict exactly if
   one was among the arrivals that put a quorum out of reach. An anchor with no identity is never sent.
   */
  method Advance(replicas: nat, anchor: Value, arrivals: seq<AdvanceReply>) returns (r: AdvanceResult)
    requires |arrivals| <= replicas
    ensures anchor.databaseID == ZERO_ID || anchor.generation == 0 ==> r == AdvanceError(Protocol)
    ensures anchor.databaseID != ZERO_ID && anchor.generation != 0 ==>
              && (r.Acknowledged? <==> Acknowledges(arrivals, replicas))
              && (r.AdvanceConflict? <==> AdvanceConflicts(arrivals, replicas))
              && forall refusal :: r == AdvanceError(refusal) <==> AdvanceRefuses(arrivals, replicas, refusal)
  {
    if anchor.databaseID == ZERO_ID || anchor.generation == 0 {
      return AdvanceError(Protocol);
    }
    var quorum := Quorum(replicas);
    var succeeded, conflicts := 0, 0;
    for received := 0 to |arrivals|
      invariant Unrefused(arrivals, received)
      invariant succeeded == Acceptances(arrivals[..received]) < quorum
      invariant conflicts > 0 <==> Conflicted in arrivals[..received]
      invariant arrivals != [] ==> QuorumPossible(arrivals, replicas, received)
    {
      var reply := arrivals[received];
      assert arrivals[..received + 1][..received] == arrivals[..received];
      if reply.AdvanceRefused? {
        RefusedAlone(arrivals, replicas, received, reply.refusal);
        return AdvanceError(reply.refusal);
      }
      if reply.Conflicted? {
        conflicts := conflicts + 1;
      } else if reply.Accepted? {
        succeeded := succeeded + 1;
        if succeeded == quorum {
          AcknowledgedAlone(arrivals, replicas, received + 1);
          return Acknowledged;
        }
      }
      if succeeded + replicas - received - 1 < quorum {
        GivenUpAlone(arrivals, replicas, received + 1);
        return if conflicts > 0 then AdvanceConflict else AdvanceNoQuorum;
      }
    }
    assert arrivals[..|arrivals|] == arrivals;
    Undecided(arrivals, replicas);
    r := AdvanceNoQuorum;
  }
}
