/** Member evidence in a history receipt, and when a final value that a quorum supports keeps an anchor. */
module QuorumEvidence {

  import opened HistoryWire
  import opened Permutations

  datatype MemberState =
    | Available | Missing | Unavailable | AuthenticationFailure | ConfigurationFailure | ProtocolFailure
    | OtherState(text: string)

  datatype Member = Member(memberID: string, endpointSHA256: string, state: MemberState, anchor: WireValue)

  // ---------------------------------------------------------------------------------------
  // Member records.
  // ---------------------------------------------------------------------------------------

  predicate ValidMember(m: Member) {
    && m.memberID != "" && IsHexDigest(m.endpointSHA256)
    && (m.state == Available || m.state == Missing)
    && (m.state == Available ==>
          m.anchor.present && IsLowerHex(m.anchor.databaseIDHex, 16) && m.anchor.minimumGeneration != 0)
    && (m.state == Missing ==> m.anchor == NO_VALUE)
  }

  predicate ValidMembers(members: seq<Member>) {
    && (forall k | 0 <= k < |members| :: ValidMember(members[k]))
    && (forall i, k | 0 <= i < k < |members| :: members[i].memberID != members[k].memberID)
  }

  /** The loop over the members with the set of identities seen so far. */
  method ValidateMembers(members: seq<Member>) returns (ok: bool)
    ensures ok <==> ValidMembers(members)
  {
    var seen: set<string> := {};
    for k := 0 to |members|
      invariant ValidMembers(members[..k])
      invariant forall id :: id in seen <==> exists i :: 0 <= i < k && members[i].memberID == id
    {
      var member := members[k];
      if !ValidMember(member) || member.memberID in seen {
        return false;
      }
      seen := seen + {member.memberID};
      assert members[..k + 1] == members[..k] + [member];
    }
    assert members[..|members|] == members;
    ok := true;
  }

  // ---------------------------------------------------------------------------------------
  // Support for the final value.
  // ---------------------------------------------------------------------------------------

  predicate AtMost(anchor: WireValue, value: WireValue) {
    && anchor.databaseIDHex == value.databaseIDHex
    && anchor.minimumCommitSequence <= value.minimumCommitSequence
    && anchor.minimumGeneration <= value.minimumGeneration
  }

  /** The member holds this very anchor. */
  predicate Observes(m: Member, value: WireValue) {
    m.state != Missing && AtMost(m.anchor, value) && AtMost(value, m.anchor)
  }

  ghost function MissingAmong(members: seq<Member>, k: nat): set<nat>
    requires k <= |members|
  {
    set i: nat | i < k && members[i].state == Missing
  }

  ghost function DominatedAmong(members: seq<Member>, k: nat, value: WireValue): set<nat>
    requires k <= |members|
  {
    set i: nat | i < k && (members[i].state == Missing || AtMost(members[i].anchor, value))
  }

  /**
   An absent final value needs a quorum of empty members; a present one must be held by a member and
   be ahead of a quorum.
   */
  ghost predicate Supported(value: WireValue, members: seq<Member>, quorum: nat) {
    if !value.present then |MissingAmong(members, |members|)| >= quorum
    else
      && |DominatedAmong(members, |members|, value)| >= quorum
      && exists i :: 0 <= i < |members| && Observes(members[i], value)
  }

  method FinalValueSupported(value: WireValue, members: seq<Member>, quorum: nat) returns (supported: bool)
    ensures supported <==> Supported(value, members, quorum)
  {
    if !value.present {
      var missing := 0;
      for k := 0 to |members|
        invariant missing == |MissingAmong(members, k)|
      {
        MissingStep(members, k);
        if members[k].state == Missing {
          missing := missing + 1;
        }
      }
      return missing >= quorum;
    }
    var dominated, observed := 0, false;
    for k := 0 to |members|
      invariant dominated == |DominatedAmong(members, k, value)|
      invariant observed <==> exists i :: 0 <= i < k && Observes(members[i], value)
    {
      DominatedStep(members, k, value);
      if members[k].state == Missing {
        dominated := dominated + 1;
      } else if AtMost(members[k].anchor, value) {
        dominated := dominated + 1;
        if members[k].anchor.minimumCommitSequence == value.minimumCommitSequence
           && members[k].anchor.minimumGeneration == value.minimumGeneration {
          observed := true;
        }
      }
    }
    supported := observed && dominated >= quorum;
  }

  lemma MissingStep(members: seq<Member>, k: nat)
    requires k < |members|
    ensures MissingAmong(members, 0) == {}
    ensures |MissingAmong(members, k + 1)| == |MissingAmong(members, k)| + if members[k].state == Missing then 1 else 0
  {
    assert MissingAmong(members, k + 1) ==
           if members[k].state == Missing then MissingAmong(members, k) + {k} else MissingAmong(members, k);
  }

  lemma DominatedStep(members: seq<Member>, k: nat, value: WireValue)
    requires k < |members|
    ensures |DominatedAmong(members, k + 1, value)|
         == |DominatedAmong(members, k, value)| + if members[k].state == Missing || AtMost(members[k].anchor, value)
           then 1 else 0
  {
    assert DominatedAmong(members, k + 1, value) ==
           if members[k].state == Missing || AtMost(members[k].anchor, value)
           then DominatedAmong(members, k, value) + {k} else DominatedAmong(members, k, value);
  }

  /** The members that hold at least the anchor. */
  ghost function Holders(members: seq<Member>, anchor: WireValue): set<nat> {
    set i: nat | i < |members| && members[i].state == Available && AtMost(anchor, members[i].anchor)
  }

  /** An anchor held by a majority is never lost from a supported final value, whatever the number of members. */
  lemma QuorumAnchorIsKept(members: seq<Member>, value: WireValue, anchor: WireValue)
    requires Supported(value, members, |members| / 2 + 1)
    requires |Holders(members, anchor)| >= |members| / 2 + 1
    ensures value.present && AtMost(anchor, value)
  {
    var n := |members|;
    var support := if value.present then DominatedAmong(members, n, value) else MissingAmong(members, n);
    assert support <= Below(n) && Holders(members, anchor) <= Below(n);
    var m := MajoritiesMeet(n, support, Holders(members, anchor));
    assert members[m].state == Available;
  }

  /** A member that does not hold the anchor and is ahead of a quorum of members. */
  ghost predicate LeadsWithout(members: seq<Member>, quorum: nat, anchor: WireValue, i: nat) {
    && i < |members| && members[i].state == Available && !AtMost(anchor, members[i].anchor)
    && |DominatedAmong(members, |members|, members[i].anchor)| >= quorum
  }

  /**
   Exactly when every supported final value keeps an anchor, for any members, ordered or crossed, and
   any quorum: neither is a quorum missing nor does a member lead a quorum without the anchor.
   */
  lemma KeptIffNoneLeadsWithout(members: seq<Member>, quorum: nat, anchor: WireValue)
    requires ValidMembers(members)
    ensures (forall value | Supported(value, members, quorum) :: value.present && AtMost(anchor, value))
       <==> |MissingAmong(members, |members|)| < quorum && forall i: nat :: !LeadsWithout(members, quorum, anchor, i)
  {
    if |MissingAmong(members, |members|)| >= quorum {
      assert Supported(NO_VALUE, members, quorum);
    }
    forall i: nat | LeadsWithout(members, quorum, anchor, i) ensures Supported(members[i].anchor, members, quorum) {
      assert ValidMember(members[i]) && Observes(members[i], members[i].anchor);
    }
    forall value | Supported(value, members, quorum) && value.present && !AtMost(anchor, value)
      ensures exists i: nat :: LeadsWithout(members, quorum, anchor, i)
    {
      var i :| 0 <= i < |members| && Observes(members[i], value);
      assert ValidMember(members[i]) && members[i].anchor == value;
      assert LeadsWithout(members, quorum, anchor, i);
    }
  }

  /** The available ones among these members are pairwise ordered. */
  ghost predicate Ordered(members: seq<Member>, some: set<nat>) {
    && (forall i | i in some :: i < |members|)
    && (forall i, k | i in some && k in some && members[i].state == Available && members[k].state == Available ::
          AtMost(members[i].anchor, members[k].anchor) || AtMost(members[k].anchor, members[i].anchor))
  }

  /** Among ordered members there is an available one ahead of all available ones, unless all are missing. */
  lemma {:induction false} OrderedHasTop(members: seq<Member>, some: set<nat>) returns (top: nat)
    requires Ordered(members, some) && exists i :: i in some && members[i].state == Available
    ensures top in some && members[top].state == Available
    ensures forall i | i in some && members[i].state == Available :: AtMost(members[i].anchor, members[top].anchor)
  {
    top :| top in some && members[top].state == Available;
    var rest := some - {top};
    assert some == rest + {top};
    if exists i :: i in rest && members[i].state == Available {
      var best := OrderedHasTop(members, rest);
      if AtMost(members[top].anchor, members[best].anchor) {
        top := best;
      }
    }
  }

  /**
   If fewer than a majority hold the anchor and the other members are ordered, a final value that
   loses the anchor is supported.
   */
  lemma FewerHoldersLose(members: seq<Member>, anchor: WireValue) returns (value: WireValue)
    requires ValidMembers(members) && |members| % 2 == 1
    requires |Holders(members, anchor)| < |members| / 2 + 1
    requires Ordered(members, Below(|members|) - Holders(members, anchor))
    ensures Supported(value, members, |members| / 2 + 1) && !(value.present && AtMost(anchor, value))
  {
    var n, others := |members|, Below(|members|) - Holders(members, anchor);
    assert Holders(members, anchor) <= Below(n);
    assert |others| == n - |Holders(members, anchor)| >= n / 2 + 1;
    assert forall i | i in others :: ValidMember(members[i]);
    if exists i :: i in others && members[i].state == Available {
      var top := OrderedHasTop(members, others);
      value := members[top].anchor;
      assert ValidMember(members[top]) && top !in Holders(members, anchor);
      assert others <= DominatedAmong(members, n, value);
      SubsetSize(others, DominatedAmong(members, n, value));
      assert Observes(members[top], value);
    } else {
      value := NO_VALUE;
      assert others <= MissingAmong(members, n);
      SubsetSize(others, MissingAmong(members, n));
    }
  }

  /** On ordered members a majority of holders is exactly what keeps an anchor in every supported final value. */
  lemma KeptIffMajorityHolds(members: seq<Member>, anchor: WireValue)
    requires ValidMembers(members) && |members| % 2 == 1
    requires Ordered(members, Below(|members|) - Holders(members, anchor))
    ensures (forall value | Supported(value, members, |members| / 2 + 1) :: value.present && AtMost(anchor, value))
       <==> |Holders(members, anchor)| >= |members| / 2 + 1
  {
    if |Holders(members, anchor)| >= |members| / 2 + 1 {
      forall value | Supported(value, members, |members| / 2 + 1) ensures value.present && AtMost(anchor, value) {
        QuorumAnchorIsKept(members, value, anchor);
      }
    } else {
      var value := FewerHoldersLose(members, anchor);
    }
  }
}
