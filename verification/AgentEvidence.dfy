/** The controller's record: every operation must match a signed agent result, one to one. */
module AgentEvidence {

  import opened AnchorHistory
  import opened HistoryWire
  import opened Permutations

  datatype AgentIdentity = AgentIdentity(agentID: string, endpointSHA256: string, signingPublicKey: string)

  datatype WireOperation = WireOperation(id: string, kind: Kind, outcome: Outcome, invoke: nat, ret: nat,
                                         value: WireValue)

  datatype Record = Record(
    runID: string, configurationID: string, sourceRevision: string,
    agents: seq<AgentIdentity>, fragments: seq<Fragment>, operations: seq<WireOperation>)

  function AgentOf(f: Fragment): string { f.body.request.agentID }

  function OperationOf(f: Fragment): string { f.body.request.operationID }

  // ---------------------------------------------------------------------------------------
  // What an accepted record means.
  // ---------------------------------------------------------------------------------------

  predicate ValidAgent(a: AgentIdentity) {
    IsSafeName(a.agentID, 64) && IsHexDigest(a.endpointSHA256) && a.signingPublicKey != ""
  }

  predicate ValidAgents(agents: seq<AgentIdentity>) {
    && (forall i | 0 <= i < |agents| :: ValidAgent(agents[i]))
    && (forall i, j | 0 <= i < j < |agents| :: agents[i].agentID != agents[j].agentID)
  }

  /** The fragment carries valid evidence of this agent for the record's run. */
  predicate SignedBy(r: Record, f: Fragment, a: AgentIdentity) {
    a.agentID == AgentOf(f) && Evidence(f, a.agentID, a.signingPublicKey, r.runID, r.configurationID, r.sourceRevision)
  }

  ghost predicate SignedByListed(r: Record, f: Fragment) {
    exists i :: 0 <= i < |r.agents| && SignedBy(r, f, r.agents[i])
  }

  ghost predicate HasSigned(r: Record, a: AgentIdentity) {
    exists i :: 0 <= i < |r.fragments| && AgentOf(r.fragments[i]) == a.agentID
  }

  predicate Agrees(op: WireOperation, f: Fragment) {
    op.id == OperationOf(f) && op.kind == f.body.request.kind && op.outcome == f.body.outcome
    && op.value == f.body.value
  }

  ghost predicate Evidenced(r: Record, op: WireOperation) {
    exists i :: 0 <= i < |r.fragments| && Agrees(op, r.fragments[i])
  }

  predicate DistinctFragments(fragments: seq<Fragment>) {
    forall i, j | 0 <= i < j < |fragments| :: OperationOf(fragments[i]) != OperationOf(fragments[j])
  }

  ghost predicate ValidEvidence(r: Record) {
    && 2 <= |r.agents| <= 16 && |r.fragments| == |r.operations|
    && ValidAgents(r.agents)
    && (forall i | 0 <= i < |r.fragments| :: SignedByListed(r, r.fragments[i]))
    && DistinctFragments(r.fragments)
    && (forall i | 0 <= i < |r.agents| :: HasSigned(r, r.agents[i]))
    && (forall i | 0 <= i < |r.operations| :: Evidenced(r, r.operations[i]))
  }

  // ---------------------------------------------------------------------------------------
  // The validator.
  // ---------------------------------------------------------------------------------------

  /** The map from agent IDs to the agents listed under them. */
  ghost predicate Indexes(index: map<string, AgentIdentity>, agents: seq<AgentIdentity>) {
    && (forall i | 0 <= i < |agents| :: agents[i].agentID in index && index[agents[i].agentID] == agents[i])
    && (forall id | id in index :: index[id] in agents && index[id].agentID == id)
  }

  method IndexAgents(agents: seq<AgentIdentity>) returns (ok: bool, index: map<string, AgentIdentity>)
    ensures ok <==> ValidAgents(agents)
    ensures ok ==> Indexes(index, agents)
  {
    index := map[];
    for k := 0 to |agents|
      invariant ValidAgents(agents[..k]) && Indexes(index, agents[..k])
    {
      var identity := agents[k];
      if !ValidAgent(identity) {
        return false, index;
      }
      if identity.agentID in index {
        assert index[identity.agentID] in agents[..k];
        return false, index;
      }
      index := index[identity.agentID := identity];
      assert agents[..k + 1] == agents[..k] + [identity];
    }
    assert agents[..|agents|] == agents;
    ok := true;
  }

  ghost predicate Collects(byID: map<string, Fragment>, fragments: seq<Fragment>) {
    && (forall i | 0 <= i < |fragments| ::
          OperationOf(fragments[i]) in byID && byID[OperationOf(fragments[i])] == fragments[i])
    && (forall id | id in byID :: byID[id] in fragments && OperationOf(byID[id]) == id)
  }

  ghost predicate Accepted(index: map<string, AgentIdentity>, accepts: (Fragment, AgentIdentity) -> bool, f: Fragment) {
    AgentOf(f) in index && accepts(f, index[AgentOf(f)])
  }

  method CollectFragments(fragments: seq<Fragment>, index: map<string, AgentIdentity>,
                          accepts: (Fragment, AgentIdentity) -> bool)
    returns (ok: bool, byID: map<string, Fragment>, used: set<string>)
    ensures ok <==>
              DistinctFragments(fragments) && forall i | 0 <= i < |fragments| :: Accepted(index, accepts, fragments[i])
    ensures ok ==> Collects(byID, fragments)
    ensures ok ==> used == set f | f in fragments :: AgentOf(f)
  {
    byID, used := map[], {};
    for k := 0 to |fragments|
      invariant DistinctFragments(fragments[..k]) && Collects(byID, fragments[..k])
      invariant forall i | 0 <= i < k :: Accepted(index, accepts, fragments[i])
      invariant used == set f | f in fragments[..k] :: AgentOf(f)
    {
      var f := fragments[k];
      if AgentOf(f) !in index || !accepts(f, index[AgentOf(f)]) {
        return false, byID, used;
      }
      if OperationOf(f) in byID {
        assert byID[OperationOf(f)] in fragments[..k];
        return false, byID, used;
      }
      byID := byID[OperationOf(f) := f];
      used := used + {AgentOf(f)};
      assert fragments[..k + 1] == fragments[..k] + [f];
    }
    assert fragments[..|fragments|] == fragments;
    ok := true;
  }

  method MatchOperations(operations: seq<WireOperation>, byID: map<string, Fragment>) returns (ok: bool)
    requires forall id | id in byID :: OperationOf(byID[id]) == id
    ensures ok <==>
              forall i | 0 <= i < |operations| ::
                  operations[i].id in byID && Agrees(operations[i], byID[operations[i].id])
  {
    for k := 0 to |operations|
      invariant forall i | 0 <= i < k :: operations[i].id in byID && Agrees(operations[i], byID[operations[i].id])
    {
      var op := operations[k];
      if op.id !in byID || op.kind != byID[op.id].body.request.kind || op.outcome != byID[op.id].body.outcome
         || op.value != byID[op.id].body.value {
        return false;
      }
    }
    ok := true;
  }

  method ValidateAgentEvidence(r: Record) returns (ok: bool)
    ensures ok <==> ValidEvidence(r)
  {
    if |r.agents| < 2 || |r.agents| > 16 || |r.fragments| != |r.operations| {
      return false;
    }
    var index, byID, used;
    ok, index := IndexAgents(r.agents);
    if !ok {
      return;
    }
    var accepts := (f, a) => SignedBy(r, f, a);
    ok, byID, used := CollectFragments(r.fragments, index, accepts);
    SignedIffAccepted(r, index, accepts);
    if !ok {
      return;
    }
    UsedAreListed(r, index, accepts, used);
    AllUsedIffSameSize(r, used);
    if |used| != |r.agents| {
      return false;
    }
    ok := MatchOperations(r.operations, byID);
    EvidencedIffMatched(r, byID);
  }

  lemma SignedIffAccepted(r: Record, index: map<string, AgentIdentity>, accepts: (Fragment, AgentIdentity) -> bool)
    requires Indexes(index, r.agents) && forall f, a :: accepts(f, a) <==> SignedBy(r, f, a)
    ensures (forall i | 0 <= i < |r.fragments| :: Accepted(index, accepts, r.fragments[i]))
       <==> (forall i | 0 <= i < |r.fragments| :: SignedByListed(r, r.fragments[i]))
  {
    forall i | 0 <= i < |r.fragments|
      ensures Accepted(index, accepts, r.fragments[i]) <==> SignedByListed(r, r.fragments[i])
    {
      OneSignedIffAccepted(r, index, accepts, r.fragments[i]);
    }
  }

  lemma OneSignedIffAccepted(r: Record, index: map<string, AgentIdentity>, accepts: (Fragment, AgentIdentity) -> bool,
                             f: Fragment)
    requires Indexes(index, r.agents) && forall g, a :: accepts(g, a) <==> SignedBy(r, g, a)
    ensures Accepted(index, accepts, f) <==> SignedByListed(r, f)
  {
    if Accepted(index, accepts, f) {
      var a := index[AgentOf(f)];
      assert a in r.agents;
      var i :| 0 <= i < |r.agents| && r.agents[i] == a;
      assert SignedBy(r, f, r.agents[i]);
    }
    if SignedByListed(r, f) {
      var i :| 0 <= i < |r.agents| && SignedBy(r, f, r.agents[i]);
      assert index[r.agents[i].agentID] == r.agents[i];
    }
  }

  ghost function AgentIDs(agents: seq<AgentIdentity>): set<string> { set a | a in agents :: a.agentID }

  lemma {:induction false} DistinctIDs(agents: seq<AgentIdentity>)
    requires forall i, j | 0 <= i < j < |agents| :: agents[i].agentID != agents[j].agentID
    ensures |AgentIDs(agents)| == |agents|
  {
    if agents == [] {
    } else {
      var front, last := agents[..|agents| - 1], agents[|agents| - 1];
      DistinctIDs(front);
      assert agents == front + [last];
      assert AgentIDs(agents) == AgentIDs(front) + {last.agentID};
    }
  }

  lemma UsedAreListed(r: Record, index: map<string, AgentIdentity>, accepts: (Fragment, AgentIdentity) -> bool,
                      used: set<string>)
    requires Indexes(index, r.agents) && used == set f | f in r.fragments :: AgentOf(f)
    requires forall i | 0 <= i < |r.fragments| :: Accepted(index, accepts, r.fragments[i])
    ensures used <= AgentIDs(r.agents)
  {
    forall id | id in used ensures id in AgentIDs(r.agents) {
      var f :| f in r.fragments && AgentOf(f) == id;
      assert Accepted(index, accepts, f) && index[id] in r.agents;
    }
  }

  /** Counting the used agents finds out whether every listed agent signed something. */
  lemma AllUsedIffSameSize(r: Record, used: set<string>)
    requires ValidAgents(r.agents) && used == set f | f in r.fragments :: AgentOf(f)
    requires used <= AgentIDs(r.agents)
    ensures |used| == |r.agents| <==> forall i | 0 <= i < |r.agents| :: HasSigned(r, r.agents[i])
  {
    DistinctIDs(r.agents);
    SubsetSize(used, AgentIDs(r.agents));
    forall i | 0 <= i < |r.agents| ensures HasSigned(r, r.agents[i]) <==> r.agents[i].agentID in used {
      SignedIffUsed(r, r.agents[i], used);
    }
    ListedIffAll(r.agents, used);
  }

  lemma SignedIffUsed(r: Record, a: AgentIdentity, used: set<string>)
    requires used == set f | f in r.fragments :: AgentOf(f)
    ensures HasSigned(r, a) <==> a.agentID in used
  {
    if a.agentID in used {
      var f :| f in r.fragments && AgentOf(f) == a.agentID;
    }
  }

  lemma ListedIffAll(agents: seq<AgentIdentity>, used: set<string>)
    requires used <= AgentIDs(agents)
    ensures used == AgentIDs(agents) <==> forall i | 0 <= i < |agents| :: agents[i].agentID in used
  {
    assert forall i | 0 <= i < |agents| :: agents[i].agentID in AgentIDs(agents);
    if forall i | 0 <= i < |agents| :: agents[i].agentID in used {
      assert forall a | a in agents :: a.agentID in used;
    }
  }

  lemma EvidencedIffMatched(r: Record, byID: map<string, Fragment>)
    requires Collects(byID, r.fragments)
    ensures (forall i | 0 <= i < |r.operations| ::
               r.operations[i].id in byID && Agrees(r.operations[i], byID[r.operations[i].id]))
       <==> (forall i | 0 <= i < |r.operations| :: Evidenced(r, r.operations[i]))
  {
    forall i | 0 <= i < |r.operations|
      ensures (r.operations[i].id in byID && Agrees(r.operations[i], byID[r.operations[i].id])) <==>
                Evidenced(r, r.operations[i])
    {
      var op := r.operations[i];
      if op.id in byID && Agrees(op, byID[op.id]) {
        assert byID[op.id] in r.fragments;
        var k :| 0 <= k < |r.fragments| && r.fragments[k] == byID[op.id];
        assert Agrees(op, r.fragments[k]);
      }
    }
  }

  // ---------------------------------------------------------------------------------------
  // One to one.
  // ---------------------------------------------------------------------------------------

  predicate DistinctOperations(operations: seq<WireOperation>) {
    forall i, j | 0 <= i < j < |operations| :: operations[i].id != operations[j].id
  }

  /** `order` pairs every operation with a fragment of its own that agrees with it, and leaves no fragment over. */
  ghost predicate Pairs(r: Record, order: seq<nat>) {
    && IsOrder(|r.operations|, order) && |r.fragments| == |r.operations|
    && forall i | 0 <= i < |order| :: Agrees(r.operations[i], r.fragments[order[i]])
  }

  /** A partner for each of the first operations. */
  lemma {:induction false} PartnersOf(r: Record, k: nat) returns (order: seq<nat>)
    requires k <= |r.operations| && forall i | 0 <= i < k :: Evidenced(r, r.operations[i])
    ensures |order| == k
    ensures forall i | 0 <= i < k :: order[i] < |r.fragments| && Agrees(r.operations[i], r.fragments[order[i]])
  {
    order := [];
    if k == 0 {
    } else {
      order := PartnersOf(r, k - 1);
      assert Evidenced(r, r.operations[k - 1]);
      var partner :| 0 <= partner < |r.fragments| && Agrees(r.operations[k - 1], r.fragments[partner]);
      order := order + [partner];
    }
  }

  lemma DistinctArePaired(r: Record) returns (order: seq<nat>)
    requires |r.fragments| == |r.operations| && forall i | 0 <= i < |r.operations| :: Evidenced(r, r.operations[i])
    requires DistinctOperations(r.operations)
    ensures Pairs(r, order)
  {
    order := PartnersOf(r, |r.operations|);
    forall i, j | 0 <= i < j < |order| ensures order[i] != order[j] {
      assert Agrees(r.operations[i], r.fragments[order[i]]) && Agrees(r.operations[j], r.fragments[order[j]]);
    }
  }

  lemma PairedAreDistinct(r: Record, order: seq<nat>)
    requires DistinctFragments(r.fragments) && Pairs(r, order)
    ensures DistinctOperations(r.operations)
  {
    forall i, j | 0 <= i < j < |r.operations| ensures r.operations[i].id != r.operations[j].id {
      assert order[i] != order[j];
      assert Agrees(r.operations[i], r.fragments[order[i]]) && Agrees(r.operations[j], r.fragments[order[j]]);
    }
  }

  /**
   In an accepted record the operations and the signed fragments are in bijection exactly if the
   operation IDs are distinct.
   */
  lemma PairedIffDistinct(r: Record)
    requires ValidEvidence(r)
    ensures DistinctOperations(r.operations) <==> exists order :: Pairs(r, order)
  {
    if DistinctOperations(r.operations) {
      var order := DistinctArePaired(r);
    }
    if order :| Pairs(r, order) {
      PairedAreDistinct(r, order);
    }
  }

  /** No fragment is left over: each is the evidence of some operation. */
  lemma EveryFragmentIsUsed(r: Record, k: nat) returns (i: nat)
    requires ValidEvidence(r) && DistinctOperations(r.operations) && k < |r.fragments|
    ensures i < |r.operations| && Agrees(r.operations[i], r.fragments[k])
    ensures forall j | 0 <= j < |r.operations| && Agrees(r.operations[j], r.fragments[k]) :: j == i
  {
    var order := DistinctArePaired(r);
    OrderCovers(|r.fragments|, order);
    assert k in order;
    i :| 0 <= i < |order| && order[i] == k;
  }
}
