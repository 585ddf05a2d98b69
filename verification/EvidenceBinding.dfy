/**
 What accepted evidence is bound to: every accepted fragment is signed over exactly its contents by the
 listed or own key, and nothing in it can be changed without being refused.
 */
module EvidenceBinding {

  import opened AnchorHistory
  import opened HistoryWire
  import opened Options
  import opened AgentEvidence
  import opened AgentHandler
  import opened AgentProtocol

  /** Signed over exactly its contents, by this agent and key, about a request of this run and configuration. */
  predicate SignedOver(f: Fragment, agentID: string, key: string) {
    && f.signature.SignatureOver? && f.signature.key == key && f.signature.body == f.body
    && f.body.signingPublicKey == key && f.body.request.agentID == agentID
  }

  /** The signed digest and the signed times are those of the signed request. */
  predicate Consistent(f: Fragment) {
    && f.body.requestSHA256 == Sha256(f.body.request)
    && 0 != f.body.startedAt <= f.body.finishedAt
    && f.body.request.issuedAt - 30_000_000_000 <= f.body.startedAt
    && f.body.finishedAt <= f.body.request.expiresAt + 1_000_000_000
    && (f.body.outcome == Succeeded || f.body.outcome == Failed)
    && (f.body.request.kind == Advance ==> f.body.value == f.body.request.target)
    && (f.body.request.kind == Load && f.body.outcome == Failed ==> f.body.value == NO_VALUE)
    && (f.body.request.kind == Load && f.body.outcome == Succeeded ==> ValueFromWire(f.body.value).Some?)
  }

  predicate OfRun(f: Fragment, runID: string, configurationID: string, sourceRevision: string) {
    && f.body.request.runID == runID && f.body.request.configurationID == configurationID
    && f.body.request.sourceRevision == sourceRevision && f.body.sourceRevision == sourceRevision
  }

  // ---------------------------------------------------------------------------------------
  // Controller records.
  // ---------------------------------------------------------------------------------------

  /** Accepted evidence is signed, bound and consistent. */
  lemma EvidenceMeans(f: Fragment, agentID: string, key: string, runID: string, configurationID: string,
                      sourceRevision: string)
    requires Evidence(f, agentID, key, runID, configurationID, sourceRevision)
    ensures SignedOver(f, agentID, key) && OfRun(f, runID, configurationID, sourceRevision) && Consistent(f)
  {
  }

  lemma SignerOf(r: Record, i: nat) returns (k: nat)
    requires ValidEvidence(r) && i < |r.fragments|
    ensures k < |r.agents| && SignedBy(r, r.fragments[i], r.agents[k])
  {
    assert SignedByListed(r, r.fragments[i]);
    k :| 0 <= k < |r.agents| && SignedBy(r, r.fragments[i], r.agents[k]);
  }

  lemma OneAgentOf(agents: seq<AgentIdentity>, k: nat, l: nat)
    requires ValidAgents(agents) && k < |agents| && l < |agents| && agents[k].agentID == agents[l].agentID
    ensures k == l
  {
  }

  /** Every fragment of an accepted record is signed by exactly one listed agent, for the record's run. */
  lemma RecordIsSigned(r: Record, i: nat) returns (k: nat)
    requires ValidEvidence(r) && i < |r.fragments|
    ensures k < |r.agents| && SignedOver(r.fragments[i], r.agents[k].agentID, r.agents[k].signingPublicKey)
    ensures OfRun(r.fragments[i], r.runID, r.configurationID, r.sourceRevision) && Consistent(r.fragments[i])
    ensures forall l | 0 <= l < |r.agents| && r.agents[l].agentID == AgentOf(r.fragments[i]) :: l == k
  {
    k := SignerOf(r, i);
    var a := r.agents[k];
    EvidenceMeans(r.fragments[i], a.agentID, a.signingPublicKey, r.runID, r.configurationID, r.sourceRevision);
    forall l | 0 <= l < |r.agents| && r.agents[l].agentID == AgentOf(r.fragments[i]) ensures l == k {
      OneAgentOf(r.agents, k, l);
    }
  }

  /** The record with another fragment in this place. */
  function WithFragment(r: Record, i: nat, f: Fragment): Record
    requires i < |r.fragments|
  {
    r.(fragments := r.fragments[i := f])
  }

  lemma RefusedUnlessSigned(r: Record, i: nat, f: Fragment)
    requires i < |r.fragments| && (f.signature.SignatureOver? ==> f.signature.body != f.body)
    ensures !ValidEvidence(WithFragment(r, i, f))
  {
    assert WithFragment(r, i, f).fragments[i] == f;
    assert !SignedByListed(WithFragment(r, i, f), f);
  }

  /** Changing what a fragment of an accepted record says without signing it again makes the record refused. */
  lemma RecordBodyIsPinned(r: Record, i: nat, body: Body)
    requires ValidEvidence(r) && i < |r.fragments| && body != r.fragments[i].body
    ensures !ValidEvidence(WithFragment(r, i, r.fragments[i].(body := body)))
  {
    var k := RecordIsSigned(r, i);
    RefusedUnlessSigned(r, i, r.fragments[i].(body := body));
  }

  /** So does replacing its signature by any other value. */
  lemma RecordSignatureIsPinned(r: Record, i: nat, signature: Signature)
    requires ValidEvidence(r) && i < |r.fragments| && signature != r.fragments[i].signature
    ensures !ValidEvidence(WithFragment(r, i, r.fragments[i].(signature := signature)))
  {
    var k := RecordIsSigned(r, i);
    var f := r.fragments[i].(signature := signature);
    var r' := WithFragment(r, i, f);
    assert r'.fragments[i] == f;
    forall l | 0 <= l < |r'.agents| ensures !SignedBy(r', f, r'.agents[l]) {
      assert r'.agents[l].agentID == AgentOf(f) ==> l == k;
    }
    assert !SignedByListed(r', f);
  }

  lemma OnlyOneAgrees(fragments: seq<Fragment>, k: nat, before: WireOperation, after: WireOperation)
    requires DistinctFragments(fragments) && k < |fragments| && Agrees(before, fragments[k]) && after.id == before.id
    requires after.kind != before.kind || after.outcome != before.outcome || after.value != before.value
    ensures forall l | 0 <= l < |fragments| :: !Agrees(after, fragments[l])
  {
    forall l | 0 <= l < |fragments| ensures !Agrees(after, fragments[l]) {
      if l < k {
        assert OperationOf(fragments[l]) != OperationOf(fragments[k]);
      } else if k < l {
        assert OperationOf(fragments[k]) != OperationOf(fragments[l]);
      }
    }
  }

  lemma FragmentFor(r: Record, i: nat) returns (k: nat)
    requires ValidEvidence(r) && i < |r.operations|
    ensures k < |r.fragments| && Agrees(r.operations[i], r.fragments[k]) && DistinctFragments(r.fragments)
  {
    assert Evidenced(r, r.operations[i]);
    k :| 0 <= k < |r.fragments| && Agrees(r.operations[i], r.fragments[k]);
  }

  lemma RefusedUnlessEvidenced(r: Record, i: nat)
    requires i < |r.operations| && forall l | 0 <= l < |r.fragments| :: !Agrees(r.operations[i], r.fragments[l])
    ensures !ValidEvidence(r)
  {
    assert !Evidenced(r, r.operations[i]);
  }

  /** So does changing what the record says of an operation. */
  lemma RecordOperationIsPinned(r: Record, i: nat, op: WireOperation)
    requires ValidEvidence(r) && i < |r.operations| && op.id == r.operations[i].id
    requires op.kind != r.operations[i].kind || op.outcome != r.operations[i].outcome
             || op.value != r.operations[i].value
    ensures !ValidEvidence(r.(operations := r.operations[i := op]))
  {
    var k := FragmentFor(r, i);
    OnlyOneAgrees(r.fragments, k, r.operations[i], op);
    RefusedUnlessEvidenced(r.(operations := r.operations[i := op]), i);
  }

  // ---------------------------------------------------------------------------------------
  // Journals.
  // ---------------------------------------------------------------------------------------

  /** Every result that recovery accepts is signed by the agent's own key over exactly its contents. */
  lemma JournalIsSigned(c: Config, j: Journal, name: string)
    requires Loadable(c, j) && name in j.results
    ensures j.results[name].Complete? && SignedOver(j.results[name].content, c.agentID, c.signingPublicKey)
    ensures Consistent(j.results[name].content) && j.identity.Some? && j.identity.value.Complete?
    ensures OfRun(j.results[name].content, j.identity.value.content.runID, c.configurationID, c.sourceRevision)
    ensures name in j.requests && j.requests[name].Complete?
    ensures j.requests[name].content == j.results[name].content.body.request
  {
    assert LoadsResult(c, j.identity.value.content.runID, j.requests, name, j.results[name]);
  }

  /** The journal with another result in this place. */
  function WithResult(j: Journal, name: string, f: Fragment): Journal {
    j.(results := j.results[name := Complete(f, true)])
  }

  /** Changing a result, its signature or its contents, makes the journal refused unless it is signed again. */
  lemma JournalResultIsPinned(c: Config, j: Journal, name: string, body: Body, signature: Signature)
    requires Loadable(c, j) && name in j.results
    ensures j.results[name].Complete?
    ensures body != j.results[name].content.body ==>
              !Loadable(c, WithResult(j, name, j.results[name].content.(body := body)))
    ensures signature != j.results[name].content.signature ==>
              !Loadable(c, WithResult(j, name, j.results[name].content.(signature := signature)))
  {
    JournalIsSigned(c, j, name);
    var f := j.results[name].content;
    if body != f.body {
      UnsignedIsRefused(c, j, name, f.(body := body));
    }
    if signature != f.signature {
      UnsignedIsRefused(c, j, name, f.(signature := signature));
    }
  }

  lemma UnsignedIsRefused(c: Config, j: Journal, name: string, f: Fragment)
    requires !SignedOver(f, c.agentID, c.signingPublicKey)
    ensures !Loadable(c, WithResult(j, name, f))
  {
    var j' := WithResult(j, name, f);
    if Loadable(c, j') {
      assert j'.results[name] == Complete(f, true);
      JournalIsSigned(c, j', name);
    }
  }

  /**
   Which other configurations accept a journal: exactly those with the same agent, configuration, source,
   build and key; the runtime may differ.
   */
  lemma IdentityDecides(c: Config, d: Config, j: Journal)
    requires Loadable(c, j) && j != EMPTY_JOURNAL
    ensures Loadable(d, j) <==>
              && d.agentID == c.agentID && d.configurationID == c.configurationID
              && d.sourceRevision == c.sourceRevision
              && d.buildRevision == c.buildRevision && d.buildModified == c.buildModified
              && d.signingPublicKey == c.signingPublicKey
  {
  }
}
