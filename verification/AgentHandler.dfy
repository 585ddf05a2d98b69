/** The agent's handler object: its critical sections, its exclusive journal writes and its recovery scan. */
module AgentHandler {

  import opened HistoryWire
  import opened Options
  import opened AgentProtocol

  /** How far one exclusive durable write gets when the file does not exist yet. */
  datatype Attempt = NotCreated | LeftTorn | NotSynced | Synced

  /** Exclusive create: an existing file is an error and stays as it is. */
  function WriteExclusive<T>(before: Option<File<T>>, content: T, attempt: Attempt): (r: (Option<File<T>>, bool))
    ensures Writes(before, content, r.1, r.0)
    ensures before.Some? ==> r == (before, false)
    ensures before.None? ==> (r.1 <==> attempt.Synced?)
  {
    if before.Some? || attempt.NotCreated? then (before, false)
    else if attempt.LeftTorn? then (Some(Torn), false)
    else (Some(Complete(content, attempt.Synced?)), attempt.Synced?)
  }

  /** Every outcome the protocol allows for a write is the outcome of some attempt. */
  lemma EveryWriteIsAnAttempt<T>(before: Option<File<T>>, content: T, ok: bool, after: Option<File<T>>)
    returns (attempt: Attempt)
    requires Writes(before, content, ok, after)
    ensures WriteExclusive(before, content, attempt) == (after, ok)
  {
    attempt := if ok then Synced else if after == before then NotCreated else if after == Some(Torn) then LeftTorn
      else NotSynced;
  }

  function Stored<T>(files: map<string, File<T>>, name: string, file: Option<File<T>>): map<string, File<T>> {
    match file
    case None => files
    case Some(f) => files[name := f]
  }

  // ---------------------------------------------------------------------------------------
  // Recovery.
  // ---------------------------------------------------------------------------------------

  /** A directory listing, grouped by file name prefix. */
  datatype Listing = Listing(
    identity: Option<File<Identity>>, requests: seq<(string, File<Request>)>, results: seq<(string, File<Fragment>)>,
    unexpected: seq<string>)

  ghost predicate Listed<T>(entries: seq<(string, File<T>)>, name: string, file: File<T>) {
    exists k :: 0 <= k < |entries| && entries[k] == (name, file)
  }

  ghost predicate ListsFiles<T>(entries: seq<(string, File<T>)>, files: map<string, File<T>>) {
    && (forall i, k | 0 <= i < k < |entries| :: entries[i].0 != entries[k].0)
    && (forall k | 0 <= k < |entries| :: entries[k].0 in files && files[entries[k].0] == entries[k].1)
    && (forall name | name in files :: Listed(entries, name, files[name]))
  }

  /** The listing names the journal's files, each once, and possibly other files. */
  ghost predicate Lists(l: Listing, j: Journal) {
    l.identity == j.identity && ListsFiles(l.requests, j.requests) && ListsFiles(l.results, j.results)
  }

  /**
   One pass over the files of one kind. It stops at the first file that is torn or refused, and
   otherwise collects every file's content under the file's own name.
   */
  method Scan<T>(entries: seq<(string, File<T>)>, ghost files: map<string, File<T>>, accepts: (string, T) -> bool)
    returns (ok: bool, loaded: map<string, T>)
    requires ListsFiles(entries, files)
    ensures ok <==> forall name | name in files :: files[name].Complete? && accepts(name, files[name].content)
    ensures ok ==> loaded.Keys == files.Keys && forall name | name in loaded :: loaded[name] == files[name].content
  {
    loaded := map[];
    for i := 0 to |entries|
      invariant forall k | 0 <= k < i :: entries[k].0 in loaded
      invariant forall name | name in loaded ::
                  && name in files && files[name].Complete? && accepts(name, files[name].content)
                  && loaded[name] == files[name].content
    {
      var (name, file) := entries[i];
      if file.Torn? || !accepts(name, file.content) {
        return false, loaded;
      }
      loaded := loaded[name := file.content];
    }
    forall name | name in files ensures name in loaded {
      assert Listed(entries, name, files[name]);
    }
    ok := true;
  }

  /** The first pass accepts a valid request of the run under its own name. */
  predicate AcceptsRequest(c: Config, runID: string, name: string, q: Request) {
    && ValidStatic(q, c.agentID, c.configurationID, c.sourceRevision)
    && q.runID == runID && q.operationID == name
  }

  /** The second pass accepts valid evidence for exactly the reserved request. */
  predicate AcceptsResult(c: Config, runID: string, requests: map<string, Request>, name: string, f: Fragment) {
    && f.body.request.operationID in requests && requests[f.body.request.operationID] == f.body.request
    && f.body.request.operationID == name
    && Evidence(f, c.agentID, c.signingPublicKey, runID, c.configurationID, c.sourceRevision)
  }

  ghost predicate RequestsLoad(c: Config, runID: string, files: map<string, File<Request>>) {
    forall name | name in files :: LoadsRequest(c, runID, name, files[name])
  }

  ghost predicate ResultsLoad(c: Config, runID: string, requests: map<string, File<Request>>,
                              files: map<string, File<Fragment>>)
  {
    forall name | name in files :: LoadsResult(c, runID, requests, name, files[name])
  }

  ghost predicate ContentsOf<T>(files: map<string, File<T>>, contents: map<string, T>) {
    && contents.Keys == files.Keys
    && forall name | name in contents :: files[name].Complete? && contents[name] == files[name].content
  }

  method LoadRequests(c: Config, runID: string, l: Listing, ghost j: Journal)
    returns (ok: bool, requests: map<string, Request>)
    requires Lists(l, j)
    ensures ok <==> RequestsLoad(c, runID, j.requests)
    ensures ok ==> ContentsOf(j.requests, requests)
  {
    ok, requests := Scan(l.requests, j.requests, (name, q) => AcceptsRequest(c, runID, name, q));
  }

  method LoadResults(c: Config, runID: string, l: Listing, requests: map<string, Request>, ghost j: Journal)
    returns (ok: bool, results: map<string, Fragment>)
    requires Lists(l, j) && ContentsOf(j.requests, requests)
    ensures ok <==> ResultsLoad(c, runID, j.requests, j.results)
    ensures ok ==> ContentsOf(j.results, results)
  {
    ok, results := Scan(l.results, j.results, (name, f) => AcceptsResult(c, runID, requests, name, f));
  }

  /** The journals an agent with this configuration accepts. */
  ghost predicate Loadable(c: Config, j: Journal) {
    j != EMPTY_JOURNAL ==>
      && j.identity.Some? && j.identity.value.Complete? && IdentityMatches(c, j.identity.value.content)
      && RequestsLoad(c, j.identity.value.content.runID, j.requests)
      && ResultsLoad(c, j.identity.value.content.runID, j.requests, j.results)
      && |j.requests| <= MAX_RESERVATIONS
  }

  /** Those are the journals from which some memory can be restored, and that memory is determined. */
  lemma LoadsOnlyLoadable(c: Config, j: Journal, m: Memory, m': Memory)
    requires Loads(c, j, m) && Loads(c, j, m')
    ensures Loadable(c, j) && m == m'
  {
    if j != EMPTY_JOURNAL {
      assert m.digests.Keys == j.requests.Keys;
      assert |m.digests| == |m.digests.Keys| && |j.requests| == |j.requests.Keys|;
      assert m.results == m'.results;
    }
  }

  lemma NothingListed(l: Listing, j: Journal)
    requires Lists(l, j)
    ensures j == EMPTY_JOURNAL <==> l.identity == None && l.requests == [] && l.results == []
  {
    if l.requests == [] {
      assert forall name | name in j.requests :: Listed(l.requests, name, j.requests[name]);
      assert j.requests == map[];
    } else {
      assert l.requests[0].0 in j.requests;
    }
    if l.results == [] {
      assert forall name | name in j.results :: Listed(l.results, name, j.results[name]);
      assert j.results == map[];
    } else {
      assert l.results[0].0 in j.results;
    }
  }

  /** What the two passes establish is that the journal loads. */
  lemma Restores(c: Config, j: Journal, m: Memory, requests: map<string, Request>)
    requires j.identity.Some? && j.identity.value.Complete? && IdentityMatches(c, j.identity.value.content)
    requires m.runID == j.identity.value.content.runID && m.inFlight == map[]
    requires RequestsLoad(c, m.runID, j.requests) && ResultsLoad(c, m.runID, j.requests, j.results)
    requires ContentsOf(j.requests, requests) && ContentsOf(j.results, m.results) && |m.digests| <= MAX_RESERVATIONS
    requires m.digests == map name | name in requests :: Sha256(requests[name])
    ensures Loads(c, j, m)
  {
  }

  /** The two passes and the limit, once the identity has been accepted. */
  method ReadEntries(c: Config, runID: string, l: Listing, ghost j: Journal) returns (r: Option<Memory>)
    requires Lists(l, j)
    requires j.identity.Some? && j.identity.value.Complete? && IdentityMatches(c, j.identity.value.content)
    requires runID == j.identity.value.content.runID
    ensures r.Some? <==> l.unexpected == [] && RequestsLoad(c, runID, j.requests)
                         && ResultsLoad(c, runID, j.requests, j.results) && |j.requests| <= MAX_RESERVATIONS
    ensures r.Some? ==> Loads(c, j, r.value) && r.value.inFlight == map[]
  {
    var ok, requests := LoadRequests(c, runID, l, j);
    if !ok || l.unexpected != [] {
      return None;
    }
    var results;
    ok, results := LoadResults(c, runID, l, requests, j);
    if !ok {
      return None;
    }
    var digests := map name | name in requests :: Sha256(requests[name]);
    assert |digests| == |digests.Keys| && |j.requests| == |j.requests.Keys| && digests.Keys == j.requests.Keys;
    if |digests| > MAX_RESERVATIONS {
      return None;
    }
    var m := Memory(runID, results, digests, map[]);
    Restores(c, j, m, requests);
    r := Some(m);
  }

  /**
   The recovery scan succeeds exactly on a journal this configuration accepts, with no unexpected
   entries, and then restores exactly the memory that the journal stands for.
   */
  method ReadJournal(c: Config, l: Listing, ghost j: Journal) returns (r: Option<Memory>)
    requires Lists(l, j)
    ensures r.Some? <==> l.unexpected == [] && Loadable(c, j)
    ensures r.Some? ==> Loads(c, j, r.value) && r.value.inFlight == map[]
  {
    NothingListed(l, j);
    if l.identity.None? && l.requests == [] && l.results == [] {
      return if l.unexpected == [] then Some(FRESH) else None;
    }
    if l.identity.None? || l.identity.value.Torn? || !IdentityMatches(c, l.identity.value.content) {
      return None;
    }
    r := ReadEntries(c, l.identity.value.content.runID, l, j);
  }

  class Handler {
    const config: Config
    var runID: string
    var results: map<string, Fragment>
    var requestDigests: map<string, Digest>
    var inFlight: map<string, nat>
    var journal: Journal

    ghost function View(): Memory
      reads this
    {
      Memory(runID, results, requestDigests, inFlight)
    }

    constructor (config: Config, journal: Journal)
      ensures this.config == config && this.journal == journal && View() == FRESH
    {
      this.config, this.journal := config, journal;
      runID, results, requestDigests, inFlight := "", map[], map[], map[];
    }

    method PersistRunIdentity(run: string, attempt: Attempt) returns (ok: bool)
      modifies `journal
      ensures Writes(old(journal).identity, IdentityOf(config, run), ok, journal.identity)
      ensures journal == old(journal).(identity := journal.identity)
    {
      var (file, written) := WriteExclusive(journal.identity, IdentityOf(config, run), attempt);
      journal := journal.(identity := file);
      ok := written;
    }

    method PersistRequest(q: Request, attempt: Attempt) returns (ok: bool)
      modifies `journal
      ensures WritesAt(old(journal).requests, q.operationID, q, ok, journal.requests)
      ensures journal == old(journal).(requests := journal.requests)
    {
      var (file, written) := WriteExclusive(Lookup(journal.requests, q.operationID), q, attempt);
      journal := journal.(requests := Stored(journal.requests, q.operationID, file));
      ok := written;
    }

    method PersistResult(f: Fragment, attempt: Attempt) returns (ok: bool)
      modifies `journal
      ensures WritesAt(old(journal).results, f.body.request.operationID, f, ok, journal.results)
      ensures journal == old(journal).(results := journal.results)
    {
      var op := f.body.request.operationID;
      var (file, written) := WriteExclusive(Lookup(journal.results, op), f, attempt);
      journal := journal.(results := Stored(journal.results, op, file));
      ok := written;
    }

    /** The first critical section of `execute`, with the outcomes of its two journal writes. */
    method Enter(q: Request, thread: nat, identityAttempt: Attempt, requestAttempt: Attempt) returns (d: Decision)
      modifies this
      ensures FirstSection(config, old(View()), old(journal), thread, q, View(), journal, d)
    {
      var op := q.operationID;
      if runID != "" && runID != q.runID {
        return Refuse;
      }
      if op in results {
        if op !in requestDigests || requestDigests[op] != Sha256(q) {
          return Refuse;
        }
        return Reply(results[op]);
      }
      if op in requestDigests {
        if requestDigests[op] != Sha256(q) {
          return Refuse;
        }
        if op in inFlight {
          return Await(inFlight[op]);
        }
        inFlight := inFlight[op := thread];
        return Proceed;
      }
      if |requestDigests| >= MAX_RESERVATIONS {
        return Refuse;
      }
      d := BindAndReserve(q, thread, identityAttempt, requestAttempt);
    }

    method BindAndReserve(q: Request, thread: nat, identityAttempt: Attempt, requestAttempt: Attempt)
      returns (d: Decision)
      modifies this
      ensures BindsAndReserves(config, old(View()), old(journal), thread, q, View(), journal, d)
    {
      if runID == "" {
        var bound := PersistRunIdentity(q.runID, identityAttempt);
        if !bound {
          return Refuse;
        }
        runID := q.runID;
      }
      var reserved := PersistRequest(q, requestAttempt);
      if !reserved {
        return Refuse;
      }
      requestDigests := requestDigests[q.operationID := Sha256(q)];
      inFlight := inFlight[q.operationID := thread];
      d := Proceed;
    }

    /**
     The final critical section: with a result it is published, and in every case the channel is
     closed and dropped.
     */
    method Leave(op: string, result: Option<Fragment>) returns (closed: nat)
      requires op in inFlight
      modifies `results, `inFlight
      ensures closed == old(inFlight)[op]
      ensures View() == old(View()).(results := if result.Some? then old(results)[op := result.value] else old(results),
                                     inFlight := old(inFlight) - {op})
    {
      if result.Some? {
        results := results[op := result.value];
      }
      closed := inFlight[op];
      inFlight := inFlight - {op};
    }

    /** Recovery installs what the scan restored; a refused journal leaves a handler that is never served. */
    method LoadDurableState(l: Listing) returns (ok: bool)
      requires Lists(l, journal) && View() == FRESH
      modifies `runID, `results, `requestDigests
      ensures ok <==> l.unexpected == [] && Loadable(config, journal)
      ensures ok ==> Loads(config, journal, View())
    {
      var restored := ReadJournal(config, l, journal);
      ok := restored.Some?;
      if ok {
        runID, results, requestDigests := restored.value.runID, restored.value.results, restored.value.digests;
      }
    }
  }
}
