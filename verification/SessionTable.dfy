/**
 * The inferred-session table (proxy/client-session.ts:25-121, 125-170): lineage nodes and
 * the sessions they belong to, with expiry and eviction. Which of several equally old
 * sessions is evicted is left open, so pruning is a relation.
 */
module SessionTable {
  import opened Util
  import opened CanonicalJson
  import opened Lineage

  datatype Node = Node(nodeHash: Text, sessionId: string, upstreamSessionId: string, lastSeenAt: nat)

  datatype Mode = Off | Observe | Enforce

  datatype Config = Config(mode: Mode, ttlSeconds: nat, maxSessions: nat) {
    function TtlMs(): nat {
      ttlSeconds * 1000
    }
  }

  datatype State = State(nodes: map<Text, Node>, sessions: map<string, Node>)

  /** Identifiers found in headers and metadata; an absent one is `None`, none is empty. */
  datatype Trace = Trace(requestId: Option<string>, traceId: Option<string>, queryId: Option<string>, sessionId: Option<string>) {
    predicate Any() {
      requestId.Some? || traceId.Some? || queryId.Some? || sessionId.Some?
    }
  }

  /** A request: its identifiers, and its body if `canonicalize` accepts it. */
  datatype Request = Request(trace: Trace, body: Option<Canonical>)

  datatype Source = NoSource | Explicit | Lineage

  datatype Result = Result(
    source: Source, confidencePercent: nat,
    sessionId: Option<string>, upstreamSessionId: Option<string>,
    requestId: Option<string>, traceId: Option<string>, queryId: Option<string>)

  const NO_RESULT: Result := Result(NoSource, 0, None, None, None, None, None)

  function ExplicitResult(trace: Trace): Result {
    Result(Explicit, 100, trace.sessionId, trace.sessionId, trace.requestId, trace.traceId, trace.queryId)
  }

  function LineageResult(node: Node, confidencePercent: nat, trace: Trace): Result {
    Result(Lineage, confidencePercent, Some(node.sessionId), Some(node.upstreamSessionId),
           trace.requestId, trace.traceId, trace.queryId)
  }

  // ---------------------------------------------------------------------------
  // Expiry and eviction
  // ---------------------------------------------------------------------------

  function LiveSessions(s: State, cfg: Config, now: nat): map<string, Node> {
    map id | id in s.sessions && s.sessions[id].lastSeenAt >= now - cfg.TtlMs() :: s.sessions[id]
  }

  /** Nodes that are not expired and whose session was not evicted. */
  function KeptNodes(nodes: map<Text, Node>, evicted: set<string>, cfg: Config, now: nat): map<Text, Node> {
    map h | h in nodes && nodes[h].lastSeenAt >= now - cfg.TtlMs() && nodes[h].sessionId !in evicted :: nodes[h]
  }

  /** Everything dropped is at most as recent as everything kept. */
  ghost predicate OldestOut(live: map<string, Node>, kept: map<string, Node>) {
    forall out, id :: out in live && out !in kept && id in kept && id in live ==> live[out].lastSeenAt <= live[id].lastSeenAt
  }

  ghost predicate Pruned(s: State, t: State, cfg: Config, now: nat) {
    var live := LiveSessions(s, cfg, now);
    && (forall id :: id in t.sessions ==> id in live && t.sessions[id] == live[id])
    && |t.sessions| == Min(|live|, cfg.maxSessions)
    && OldestOut(live, t.sessions)
    && t.nodes == KeptNodes(s.nodes, live.Keys - t.sessions.Keys, cfg, now)
  }

  function Stored(s: State, key: Text, session: Node, now: nat): State {
    var stored := Node(key, session.sessionId, session.upstreamSessionId, now);
    State(s.nodes[key := stored], s.sessions[session.sessionId := stored])
  }

  ghost predicate Remembered(s: State, t: State, key: Text, session: Node, cfg: Config, now: nat) {
    Pruned(Stored(s, key, session, now), t, cfg, now)
  }

  /** The session a request belongs to, in a pruned table. */
  function Choose(p: State, c: Canonical, newNode: Node): (Node, nat) {
    var key, parent := NodeKey(c), ParentKey(c);
    if key in p.nodes then (p.nodes[key], 95)
    else if parent.Some? && parent.value in p.nodes then (p.nodes[parent.value], 90)
    else (newNode, 75)
  }

  ghost predicate AfterPrune(p: State, t: State, request: Request, cfg: Config, now: nat, newNode: Node, r: Result) {
    if request.trace.sessionId.Some? then t == p && r == ExplicitResult(request.trace)
    else
      match request.body
      case None => t == p && r == (if request.trace.Any() then ExplicitResult(request.trace) else NO_RESULT)
      case Some(c) =>
        var (session, confidence) := Choose(p, c, newNode);
        Remembered(p, t, NodeKey(c), session, cfg, now) && r == LineageResult(session, confidence, request.trace)
  }

  /** `resolve`; `newNode` is the session `newSession` would make. */
  ghost predicate Resolved(s: State, t: State, request: Request, cfg: Config, now: nat, newNode: Node, r: Result) {
    if cfg.mode.Off? then t == s && r == NO_RESULT
    else exists p :: Pruned(s, p, cfg, now) && AfterPrune(p, t, request, cfg, now, newNode, r)
  }

  // ---------------------------------------------------------------------------
  // Coherence
  // ---------------------------------------------------------------------------

  /** The node's session is in the table, under its upstream id, seen no earlier than the node. */
  ghost predicate Anchored(s: State, node: Node) {
    && node.sessionId in s.sessions
    && s.sessions[node.sessionId].upstreamSessionId == node.upstreamSessionId
    && s.sessions[node.sessionId].lastSeenAt >= node.lastSeenAt
  }

  /** The key is that of some request. */
  ghost predicate IsRequestKey(h: Text) {
    exists q :: WfCanonical(q) && NodeKey(q) == h
  }

  ghost predicate Inv(s: State, now: nat) {
    && (forall h :: h in s.nodes ==> s.nodes[h].nodeHash == h && Anchored(s, s.nodes[h]) && IsRequestKey(h))
    && (forall id :: id in s.sessions ==> s.sessions[id].sessionId == id && s.sessions[id].lastSeenAt <= now)
    && "" !in s.sessions
  }

  /** Pruning keeps coherence: a node goes with its session, and never outlives it. */
  lemma PruneInv(s: State, t: State, cfg: Config, now: nat)
    requires Inv(s, now) && Pruned(s, t, cfg, now)
    ensures Inv(t, now) && |t.sessions| <= cfg.maxSessions && t.nodes.Keys <= s.nodes.Keys
    ensures forall h :: h in t.nodes ==> t.nodes[h] == s.nodes[h]
  {
    var live := LiveSessions(s, cfg, now);
    forall h | h in t.nodes ensures Anchored(t, t.nodes[h]) {
      assert Anchored(s, s.nodes[h]);
      assert s.nodes[h].sessionId in live;
    }
  }

  lemma StoredInv(s: State, key: Text, session: Node, now: nat)
    requires Inv(s, now) && session.sessionId != "" && IsRequestKey(key)
    requires session.sessionId in s.sessions ==> s.sessions[session.sessionId].upstreamSessionId == session.upstreamSessionId
    ensures Inv(Stored(s, key, session, now), now)
  {
    hide IsRequestKey;
    var t := Stored(s, key, session, now);
    forall h | h in t.nodes ensures Anchored(t, t.nodes[h]) {
      if h != key {
        assert Anchored(s, s.nodes[h]);
      }
    }
  }

  /** `newSession` made an id nobody has. */
  predicate FreshNode(s: State, newNode: Node) {
    newNode.sessionId != "" && newNode.sessionId !in s.sessions
  }

  lemma ChooseKnown(p: State, c: Canonical, newNode: Node, now: nat)
    requires Inv(p, now) && FreshNode(p, newNode)
    ensures var session := Choose(p, c, newNode).0;
            && session.sessionId != ""
            && (session.sessionId in p.sessions ==> p.sessions[session.sessionId].upstreamSessionId == session.upstreamSessionId)
  {
    hide NodeKey, ParentKey;
    var key, parent := NodeKey(c), ParentKey(c);
    assert key in p.nodes ==> Anchored(p, p.nodes[key]);
    assert parent.Some? && parent.value in p.nodes ==> Anchored(p, p.nodes[parent.value]);
  }

  /** Every resolve keeps the table coherent, and one that stores keeps it within its size. */
  lemma ResolveInv(s: State, t: State, request: Request, cfg: Config, before: nat, now: nat, newNode: Node, r: Result)
    requires Inv(s, before) && before <= now && FreshNode(s, newNode)
    requires request.body.Some? ==> WfCanonical(request.body.value)
    requires Resolved(s, t, request, cfg, now, newNode, r)
    ensures Inv(t, now)
    ensures !cfg.mode.Off? ==> |t.sessions| <= cfg.maxSessions
  {
    assert Inv(s, now);
    if !cfg.mode.Off? {
      var p :| Pruned(s, p, cfg, now) && AfterPrune(p, t, request, cfg, now, newNode, r);
      PruneInv(s, p, cfg, now);
      if request.trace.sessionId.None? && request.body.Some? {
        hide Choose, NodeKey;
        var c := request.body.value;
        assert IsRequestKey(NodeKey(c));
        ChooseKnown(p, c, newNode, now);
        StoredInv(p, NodeKey(c), Choose(p, c, newNode).0, now);
        PruneInv(Stored(p, NodeKey(c), Choose(p, c, newNode).0, now), t, cfg, now);
      }
    }
  }

  datatype Call = Call(request: Request, cfg: Config, now: nat, newNode: Node, result: Result)

  /** A run of the resolver from the empty table, with the clock going forward. */
  ghost predicate History(states: seq<State>, calls: seq<Call>) {
    && |states| == |calls| + 1 && states[0] == State(map[], map[])
    && (forall i, j :: 0 <= i < j < |calls| ==> calls[i].now <= calls[j].now)
    && forall i :: 0 <= i < |calls| ==> CallStep(states[i], states[i + 1], calls[i])
  }

  ghost predicate CallStep(s: State, t: State, call: Call) {
    && FreshNode(s, call.newNode)
    && (call.request.body.Some? ==> WfCanonical(call.request.body.value))
    && Resolved(s, t, call.request, call.cfg, call.now, call.newNode, call.result)
  }

  lemma {:induction false} HistoryInv(states: seq<State>, calls: seq<Call>, k: nat)
    requires History(states, calls) && k <= |calls|
    ensures Inv(states[k], if k == 0 then 0 else calls[k - 1].now)
    ensures k > 0 && !calls[k - 1].cfg.mode.Off? ==> |states[k].sessions| <= calls[k - 1].cfg.maxSessions
  {
    hide Resolved, Inv;
    if k > 0 {
      HistoryInv(states, calls, k - 1);
      var call := calls[k - 1];
      assert CallStep(states[k - 1], states[k], call);
      assert k > 1 ==> calls[k - 2].now <= call.now;
      ResolveInv(states[k - 1], states[k], call.request, call.cfg, if k == 1 then 0 else calls[k - 2].now, call.now, call.newNode, call.result);
    } else {
      assert states[0] == State(map[], map[]);
      EmptyInv();
    }
  }

  lemma EmptyInv()
    ensures Inv(State(map[], map[]), 0)
  {
  }

  /** In every run each lineage node points to a session in the table, seen no earlier than the node. */
  lemma NodesHaveSessions(states: seq<State>, calls: seq<Call>, k: nat, h: Text)
    requires History(states, calls) && k <= |calls| && h in states[k].nodes
    ensures Anchored(states[k], states[k].nodes[h])
  {
    HistoryInv(states, calls, k);
  }

  /** The table never holds more sessions than allowed after a call that is not switched off. */
  lemma TableIsBounded(states: seq<State>, calls: seq<Call>, k: nat)
    requires History(states, calls) && 0 < k <= |calls| && !calls[k - 1].cfg.mode.Off?
    ensures |states[k].sessions| <= calls[k - 1].cfg.maxSessions
  {
    HistoryInv(states, calls, k);
  }

  // ---------------------------------------------------------------------------
  // Follow-ups
  // ---------------------------------------------------------------------------

  /** A table within its size loses only what has expired. */
  lemma NothingEvicted(s: State, p: State, cfg: Config, now: nat)
    requires Pruned(s, p, cfg, now) && |s.sessions| <= cfg.maxSessions
    ensures p.sessions == LiveSessions(s, cfg, now)
    ensures p.nodes == KeptNodes(s.nodes, {}, cfg, now)
  {
    var live := LiveSessions(s, cfg, now);
    SubsetSize(live.Keys, s.sessions.Keys);
    SubsetSize(p.sessions.Keys, live.Keys);
    assert live.Keys - p.sessions.Keys == {};
  }

  /** The session just remembered survives unless every kept session was seen in the same instant. */
  lemma RememberedSurvives(s: State, t: State, key: Text, session: Node, cfg: Config, now: nat)
    requires Remembered(s, t, key, session, cfg, now) && cfg.maxSessions > 0
    requires |s.sessions| < cfg.maxSessions
             || forall id :: id in s.sessions && id != session.sessionId ==> s.sessions[id].lastSeenAt < now
    ensures session.sessionId in t.sessions && key in t.nodes && t.nodes[key].upstreamSessionId == session.upstreamSessionId
  {
    RememberedSessionSurvives(s, t, key, session, cfg, now);
    hide OldestOut;
  }

  lemma RememberedSessionSurvives(s: State, t: State, key: Text, session: Node, cfg: Config, now: nat)
    requires Remembered(s, t, key, session, cfg, now) && cfg.maxSessions > 0
    requires |s.sessions| < cfg.maxSessions
             || forall id :: id in s.sessions && id != session.sessionId ==> s.sessions[id].lastSeenAt < now
    ensures session.sessionId in t.sessions
  {
    hide KeptNodes;
    var m := Stored(s, key, session, now);
    var live := LiveSessions(m, cfg, now);
    assert session.sessionId in live;
    SubsetSize(live.Keys, m.sessions.Keys);
    SubsetSize(t.sessions.Keys, live.Keys);
    assert m.sessions.Keys == s.sessions.Keys + {session.sessionId};
    assert t.sessions.Keys == {} ==> |t.sessions| == 0;
  }

  /** The lookup key of this follow-up, which repeats `p` and appends two messages. */
  ghost predicate Follows(c: Canonical, p: Canonical) {
    && WfCanonical(c) && WfCanonical(p)
    && |c.messages| >= 3 && AlikeEnvelope(c, p) && AllAlike(c.messages[..|c.messages| - 2], p.messages)
  }

  /** Neither appended message is from the developer. */
  predicate OrdinaryTurn(c: Canonical)
    requires |c.messages| >= 2
  {
    !IsDeveloper(c.messages[|c.messages| - 2]) && !IsDeveloper(c.messages[|c.messages| - 1])
  }

  lemma StoredNodeKept(s: State, t: State, key: Text, session: Node, cfg: Config, now: nat)
    requires Remembered(s, t, key, session, cfg, now) && key in t.nodes
    ensures t.nodes[key] == Node(key, session.sessionId, session.upstreamSessionId, now)
  {
  }

  /** The node this key has, unless it has expired. */
  function Found(t: State, key: Text, cfg: Config, now: nat): Option<Node> {
    if key in t.nodes && t.nodes[key].lastSeenAt >= now - cfg.TtlMs() then Some(t.nodes[key]) else None
  }

  /** The request is stored already under this upstream session, or is not stored and ordinary. */
  predicate Continues(t: State, c: Canonical, upstream: string, cfg: Config, now: nat)
    requires |c.messages| >= 2
  {
    var found := Found(t, NodeKey(c), cfg, now);
    if found.Some? then found.value.upstreamSessionId == upstream else OrdinaryTurn(c)
  }

  /**
   * A request that repeats a stored one and appends two messages is given the stored one's
   * upstream session exactly when it is itself stored under that session, or is not stored
   * and neither message is from the developer.
   */
  lemma FollowUpIff(t: State, u: State, key: Text, c: Canonical, p: Canonical, request: Request, cfg: Config, now: nat, newNode: Node, r: Result)
    requires Follows(c, p) && key == NodeKey(p) && request.body == Some(c) && request.trace.sessionId.None? && !cfg.mode.Off?
    requires Inv(t, now) && |t.sessions| <= cfg.maxSessions && Found(t, key, cfg, now).Some?
    requires newNode.upstreamSessionId != t.nodes[key].upstreamSessionId
    requires Resolved(t, u, request, cfg, now, newNode, r)
    ensures r.upstreamSessionId == Some(t.nodes[key].upstreamSessionId)
            <==> Continues(t, c, t.nodes[key].upstreamSessionId, cfg, now)
  {
    hide NodeKey, ParentKey, IsDeveloper, AlikeEnvelope, AllAlike, WfCanonical, Remembered, Inv, Pruned, LiveSessions;
    ParentKeyIff(c, p);
    if !OrdinaryTurn(c) {
      NoOtherParent(t, c, now);
    }
    var pruned :| Pruned(t, pruned, cfg, now) && AfterPrune(pruned, u, request, cfg, now, newNode, r);
    NothingEvicted(t, pruned, cfg, now);
    assert key in pruned.nodes && pruned.nodes[key] == t.nodes[key];
    assert NodeKey(c) in pruned.nodes <==> Found(t, NodeKey(c), cfg, now).Some?;
  }

  /** A request that appends a developer message finds no parent at all. */
  lemma NoOtherParent(t: State, c: Canonical, now: nat)
    requires Inv(t, now) && WfCanonical(c) && |c.messages| >= 3 && !OrdinaryTurn(c)
    ensures ParentKey(c).Some? && ParentKey(c).value !in t.nodes
  {
    hide NodeKey, IsDeveloper, AlikeEnvelope, AllAlike, WfCanonical;
    var h := ParentKey(c).value;
    if h in t.nodes {
      assert IsRequestKey(h);
      var q :| WfCanonical(q) && NodeKey(q) == h;
      ParentKeyIff(c, q);
    }
  }

  lemma InvLater(s: State, now: nat, later: nat)
    requires Inv(s, now) && now <= later
    ensures Inv(s, later)
  {
  }

  /** Storing under a session that is already there evicts nobody. */
  lemma KnownSessionSurvives(p: State, u: State, key: Text, session: Node, cfg: Config, now: nat)
    requires Remembered(p, u, key, session, cfg, now) && |p.sessions| <= cfg.maxSessions
    requires session.sessionId in p.sessions
    ensures key in u.nodes && u.nodes[key] == Node(key, session.sessionId, session.upstreamSessionId, now)
  {
    var m := Stored(p, key, session, now);
    assert m.sessions.Keys == p.sessions.Keys;
    assert |m.sessions| == |p.sessions|;
    NothingEvicted(m, u, cfg, now);
  }

  /**
   * One more request of a conversation that had `key` last: a retry of that request, or a
   * follow-up that continues its upstream session.
   */
  ghost predicate NextTurn(t: State, key: Text, upstream: string, c: Canonical, cfg: Config, now: nat) {
    NodeKey(c) == key || exists p :: NodeKey(p) == key && Follows(c, p) && Continues(t, c, upstream, cfg, now)
  }

  lemma OrdinaryFollowUp(c: Canonical, p: Canonical)
    requires Follows(c, p) && OrdinaryTurn(c)
    ensures ParentKey(c) == Some(NodeKey(p))
  {
    hide NodeKey, ParentKey, AlikeEnvelope, AllAlike, WfCanonical, IsDeveloper;
    ParentKeyIff(c, p);
  }

  /** Such a request is sent under the session, and is itself stored under it for the next one. */
  lemma TurnKeeps(t: State, u: State, key: Text, c: Canonical, call: Call)
    requires CallStep(t, u, call) && call.request.body == Some(c) && call.request.trace.sessionId.None? && !call.cfg.mode.Off?
    requires Inv(t, call.now) && |t.sessions| <= call.cfg.maxSessions && Found(t, key, call.cfg, call.now).Some?
    requires NextTurn(t, key, t.nodes[key].upstreamSessionId, c, call.cfg, call.now)
    ensures call.result.upstreamSessionId == Some(t.nodes[key].upstreamSessionId)
    ensures NodeKey(c) in u.nodes && u.nodes[NodeKey(c)].lastSeenAt == call.now
    ensures u.nodes[NodeKey(c)].upstreamSessionId == t.nodes[key].upstreamSessionId
  {
    hide NodeKey, ParentKey, IsDeveloper, OrdinaryTurn, WfCanonical, Remembered;
    if NodeKey(c) != key && Found(t, NodeKey(c), call.cfg, call.now).None? {
      var p :| NodeKey(p) == key && Follows(c, p) && Continues(t, c, t.nodes[key].upstreamSessionId, call.cfg, call.now);
      OrdinaryFollowUp(c, p);
    }
    hide Follows;
    var pruned :| Pruned(t, pruned, call.cfg, call.now) && AfterPrune(pruned, u, call.request, call.cfg, call.now, call.newNode, call.result);
    NothingEvicted(t, pruned, call.cfg, call.now);
    PruneInv(t, pruned, call.cfg, call.now);
    var session := Choose(pruned, c, call.newNode).0;
    assert session == pruned.nodes[if NodeKey(c) in pruned.nodes then NodeKey(c) else key];
    assert Anchored(pruned, session);
    KnownSessionSurvives(pruned, u, NodeKey(c), session, call.cfg, call.now);
  }

  /** A call by anybody leaves an unexpired node in its session, while the table has room. */
  lemma AnyCallKeeps(t: State, u: State, key: Text, call: Call)
    requires CallStep(t, u, call) && Inv(t, call.now) && |t.sessions| < call.cfg.maxSessions
    requires Found(t, key, call.cfg, call.now).Some?
    ensures key in u.nodes && u.nodes[key].upstreamSessionId == t.nodes[key].upstreamSessionId
    ensures u.nodes[key].lastSeenAt >= t.nodes[key].lastSeenAt
  {
    hide NodeKey, ParentKey, WfCanonical, Pruned, AfterPrune;
    assert t.nodes[key].lastSeenAt <= call.now by {
      assert Anchored(t, t.nodes[key]);
    }
    if !call.cfg.mode.Off? {
      var pruned :| Pruned(t, pruned, call.cfg, call.now) && AfterPrune(pruned, u, call.request, call.cfg, call.now, call.newNode, call.result);
      NothingEvicted(t, pruned, call.cfg, call.now);
      SubsetSize(pruned.sessions.Keys, t.sessions.Keys);
      assert key in pruned.nodes && pruned.nodes[key] == t.nodes[key];
      hide Inv, KeptNodes, LiveSessions;
      PrunedCallKeeps(pruned, u, key, call);
    }
  }

  lemma PrunedCallKeeps(p: State, u: State, key: Text, call: Call)
    requires AfterPrune(p, u, call.request, call.cfg, call.now, call.newNode, call.result) && |p.sessions| < call.cfg.maxSessions
    requires Found(p, key, call.cfg, call.now).Some? && p.nodes[key].lastSeenAt <= call.now
    ensures key in u.nodes && u.nodes[key].upstreamSessionId == p.nodes[key].upstreamSessionId
    ensures u.nodes[key].lastSeenAt >= p.nodes[key].lastSeenAt
  {
    hide NodeKey, ParentKey, Remembered;
    if call.request.trace.sessionId.None? && call.request.body.Some? {
      var c := call.request.body.value;
      var session := Choose(p, c, call.newNode).0;
      assert NodeKey(c) == key ==> session == p.nodes[key];
      RoomKeepsAll(p, u, NodeKey(c), session, call.cfg, call.now);
    }
  }

  /** Storing a session in a table with room evicts nobody. */
  lemma RoomKeepsAll(p: State, u: State, key: Text, session: Node, cfg: Config, now: nat)
    requires Remembered(p, u, key, session, cfg, now) && |p.sessions| < cfg.maxSessions
    ensures u.nodes == KeptNodes(Stored(p, key, session, now).nodes, {}, cfg, now)
  {
    var m := Stored(p, key, session, now);
    assert m.sessions.Keys == p.sessions.Keys + {session.sessionId};
    NothingEvicted(m, u, cfg, now);
  }

  /** The last call of the conversation before call `k`. */
  function LastTurn(mine: seq<bool>, k: nat): (m: nat)
    requires 0 < k <= |mine| && mine[0]
    ensures m < k && mine[m]
  {
    if mine[k - 1] then k - 1 else LastTurn(mine, k - 1)
  }

  /**
   * A run of calls of which some, marked `mine`, are one conversation; the others are by
   * anybody, and find room in the table. Each of mine follows or retries the last one in time.
   */
  ghost predicate Conversation(states: seq<State>, calls: seq<Call>, mine: seq<bool>) {
    && |states| == |calls| + 1 && |mine| == |calls| && mine != [] && mine[0]
    && (forall i :: 0 <= i < |calls| ==> CallStep(states[i], states[i + 1], calls[i]))
    && (forall i, j :: 0 <= i < j < |calls| ==> calls[i].now <= calls[j].now)
    && (forall i :: 0 <= i < |calls| ==> calls[i].cfg == calls[0].cfg && !calls[i].cfg.mode.Off?)
    && (forall i :: 0 <= i < |calls| && mine[i] ==> calls[i].request.body.Some? && calls[i].request.trace.sessionId.None?)
    && (forall i :: 0 <= i < |calls| && !mine[i] ==> |states[i].sessions| < calls[i].cfg.maxSessions)
    && (forall i :: 0 < i < |calls| && mine[i] ==> TakesTurn(states[i], calls[LastTurn(mine, i)], calls[i], calls[0].result))
  }

  ghost predicate TakesTurn(s: State, last: Call, call: Call, first: Result) {
    && call.now <= last.now + call.cfg.TtlMs()
    && last.request.body.Some? && call.request.body.Some? && first.upstreamSessionId.Some?
    && NextTurn(s, NodeKey(last.request.body.value), first.upstreamSessionId.value, call.request.body.value, call.cfg, call.now)
  }

  /** Before call `k` the last request of the conversation, unless expired, stands under the first one's session. */
  ghost predicate Standing(s: State, last: Call, now: nat, first: Result) {
    last.request.body.Some? && first.upstreamSessionId.Some?
    && (now <= last.now + last.cfg.TtlMs() ==>
          var key := NodeKey(last.request.body.value);
          && key in s.nodes && s.nodes[key].lastSeenAt >= last.now
          && s.nodes[key].upstreamSessionId == first.upstreamSessionId.value)
  }

  lemma {:induction false} ConversationStands(states: seq<State>, calls: seq<Call>, mine: seq<bool>, k: nat, before: nat)
    requires Conversation(states, calls, mine) && 0 < k <= |calls| && Inv(states[0], before) && before <= calls[0].now
    requires NodeKey(calls[0].request.body.value) in states[1].nodes
    ensures Inv(states[k], calls[k - 1].now) && |states[k].sessions| <= calls[0].cfg.maxSessions
    ensures Standing(states[k], calls[LastTurn(mine, k)], calls[k - 1].now, calls[0].result)
    ensures mine[k - 1] ==> calls[k - 1].result.upstreamSessionId == calls[0].result.upstreamSessionId
  {
    hide NodeKey, Follows, Inv, Resolved, FreshNode, NextTurn;
    var call := calls[k - 1];
    assert CallStep(states[k - 1], states[k], call);
    if k == 1 {
      FirstCall(states[0], states[1], call, before);
    } else {
      ConversationStands(states, calls, mine, k - 1, before);
      assert calls[k - 2].now <= call.now;
      InvLater(states[k - 1], calls[k - 2].now, call.now);
      ConversationStep(states[k - 1], states[k], calls[LastTurn(mine, k - 1)], call, calls[0].result, calls[k - 2].now, mine[k - 1]);
    }
  }

  lemma ConversationStep(t: State, u: State, last: Call, call: Call, first: Result, before: nat, mine: bool)
    requires CallStep(t, u, call) && !call.cfg.mode.Off? && last.cfg == call.cfg
    requires Inv(t, call.now) && |t.sessions| <= call.cfg.maxSessions && before <= call.now && last.now <= call.now
    requires Standing(t, last, before, first)
    requires mine ==> call.request.trace.sessionId.None? && TakesTurn(t, last, call, first)
    requires !mine ==> |t.sessions| < call.cfg.maxSessions
    ensures Inv(u, call.now) && |u.sessions| <= call.cfg.maxSessions
    ensures Standing(u, if mine then call else last, call.now, first)
    ensures mine ==> call.result.upstreamSessionId == first.upstreamSessionId
  {
    hide NodeKey, Inv, Resolved, FreshNode, NextTurn;
    ResolveInv(t, u, call.request, call.cfg, call.now, call.now, call.newNode, call.result);
    var key := NodeKey(last.request.body.value);
    if mine {
      TurnKeeps(t, u, key, call.request.body.value, call);
    } else if call.now <= last.now + call.cfg.TtlMs() {
      AnyCallKeeps(t, u, key, call);
    }
  }

  /**
   * A whole conversation is sent upstream under the session its first request was given,
   * whoever else calls in between.
   */
  lemma ConversationKeepsSession(states: seq<State>, calls: seq<Call>, mine: seq<bool>, k: nat, before: nat)
    requires Conversation(states, calls, mine) && k < |calls| && mine[k] && Inv(states[0], before) && before <= calls[0].now
    requires NodeKey(calls[0].request.body.value) in states[1].nodes
    ensures calls[k].result.upstreamSessionId == calls[0].result.upstreamSessionId
  {
    ConversationStands(states, calls, mine, k + 1, before);
  }

  /**
   * A further request that repeats the last one of a conversation, with two more messages,
   * is sent under the same session exactly when it continues it in the table it finds.
   */
  lemma FollowUpSharesSession(states: seq<State>, calls: seq<Call>, mine: seq<bool>, u: State, next: Call, before: nat)
    requires Conversation(states, calls, mine) && Inv(states[0], before) && before <= calls[0].now
    requires NodeKey(calls[0].request.body.value) in states[1].nodes
    requires CallStep(states[|calls|], u, next) && next.cfg == calls[0].cfg && next.request.trace.sessionId.None?
    requires var last := calls[LastTurn(mine, |calls|)];
             && next.request.body.Some? && Follows(next.request.body.value, last.request.body.value)
             && calls[|calls| - 1].now <= next.now <= last.now + last.cfg.TtlMs()
    requires Some(next.newNode.upstreamSessionId) != calls[0].result.upstreamSessionId
    ensures calls[0].result.upstreamSessionId.Some?
    ensures next.result.upstreamSessionId == calls[0].result.upstreamSessionId
            <==> Continues(states[|calls|], next.request.body.value, calls[0].result.upstreamSessionId.value, next.cfg, next.now)
  {
    hide NodeKey, Inv, Resolved, FreshNode, TakesTurn, Standing, Continues, Follows;
    var k := |calls|;
    ConversationStands(states, calls, mine, k, before);
    var last := calls[LastTurn(mine, k)];
    assert last.cfg == calls[0].cfg && !last.cfg.mode.Off?;
    hide Conversation;
    StandingFollowUp(states[k], u, last, next, calls[0].result, calls[k - 1].now);
  }

  lemma StandingFollowUp(t: State, u: State, last: Call, next: Call, first: Result, before: nat)
    requires Standing(t, last, before, first) && Inv(t, before) && |t.sessions| <= next.cfg.maxSessions
    requires CallStep(t, u, next) && next.cfg == last.cfg && !next.cfg.mode.Off?
    requires next.request.trace.sessionId.None? && next.request.body.Some?
    requires Follows(next.request.body.value, last.request.body.value)
    requires before <= next.now <= last.now + last.cfg.TtlMs() && Some(next.newNode.upstreamSessionId) != first.upstreamSessionId
    ensures first.upstreamSessionId.Some?
    ensures next.result.upstreamSessionId == first.upstreamSessionId
            <==> Continues(t, next.request.body.value, first.upstreamSessionId.value, next.cfg, next.now)
  {
    InvLater(t, before, next.now);
    hide NodeKey, Inv, Resolved, FreshNode, Continues, WfCanonical, AlikeEnvelope, AllAlike;
    var c, p := next.request.body.value, last.request.body.value;
    FollowUpIff(t, u, NodeKey(p), c, p, next.request, next.cfg, next.now, next.newNode, next.result);
  }

  /** A table in which everything was seen just now, and which is within its size, is pruned already. */
  lemma FreshTableIsPruned(s: State, cfg: Config, now: nat)
    requires |s.sessions| <= cfg.maxSessions && SeenNow(s, now)
    ensures Pruned(s, s, cfg, now)
  {
    assert LiveSessions(s, cfg, now) == s.sessions;
  }

  predicate SeenNow(s: State, now: nat) {
    && (forall h :: h in s.nodes ==> s.nodes[h].lastSeenAt == now)
    && (forall id :: id in s.sessions ==> s.sessions[id].lastSeenAt == now)
  }

  const NO_TRACE: Trace := Trace(None, None, None, None)

  lemma StoresNow(s: State, c: Canonical, cfg: Config, now: nat, newNode: Node) returns (t: State, call: Call)
    requires SeenNow(s, now) && |s.sessions| < cfg.maxSessions && !cfg.mode.Off? && WfCanonical(c) && FreshNode(s, newNode)
    ensures call.request == Request(NO_TRACE, Some(c)) && call.cfg == cfg && call.now == now && CallStep(s, t, call)
    ensures var session := Choose(s, c, newNode).0;
            t == Stored(s, NodeKey(c), session, now) && call.result.upstreamSessionId == Some(session.upstreamSessionId)
    ensures SeenNow(t, now)
  {
    hide NodeKey, ParentKey, WfCanonical, Choose;
    var (session, confidence) := Choose(s, c, newNode);
    t := Stored(s, NodeKey(c), session, now);
    call := Call(Request(NO_TRACE, Some(c)), cfg, now, newNode, LineageResult(session, confidence, NO_TRACE));
    assert t.sessions.Keys == s.sessions.Keys + {session.sessionId};
    FreshTableIsPruned(s, cfg, now);
    FreshTableIsPruned(t, cfg, now);
    hide Pruned;
    assert AfterPrune(s, t, call.request, cfg, now, newNode, call.result);
  }

  lemma HistoryOfThree(s1: State, s2: State, s3: State, a: Call, b: Call, c: Call)
    requires CallStep(State(map[], map[]), s1, a) && CallStep(s1, s2, b) && CallStep(s2, s3, c)
    requires a.now == b.now == c.now
    ensures History([State(map[], map[]), s1, s2, s3], [a, b, c])
  {
    hide CallStep;
  }

  /**
   * Storing can take a follow-up away: sent first on its own, then after the request it
   * follows has been stored under another session, it stays in its own.
   */
  lemma StoredFollowUpStaysApart(c: Canonical, p: Canonical, cfg: Config, now: nat) returns (states: seq<State>, first: Call, second: Call, third: Call)
    requires Follows(c, p) && !cfg.mode.Off? && cfg.maxSessions >= 3
    ensures History(states, [first, second, third]) && forall call :: call in {first, second, third} ==> call.cfg == cfg && call.now == now
    ensures first.request == third.request == Request(NO_TRACE, Some(c)) && second.request == Request(NO_TRACE, Some(p))
    ensures third.result.upstreamSessionId == first.result.upstreamSessionId != second.result.upstreamSessionId
  {
    hide NodeKey, ParentKey, WfCanonical, AlikeEnvelope, AllAlike, CallStep, SeenNow, History, Choose;
    var own := Node(NodeKey(c), "1", "u1", now);
    var s0, s1 := State(map[], map[]), State(map[NodeKey(c) := own], map["1" := own]);
    EmptySeen(now);
    ChooseNew(s0, c, Node([], "1", "u1", now));
    var t1;
    t1, first := StoresNow(s0, c, cfg, now, Node([], "1", "u1", now));
    assert t1 == s1;
    var t2, t3;
    t2, t3, second, third := StoredApart(s1, c, p, cfg, now);
    states := [s0, s1, t2, t3];
    HistoryOfThree(s1, t2, t3, first, second, third);
  }

  /** The parent's call, and the follow-up's again, in a table that holds the follow-up. */
  lemma StoredApart(s: State, c: Canonical, p: Canonical, cfg: Config, now: nat) returns (t: State, u: State, second: Call, third: Call)
    requires Follows(c, p) && !cfg.mode.Off? && cfg.maxSessions >= 3 && SeenNow(s, now)
    requires s == State(map[NodeKey(c) := Node(NodeKey(c), "1", "u1", now)], map["1" := Node(NodeKey(c), "1", "u1", now)])
    ensures CallStep(s, t, second) && CallStep(t, u, third) && second.cfg == third.cfg == cfg && second.now == third.now == now
    ensures second.request == Request(NO_TRACE, Some(p)) && third.request == Request(NO_TRACE, Some(c))
    ensures second.result.upstreamSessionId == Some("u2") && third.result.upstreamSessionId == Some("u1")
  {
    NotItsParent(c, p);
    hide NodeKey, ParentKey, WfCanonical, AlikeEnvelope, AllAlike, CallStep, SeenNow, Choose;
    ChooseNew(s, p, Node([], "2", "u2", now));
    t, second := StoresNow(s, p, cfg, now, Node([], "2", "u2", now));
    assert NodeKey(c) in t.nodes && t.nodes[NodeKey(c)] == s.nodes[NodeKey(c)] && t.sessions.Keys == {"1", "2"};
    ChooseOwn(t, c, Node([], "3", "u3", now));
    u, third := StoresNow(t, c, cfg, now, Node([], "3", "u3", now));
  }

  lemma ChooseNew(s: State, c: Canonical, newNode: Node)
    requires NodeKey(c) !in s.nodes && (ParentKey(c).Some? ==> ParentKey(c).value !in s.nodes)
    ensures Choose(s, c, newNode) == (newNode, 75)
  {
    hide NodeKey, ParentKey;
  }

  lemma ChooseOwn(s: State, c: Canonical, newNode: Node)
    requires NodeKey(c) in s.nodes
    ensures Choose(s, c, newNode) == (s.nodes[NodeKey(c)], 95)
  {
    hide NodeKey, ParentKey;
  }

  lemma EmptySeen(now: nat)
    ensures SeenNow(State(map[], map[]), now)
  {
  }

  lemma NotItsParent(c: Canonical, p: Canonical)
    requires Follows(c, p)
    ensures NodeKey(c) != NodeKey(p) && ParentKey(p) != Some(NodeKey(c))
  {
    NodeKeyIff(c, p);
    if |p.messages| >= 3 {
      ParentKeyIff(p, c);
    }
  }

  lemma FirstCall(s: State, t: State, call: Call, before: nat)
    requires Inv(s, before) && before <= call.now && CallStep(s, t, call) && !call.cfg.mode.Off?
    requires call.request.body.Some? && call.request.trace.sessionId.None?
    requires NodeKey(call.request.body.value) in t.nodes
    ensures var node := t.nodes[NodeKey(call.request.body.value)];
            node.lastSeenAt == call.now && call.result.upstreamSessionId == Some(node.upstreamSessionId)
    ensures Inv(t, call.now) && |t.sessions| <= call.cfg.maxSessions
  {
    hide NodeKey, Choose, Inv, Remembered;
    var c := call.request.body.value;
    ResolveInv(s, t, call.request, call.cfg, before, call.now, call.newNode, call.result);
    var pruned :| Pruned(s, pruned, call.cfg, call.now) && AfterPrune(pruned, t, call.request, call.cfg, call.now, call.newNode, call.result);
    StoredNodeKept(pruned, t, NodeKey(c), Choose(pruned, c, call.newNode).0, call.cfg, call.now);
  }
}
