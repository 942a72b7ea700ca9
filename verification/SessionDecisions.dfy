/**
 * What the session resolver (proxy/client-session.ts:53-119) answers, and what expiry and
 * eviction leave, each with its exact condition.
 */
module SessionDecisions {
  import opened Util
  import opened CanonicalJson
  import opened Lineage
  import opened SessionTable

  /** Seen within the lifetime. */
  predicate InTime(node: Node, cfg: Config, now: nat) {
    node.lastSeenAt + cfg.ttlSeconds * 1000 >= now
  }

  /**
   * Pruning keeps sessions seen within the lifetime, all of them if there is room, else as
   * many as there is room for, the most recently seen; and the nodes in time whose session it keeps.
   */
  lemma PruneKeepsExactly(s: State, t: State, cfg: Config, now: nat)
    requires SessionTable.Inv(s, now) && Pruned(s, t, cfg, now)
    ensures forall id :: id in t.sessions ==> id in s.sessions && t.sessions[id] == s.sessions[id] && InTime(s.sessions[id], cfg, now)
    ensures |s.sessions| <= cfg.maxSessions ==> forall id :: id in s.sessions && InTime(s.sessions[id], cfg, now) ==> id in t.sessions
    ensures (exists id :: id in s.sessions && InTime(s.sessions[id], cfg, now) && id !in t.sessions) ==> |t.sessions| == cfg.maxSessions
    ensures forall out, id :: out in s.sessions && InTime(s.sessions[out], cfg, now) && out !in t.sessions && id in t.sessions ==>
              s.sessions[out].lastSeenAt <= s.sessions[id].lastSeenAt
    ensures forall h :: h in t.nodes <==> h in s.nodes && InTime(s.nodes[h], cfg, now) && s.nodes[h].sessionId in t.sessions
    ensures forall h :: h in t.nodes ==> t.nodes[h] == s.nodes[h]
  {
    var live := LiveSessions(s, cfg, now);
    assert forall id :: id in live <==> id in s.sessions && InTime(s.sessions[id], cfg, now);
    if |s.sessions| <= cfg.maxSessions {
      NothingEvicted(s, t, cfg, now);
    }
    if exists id :: id in live && id !in t.sessions {
      if |t.sessions| == |live| {
        SubsetEqual(t.sessions.Keys, live.Keys);
      }
    }
    forall h | h in s.nodes && InTime(s.nodes[h], cfg, now) ensures s.nodes[h].sessionId in live {
      assert Anchored(s, s.nodes[h]);
    }
  }

  lemma {:induction false} SubsetEqual<T>(a: set<T>, b: set<T>)
    requires a <= b && |a| == |b|
    ensures a == b
  {
    if a == {} {
    } else {
      var x :| x in a;
      SubsetEqual(a - {x}, b - {x});
    }
  }

  /** The identifiers a client sent are passed on as they are. */
  predicate PassesOn(r: Result, trace: Trace) {
    r.requestId == trace.requestId && r.traceId == trace.traceId && r.queryId == trace.queryId
  }

  /** Switched off, the resolver says nothing and keeps nothing. */
  lemma OffSaysNothing(s: State, t: State, request: Request, cfg: Config, now: nat, newNode: Node, r: Result)
    requires cfg.mode == Off && Resolved(s, t, request, cfg, now, newNode, r)
    ensures t == s && r == Result(NoSource, 0, None, None, None, None, None)
  {
  }

  /** A client that names its session, or sends no body that can be read, is taken at its word; the table is only pruned. */
  lemma NamedSessionIsTaken(s: State, t: State, request: Request, cfg: Config, now: nat, newNode: Node, r: Result)
    requires cfg.mode != Off && Resolved(s, t, request, cfg, now, newNode, r)
    requires request.trace.sessionId.Some? || request.body.None?
    ensures Pruned(s, t, cfg, now)
    ensures r.sessionId == request.trace.sessionId && r.upstreamSessionId == request.trace.sessionId && PassesOn(r, request.trace)
    ensures if request.trace.requestId.Some? || request.trace.traceId.Some? || request.trace.queryId.Some? || request.trace.sessionId.Some?
            then r.source == Explicit && r.confidencePercent == 100 else r.source == NoSource && r.confidencePercent == 0
  {
    hide Pruned;
  }

  /** The node a request is given: its own, else its parent's, else a new one. */
  function Given(s: State, c: Canonical, cfg: Config, now: nat, newNode: Node): Node {
    var own := Found(s, NodeKey(c), cfg, now);
    var parent := if ParentKey(c).Some? then Found(s, ParentKey(c).value, cfg, now) else None;
    if own.Some? then own.value else if parent.Some? then parent.value else newNode
  }

  /**
   * Any other request, in a table within its size, gets the session of its own node, with
   * confidence 95, of its parent's, with 90, or a new one, with 75; and is stored under it
   * as seen now, if that session is kept.
   */
  lemma LineageDecides(s: State, t: State, request: Request, cfg: Config, now: nat, newNode: Node, r: Result)
    requires cfg.mode != Off && request.trace.sessionId.None? && request.body.Some? && |s.sessions| <= cfg.maxSessions
    requires Resolved(s, t, request, cfg, now, newNode, r)
    ensures var c := request.body.value;
            var own, parent := Found(s, NodeKey(c), cfg, now), if ParentKey(c).Some? then Found(s, ParentKey(c).value, cfg, now) else None;
            var node := Given(s, c, cfg, now, newNode);
            && r.source == SessionTable.Source.Lineage && r.confidencePercent == (if own.Some? then 95 else if parent.Some? then 90 else 75)
            && r.sessionId == Some(node.sessionId) && r.upstreamSessionId == Some(node.upstreamSessionId) && PassesOn(r, request.trace)
            && (NodeKey(c) in t.nodes ==> t.nodes[NodeKey(c)] == Node(NodeKey(c), node.sessionId, node.upstreamSessionId, now))
            && (node.sessionId in t.sessions ==> t.sessions[node.sessionId] == Node(NodeKey(c), node.sessionId, node.upstreamSessionId, now))
            && (node.sessionId in t.sessions ==> NodeKey(c) in t.nodes)
  {
    hide NodeKey, ParentKey, Pruned;
    var c := request.body.value;
    var p :| Pruned(s, p, cfg, now) && AfterPrune(p, t, request, cfg, now, newNode, r);
    NothingEvicted(s, p, cfg, now);
    assert forall h :: h in p.nodes <==> Found(s, h, cfg, now).Some?;
    StoredUnder(p, t, NodeKey(c), Choose(p, c, newNode).0, cfg, now);
    hide OldestOut, LiveSessions;
  }

  lemma StoredUnder(p: State, t: State, key: Text, session: Node, cfg: Config, now: nat)
    requires Remembered(p, t, key, session, cfg, now)
    ensures key in t.nodes ==> t.nodes[key] == Node(key, session.sessionId, session.upstreamSessionId, now)
    ensures session.sessionId in t.sessions ==> key in t.nodes && t.sessions[session.sessionId] == Node(key, session.sessionId, session.upstreamSessionId, now)
  {
  }

  /** Found exactly for the lifetime after it was last seen. */
  lemma FoundIff(s: State, key: Text, cfg: Config, now: nat)
    ensures Found(s, key, cfg, now) == if key in s.nodes && InTime(s.nodes[key], cfg, now) then Some(s.nodes[key]) else None
  {
  }
}
