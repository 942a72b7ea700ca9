/**
 * The session resolver in the source's own form: two maps changed in place by `remember`,
 * `prune` and `resolve`, whose loops are proved against module `SessionTable`.
 */
module SessionTableRuntime {
  import opened Util
  import opened CanonicalJson
  import opened Lineage
  import opened T = SessionTable

  class ClientSessionResolver {
    var nodes: map<Text, Node>
    var sessions: map<string, Node>

    ghost function State(): T.State
      reads this
    {
      T.State(nodes, sessions)
    }

    constructor ()
      ensures State() == T.State(map[], map[])
    {
      nodes, sessions := map[], map[];
    }

    method ExpireNodes(cutoff: int)
      modifies `nodes
      ensures nodes == map h | h in old(nodes) && old(nodes)[h].lastSeenAt >= cutoff :: old(nodes)[h]
    {
      ghost var was := nodes;
      var left := nodes.Keys;
      while left != {}
        invariant left <= was.Keys
        invariant nodes == map h | h in was && (h in left || was[h].lastSeenAt >= cutoff) :: was[h]
        decreases |left|
      {
        var h :| h in left;
        if nodes[h].lastSeenAt < cutoff {
          nodes := nodes - {h};
        }
        left := left - {h};
      }
    }

    method ExpireSessions(cutoff: int)
      modifies `sessions
      ensures sessions == map id | id in old(sessions) && old(sessions)[id].lastSeenAt >= cutoff :: old(sessions)[id]
    {
      ghost var was := sessions;
      var left := sessions.Keys;
      while left != {}
        invariant left <= was.Keys
        invariant sessions == map id | id in was && (id in left || was[id].lastSeenAt >= cutoff) :: was[id]
        decreases |left|
      {
        var id :| id in left;
        if sessions[id].lastSeenAt < cutoff {
          sessions := sessions - {id};
        }
        left := left - {id};
      }
    }

    /** The inner scan: a session none is older than. */
    method Oldest() returns (oldestId: string)
      requires sessions != map[] && "" !in sessions
      ensures oldestId in sessions
      ensures forall id :: id in sessions ==> sessions[oldestId].lastSeenAt <= sessions[id].lastSeenAt
    {
      oldestId := "";
      var oldestAt: Option<nat> := None;
      var left := sessions.Keys;
      while left != {}
        invariant left <= sessions.Keys
        invariant oldestAt.None? ==> left == sessions.Keys
        invariant oldestAt.Some? ==> oldestId in sessions && sessions[oldestId].lastSeenAt == oldestAt.value
        invariant oldestAt.Some? ==> forall id :: id in sessions && id !in left ==> oldestAt.value <= sessions[id].lastSeenAt
        decreases |left|
      {
        var id :| id in left;
        if oldestAt.None? || sessions[id].lastSeenAt < oldestAt.value {
          oldestAt := Some(sessions[id].lastSeenAt);
          oldestId := id;
        }
        left := left - {id};
      }
    }

    method DropNodesOf(sessionId: string)
      modifies `nodes
      ensures nodes == map h | h in old(nodes) && old(nodes)[h].sessionId != sessionId :: old(nodes)[h]
    {
      ghost var was := nodes;
      var left := nodes.Keys;
      while left != {}
        invariant left <= was.Keys
        invariant nodes == map h | h in was && (h in left || was[h].sessionId != sessionId) :: was[h]
        decreases |left|
      {
        var h :| h in left;
        if nodes[h].sessionId == sessionId {
          nodes := nodes - {h};
        }
        left := left - {h};
      }
    }

    method EvictOldest() returns (oldestId: string)
      requires sessions != map[] && "" !in sessions
      modifies this
      ensures oldestId in old(sessions) && sessions == old(sessions) - {oldestId} && |sessions| == |old(sessions)| - 1
      ensures forall id :: id in old(sessions) ==> old(sessions)[oldestId].lastSeenAt <= old(sessions)[id].lastSeenAt
      ensures nodes == map h | h in old(nodes) && old(nodes)[h].sessionId != oldestId :: old(nodes)[h]
    {
      oldestId := Oldest();
      assert (sessions - {oldestId}).Keys == sessions.Keys - {oldestId};
      sessions := sessions - {oldestId};
      DropNodesOf(oldestId);
    }

    /** Evicts oldest sessions, with their nodes, while there are too many. */
    method Evict(maxSessions: nat)
      requires "" !in sessions
      modifies this
      ensures forall id :: id in sessions ==> id in old(sessions) && sessions[id] == old(sessions)[id]
      ensures |sessions| == Min(|old(sessions)|, maxSessions)
      ensures OldestOut(old(sessions), sessions)
      ensures nodes == map h | h in old(nodes) && old(nodes)[h].sessionId !in old(sessions).Keys - sessions.Keys :: old(nodes)[h]
    {
      ghost var live, was := sessions, nodes;
      assert Evicting(live, was, sessions, nodes, maxSessions);
      while |sessions| > maxSessions
        invariant "" !in sessions
        invariant Evicting(live, was, sessions, nodes, maxSessions)
        decreases |sessions|
      {
        ghost var before, nodesBefore := sessions, nodes;
        var oldestId := EvictOldest();
        EvictStep(live, was, before, nodesBefore, oldestId, sessions, nodes, maxSessions);
      }
    }

    method Prune(cfg: Config, now: nat)
      requires "" !in sessions
      modifies this
      ensures Pruned(old(State()), State(), cfg, now)
      ensures forall id :: id in sessions ==> id in old(sessions)
    {
      var cutoff := now - cfg.TtlMs();
      ghost var start := State();
      ExpireNodes(cutoff);
      ExpireSessions(cutoff);
      assert sessions == LiveSessions(start, cfg, now);
      Evict(cfg.maxSessions);
      assert nodes == KeptNodes(start.nodes, LiveSessions(start, cfg, now).Keys - sessions.Keys, cfg, now);
    }

    method Remember(key: Text, session: Node, cfg: Config, now: nat)
      requires "" !in sessions && session.sessionId != ""
      modifies this
      ensures Remembered(old(State()), State(), key, session, cfg, now)
    {
      var stored := Node(key, session.sessionId, session.upstreamSessionId, now);
      nodes := nodes[key := stored];
      sessions := sessions[stored.sessionId := stored];
      Prune(cfg, now);
    }

    /** `findLinearParent`. */
    method FindLinearParent(c: Canonical) returns (parent: Option<Node>)
      ensures parent == var key := ParentKey(c);
                        if key.Some? && key.value in nodes then Some(nodes[key.value]) else None
    {
      hide Stringify, Identity, Developers;
      if |c.messages| < 3 {
        return None;
      }
      var key := Stringify(Obj(Identity(c, Developers(c.messages), c.messages[..|c.messages| - 2])));
      parent := if key in nodes then Some(nodes[key]) else None;
    }

    method Resolve(request: Request, cfg: Config, now: nat, newNode: Node) returns (r: Result)
      requires "" !in sessions && newNode.sessionId != "" && forall h :: h in nodes ==> nodes[h].sessionId != ""
      modifies this
      ensures Resolved(old(State()), State(), request, cfg, now, newNode, r)
    {
      if cfg.mode.Off? {
        return NO_RESULT;
      }
      Prune(cfg, now);
      ghost var pruned := State();
      assert Pruned(old(State()), pruned, cfg, now);
      hide NodeKey, ParentKey, Pruned;
      if request.trace.sessionId.Some? {
        return ExplicitResult(request.trace);
      }
      if request.body.None? {
        return if request.trace.Any() then ExplicitResult(request.trace) else NO_RESULT;
      }
      var key := NodeKey(request.body.value);
      if key in nodes {
        var existing := nodes[key];
        Remember(key, existing, cfg, now);
        r := LineageResult(existing, 95, request.trace);
      } else {
        var parent := FindLinearParent(request.body.value);
        if parent.Some? {
          Remember(key, parent.value, cfg, now);
          r := LineageResult(parent.value, 90, request.trace);
        } else {
          Remember(key, newNode, cfg, now);
          r := LineageResult(newNode, 75, request.trace);
        }
      }
      assert AfterPrune(pruned, State(), request, cfg, now, newNode, r);
    }
  }

  /** `sessions` and `nodes` are what is left of `live` and `was` after some evictions. */
  ghost predicate Evicting(live: map<string, Node>, was: map<Text, Node>, sessions: map<string, Node>, nodes: map<Text, Node>, maxSessions: nat) {
    && (forall id :: id in sessions ==> id in live && sessions[id] == live[id])
    && |sessions| <= |live| && (|sessions| < |live| ==> |sessions| >= maxSessions)
    && OldestOut(live, sessions)
    && (forall h :: h in nodes <==> h in was && !(was[h].sessionId in live && was[h].sessionId !in sessions))
    && (forall h :: h in nodes ==> nodes[h] == was[h])
  }

  lemma EvictStep(live: map<string, Node>, was: map<Text, Node>, s: map<string, Node>, n: map<Text, Node>, oldestId: string,
                  t: map<string, Node>, u: map<Text, Node>, maxSessions: nat)
    requires Evicting(live, was, s, n, maxSessions) && |s| > maxSessions
    requires oldestId in s && t == s - {oldestId} && |t| == |s| - 1
    requires forall id :: id in s ==> s[oldestId].lastSeenAt <= s[id].lastSeenAt
    requires u == map h | h in n && n[h].sessionId != oldestId :: n[h]
    ensures Evicting(live, was, t, u, maxSessions)
  {
  }
}
