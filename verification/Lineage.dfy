/**
 * Lineage keys of a client request (proxy/client-session.ts:205-239): what a request is
 * stored under, and what a follow-up looks its predecessor up under. The hash of a text is
 * kept as the text itself.
 */
module Lineage {
  import opened Util
  import opened CanonicalJson

  const FORMAT: Text := [102, 111, 114, 109, 97, 116]
  const MODEL: Text := [109, 111, 100, 101, 108]
  const SYSTEM: Text := [115, 121, 115, 116, 101, 109]
  const DEVELOPER: Text := [100, 101, 118, 101, 108, 111, 112, 101, 114]
  const TOOLS: Text := [116, 111, 111, 108, 115]
  const TOOL_CHOICE: Text := [116, 111, 111, 108, 95, 99, 104, 111, 105, 99, 101]
  const MESSAGES: Text := [109, 101, 115, 115, 97, 103, 101, 115]
  const ROLE: Text := [114, 111, 108, 101]

  /** A request body as `canonicalize` reads it; absent members are `Undefined`. */
  datatype Canonical = Canonical(format: Text, model: Text, system: Json, tools: Json, toolChoice: Json, messages: seq<Json>)

  predicate WfAll(values: seq<Json>) {
    forall i :: 0 <= i < |values| ==> Wf(values[i]) && !values[i].Undefined?
  }

  predicate WfCanonical(c: Canonical) {
    Wf(c.system) && Wf(c.tools) && Wf(c.toolChoice) && WfAll(c.messages) && c.messages != []
  }

  predicate IsDeveloper(m: Json) {
    m.Obj? && ROLE in Keys(m.members) && Get(m.members, ROLE) == Str(DEVELOPER)
  }

  function Developers(messages: seq<Json>): seq<Json> {
    if messages == [] then []
    else
      var last := |messages| - 1;
      Developers(messages[..last]) + (if IsDeveloper(messages[last]) then [messages[last]] else [])
  }

  function ToItems(values: seq<Json>): Items {
    if values == [] then NoItems else Item(values[0], ToItems(values[1..]))
  }

  function Identity(c: Canonical, developers: seq<Json>, messages: seq<Json>): Members {
    Member(FORMAT, Str(c.format), Member(MODEL, Str(c.model), Member(SYSTEM, c.system,
      Member(DEVELOPER, Arr(ToItems(developers)), Member(TOOLS, c.tools, Member(TOOL_CHOICE, c.toolChoice,
        Member(MESSAGES, Arr(ToItems(messages)), NoMembers)))))))
  }

  /** Key of the request's own node. */
  function NodeKey(c: Canonical): Text {
    Stringify(Obj(Identity(c, Developers(c.messages), c.messages)))
  }

  /** Key under which a follow-up looks for the request before its last two messages. */
  function ParentKey(c: Canonical): Option<Text> {
    if |c.messages| < 3 then None
    else Some(Stringify(Obj(Identity(c, Developers(c.messages), c.messages[..|c.messages| - 2]))))
  }

  // ---------------------------------------------------------------------------
  // When keys agree
  // ---------------------------------------------------------------------------

  /** Equal but for key order and for numbers that print alike. */
  ghost predicate Alike(v: Json, w: Json) {
    Same(AsPrinted(v), AsPrinted(w))
  }

  ghost predicate AllAlike(a: seq<Json>, b: seq<Json>) {
    |a| == |b| && forall i :: 0 <= i < |a| ==> Alike(a[i], b[i])
  }

  ghost predicate AlikeEnvelope(c: Canonical, p: Canonical) {
    && c.format == p.format && c.model == p.model
    && Alike(c.system, p.system) && Alike(c.tools, p.tools) && Alike(c.toolChoice, p.toolChoice)
  }

  lemma {:induction false} ItemsAlike(a: seq<Json>, b: seq<Json>)
    ensures SameItems(ItemsAsPrinted(ToItems(a)), ItemsAsPrinted(ToItems(b))) <==> AllAlike(a, b)
  {
    if a == [] || b == [] {
    } else {
      ItemsAlike(a[1..], b[1..]);
      if AllAlike(a, b) {
        forall i | 0 <= i < |a| - 1 ensures Alike(a[1..][i], b[1..][i]) {
          assert Alike(a[i + 1], b[i + 1]);
        }
        assert Alike(a[0], b[0]);
      }
      if Alike(a[0], b[0]) && AllAlike(a[1..], b[1..]) {
        forall i | 0 <= i < |a| ensures Alike(a[i], b[i]) {
          if i > 0 {
            assert Alike(a[1..][i - 1], b[1..][i - 1]);
          }
        }
      }
    }
  }

  lemma {:induction false} WfItemsOf(values: seq<Json>)
    requires WfAll(values)
    ensures WfItems(ToItems(values))
  {
    if values == [] {
    } else {
      WfItemsOf(values[1..]);
    }
  }

  lemma {:induction false} WfDevelopers(messages: seq<Json>)
    requires WfAll(messages)
    ensures WfAll(Developers(messages))
  {
    if messages == [] {
    } else {
      WfDevelopers(messages[..|messages| - 1]);
    }
  }

  lemma {:induction false} GetAsPrinted(members: Members, key: Text)
    requires key in Keys(members)
    ensures Get(MembersAsPrinted(members), key) == AsPrinted(Get(members, key))
  {
    if members.key == key {
    } else {
      GetAsPrinted(members.others, key);
    }
  }

  lemma KeysDiffer()
    ensures FORMAT != MODEL && FORMAT != SYSTEM && FORMAT != DEVELOPER && FORMAT != TOOLS && FORMAT != TOOL_CHOICE && FORMAT != MESSAGES
    ensures MODEL != SYSTEM && MODEL != DEVELOPER && MODEL != TOOLS && MODEL != TOOL_CHOICE && MODEL != MESSAGES
    ensures SYSTEM != DEVELOPER && SYSTEM != TOOLS && SYSTEM != TOOL_CHOICE && SYSTEM != MESSAGES
    ensures DEVELOPER != TOOLS && DEVELOPER != TOOL_CHOICE && DEVELOPER != MESSAGES
    ensures TOOLS != TOOL_CHOICE && TOOLS != MESSAGES && TOOL_CHOICE != MESSAGES
  {
    assert FORMAT[0] != SYSTEM[0];
    assert MODEL[0] != TOOLS[0];
  }

  lemma {:induction false} AlikeIsDeveloper(v: Json, w: Json)
    requires Alike(v, w)
    ensures IsDeveloper(v) <==> IsDeveloper(w)
  {
    if v.Obj? && w.Obj? && ROLE in Keys(v.members) && ROLE in Keys(w.members) {
      GetAsPrinted(v.members, ROLE);
      GetAsPrinted(w.members, ROLE);
      assert Same(Get(MembersAsPrinted(v.members), ROLE), Get(MembersAsPrinted(w.members), ROLE));
    }
  }

  lemma {:induction false} DevelopersAlike(a: seq<Json>, b: seq<Json>)
    requires AllAlike(a, b)
    ensures AllAlike(Developers(a), Developers(b))
  {
    hide Alike, IsDeveloper;
    if a == [] {
    } else {
      var last := |a| - 1;
      DevelopersAlike(a[..last], b[..last]);
      assert Alike(a[last], b[last]);
      AlikeIsDeveloper(a[last], b[last]);
    }
  }

  lemma DevelopersOfFollowUp(messages: seq<Json>)
    requires |messages| >= 2
    ensures var n := |messages|;
            Developers(messages) == Developers(messages[..n - 2])
              + (if IsDeveloper(messages[n - 2]) then [messages[n - 2]] else [])
              + (if IsDeveloper(messages[n - 1]) then [messages[n - 1]] else [])
  {
    hide IsDeveloper;
    var n := |messages|;
    assert messages[..n - 1][..n - 2] == messages[..n - 2];
  }

  ghost predicate AlikeParts(c: Canonical, ds: seq<Json>, ms: seq<Json>, p: Canonical, es: seq<Json>, ns: seq<Json>) {
    AlikeEnvelope(c, p) && AllAlike(ds, es) && AllAlike(ms, ns)
  }

  lemma IdentityParts(c: Canonical, ds: seq<Json>, ms: seq<Json>)
    ensures var id := Identity(c, ds, ms);
            && Keys(id) == {FORMAT, MODEL, SYSTEM, DEVELOPER, TOOLS, TOOL_CHOICE, MESSAGES}
            && Get(id, FORMAT) == Str(c.format) && Get(id, MODEL) == Str(c.model) && Get(id, SYSTEM) == c.system
            && Get(id, DEVELOPER) == Arr(ToItems(ds)) && Get(id, TOOLS) == c.tools
            && Get(id, TOOL_CHOICE) == c.toolChoice && Get(id, MESSAGES) == Arr(ToItems(ms))
  {
    KeysDiffer();
    hide ToItems, FORMAT, MODEL, SYSTEM, DEVELOPER, TOOLS, TOOL_CHOICE, MESSAGES, Wf;
    var a := Member(MESSAGES, Arr(ToItems(ms)), NoMembers);
    var b := Member(TOOL_CHOICE, c.toolChoice, a);
    var d := Member(TOOLS, c.tools, b);
    var e := Member(DEVELOPER, Arr(ToItems(ds)), d);
    var f := Member(SYSTEM, c.system, e);
    var g := Member(MODEL, Str(c.model), f);
    var id := Member(FORMAT, Str(c.format), g);
    assert id == Identity(c, ds, ms);
    assert Keys(a) == {MESSAGES};
    assert Keys(b) == {TOOL_CHOICE, MESSAGES};
    assert Keys(d) == {TOOLS, TOOL_CHOICE, MESSAGES};
    assert Keys(e) == {DEVELOPER, TOOLS, TOOL_CHOICE, MESSAGES};
    assert Keys(f) == {SYSTEM, DEVELOPER, TOOLS, TOOL_CHOICE, MESSAGES};
    assert Keys(g) == {MODEL, SYSTEM, DEVELOPER, TOOLS, TOOL_CHOICE, MESSAGES};
    assert Get(id, MODEL) == Get(g, MODEL);
    GetBehindTwo(id, SYSTEM);
    GetBehindTwo(id, DEVELOPER);
    assert Get(f, DEVELOPER) == Get(e, DEVELOPER);
    GetBehindTwo(id, TOOLS);
    GetBehindTwo(f, TOOLS);
    GetBehindTwo(id, TOOL_CHOICE);
    GetBehindTwo(f, TOOL_CHOICE);
    GetBehindTwo(id, MESSAGES);
    GetBehindTwo(f, MESSAGES);
    GetBehindTwo(d, MESSAGES);
  }

  lemma GetBehindTwo(members: Members, key: Text)
    requires key in Keys(members) && members.key != key && members.others.Member? && members.others.key != key
    ensures key in Keys(members.others.others) && Get(members, key) == Get(members.others.others, key)
  {
  }

  lemma IdentityWf(c: Canonical, ds: seq<Json>, ms: seq<Json>)
    requires Wf(c.system) && Wf(c.tools) && Wf(c.toolChoice) && WfItems(ToItems(ds)) && WfItems(ToItems(ms))
    ensures WfMembers(Identity(c, ds, ms))
  {
    KeysDiffer();
    hide ToItems, FORMAT, MODEL, SYSTEM, DEVELOPER, TOOLS, TOOL_CHOICE, MESSAGES;
    var a := Member(MESSAGES, Arr(ToItems(ms)), NoMembers);
    var b := Member(TOOL_CHOICE, c.toolChoice, a);
    var d := Member(TOOLS, c.tools, b);
    var e := Member(DEVELOPER, Arr(ToItems(ds)), d);
    var f := Member(SYSTEM, c.system, e);
    var g := Member(MODEL, Str(c.model), f);
    assert WfMembers(a);
    assert WfMembers(b);
    assert WfMembers(d);
    assert WfMembers(e);
    assert WfMembers(f);
    assert WfMembers(g);
    assert WfMembers(Member(FORMAT, Str(c.format), g));
  }

  lemma AlikeStrings(a: Text, b: Text)
    ensures Alike(Str(a), Str(b)) <==> a == b
  {
  }

  lemma AlikeArrays(a: seq<Json>, b: seq<Json>)
    ensures Alike(Arr(ToItems(a)), Arr(ToItems(b))) <==> AllAlike(a, b)
  {
    ItemsAlike(a, b);
  }

  /** Two identity objects have one key exactly when their parts are alike. */
  lemma IdentityIff(c: Canonical, ds: seq<Json>, ms: seq<Json>, p: Canonical, es: seq<Json>, ns: seq<Json>)
    requires Wf(c.system) && Wf(c.tools) && Wf(c.toolChoice) && WfAll(ds) && WfAll(ms)
    requires Wf(p.system) && Wf(p.tools) && Wf(p.toolChoice) && WfAll(es) && WfAll(ns)
    ensures Stringify(Obj(Identity(c, ds, ms))) == Stringify(Obj(Identity(p, es, ns))) <==> AlikeParts(c, ds, ms, p, es, ns)
  {
    hide Identity, ToItems, Stringify, AsPrinted, Alike, AllAlike, Get, Keys, FORMAT, MODEL, SYSTEM, DEVELOPER, TOOLS, TOOL_CHOICE, MESSAGES;
    WfItemsOf(ds);
    WfItemsOf(ms);
    WfItemsOf(es);
    WfItemsOf(ns);
    IdentityWf(c, ds, ms);
    IdentityWf(p, es, ns);
    IdentityParts(c, ds, ms);
    IdentityParts(p, es, ns);
    var x, y := Identity(c, ds, ms), Identity(p, es, ns);
    PrintsAlikeIff(Obj(x), Obj(y));
    MembersIff(x, y);
    AlikeStrings(c.format, p.format);
    AlikeStrings(c.model, p.model);
    AlikeArrays(ds, es);
    AlikeArrays(ms, ns);
    if AlikeParts(c, ds, ms, p, es, ns) {
      forall key | key in Keys(x) ensures Alike(Get(x, key), Get(y, key)) {
      }
    }
  }

  lemma MembersIff(x: Members, y: Members)
    ensures Same(AsPrinted(Obj(x)), AsPrinted(Obj(y))) <==>
              Keys(x) == Keys(y) && forall key :: key in Keys(x) ==> Alike(Get(x, key), Get(y, key))
  {
    var v, w := MembersAsPrinted(x), MembersAsPrinted(y);
    forall key | key in Keys(x) && key in Keys(y)
      ensures Same(Get(v, key), Get(w, key)) <==> Alike(Get(x, key), Get(y, key))
    {
      GetAsPrinted(x, key);
      GetAsPrinted(y, key);
    }
  }

  // ---------------------------------------------------------------------------
  // Main results
  // ---------------------------------------------------------------------------

  /** Requests share a node exactly when they are alike: reordering keys makes no difference. */
  lemma NodeKeyIff(c: Canonical, p: Canonical)
    requires WfCanonical(c) && WfCanonical(p)
    ensures NodeKey(c) == NodeKey(p) <==> AlikeEnvelope(c, p) && AllAlike(c.messages, p.messages)
  {
    WfDevelopers(c.messages);
    WfDevelopers(p.messages);
    IdentityIff(c, Developers(c.messages), c.messages, p, Developers(p.messages), p.messages);
    if AllAlike(c.messages, p.messages) {
      DevelopersAlike(c.messages, p.messages);
    }
  }

  /**
   * A request finds `p` as its parent exactly when it repeats `p` and appends two messages,
   * neither of them from the developer.
   */
  lemma ParentKeyIff(c: Canonical, p: Canonical)
    requires WfCanonical(c) && WfCanonical(p)
    ensures var n := |c.messages|;
            ParentKey(c) == Some(NodeKey(p)) <==>
              && n >= 3 && AlikeEnvelope(c, p) && AllAlike(c.messages[..n - 2], p.messages)
              && !IsDeveloper(c.messages[n - 2]) && !IsDeveloper(c.messages[n - 1])
  {
    var n := |c.messages|;
    if n >= 3 {
      var kept := c.messages[..n - 2];
      hide IsDeveloper, Identity, Stringify, Wf, Alike;
      WfDevelopers(c.messages);
      WfDevelopers(p.messages);
      IdentityIff(c, Developers(c.messages), kept, p, Developers(p.messages), p.messages);
      DevelopersOfFollowUp(c.messages);
      if AllAlike(kept, p.messages) {
        DevelopersAlike(kept, p.messages);
        assert |Developers(kept)| == |Developers(p.messages)|;
        if !IsDeveloper(c.messages[n - 2]) && !IsDeveloper(c.messages[n - 1]) {
          assert Developers(c.messages) == Developers(kept);
        }
      }
    }
  }
}
