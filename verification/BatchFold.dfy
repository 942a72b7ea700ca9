/**
 * `reconstructAnthropicBatch` (async/handler.ts:400-508): one response message rebuilt from
 * a stream of decoded server-sent events.
 */
module BatchFold {
  import opened Util
  import opened CanonicalJson

  /** A message field, as far as the fold looks at it. */
  datatype Value = NullValue | Word(text: string) | Counts(counts: map<string, int>) | Opaque(text: string, truthy: bool)

  type Fields = map<string, Value>

  datatype Start = TextStart | ThinkingStart | ToolStart(id: string, name: string) | UnknownStart

  datatype Delta =
    | TextDelta(text: string)
    | ThinkingDelta(thinking: string)
    | SignatureDelta(signature: string)
    | InputJsonDelta(partialJson: string)
    | UnknownDelta

  /** One block of the stream. `Ignored` covers pings, unknown types and undecodable data. */
  datatype Event =
    | MessageStart(message: Fields)
    | BlockStart(start: Start)
    | BlockDelta(delta: Delta)
    | BlockStop
    | MessageDelta(changes: Option<Fields>, usage: Option<map<string, int>>)
    | MessageStop
    | ErrorEvent
    | Ignored

  datatype Content =
    | Text(text: string)
    | Thinking(thinking: string, signature: Option<string>)
    | ToolUse(id: string, name: string, input: Json)

  /** `JSON.parse` of a tool's input; `None` where it throws. */
  type Parser = string -> Option<Json>

  const EMPTY_OBJECT: Json := Obj(NoMembers)
  const NO_USAGE: map<string, int> := map["input_tokens" := 0, "output_tokens" := 0]

  datatype State = State(
    message: Option<Fields>,
    content: seq<Content>,
    currentBlock: Option<Content>,
    currentToolJson: string,
    sawMessageStop: bool,
    sawError: bool)

  /** The rebuilt message: its content, which replaces whatever the stream said of it, and its other fields. */
  datatype Batch = Batch(fields: Fields, content: seq<Content>)

  const INIT: State := State(None, [], None, "", false, false)

  function Truthy(v: Value): bool {
    match v
    case NullValue => false
    case Word(text) => text != ""
    case Counts(_) => true
    case Opaque(_, truthy) => truthy
  }

  function Opened(s: State, start: Start): State {
    match start
    case TextStart => s.(currentBlock := Some(Text("")))
    case ThinkingStart => s.(currentBlock := Some(Thinking("", None)))
    case ToolStart(id, name) => s.(currentBlock := Some(ToolUse(id, name, EMPTY_OBJECT)), currentToolJson := "")
    case UnknownStart => s
  }

  function Extended(s: State, delta: Delta): State {
    match (delta, s.currentBlock)
    case (TextDelta(more), Some(Text(text))) => s.(currentBlock := Some(Text(text + more)))
    case (ThinkingDelta(more), Some(Thinking(thinking, signature))) =>
      s.(currentBlock := Some(Thinking(thinking + more, signature)))
    case (SignatureDelta(more), Some(Thinking(thinking, signature))) =>
      s.(currentBlock := Some(Thinking(thinking, Some(signature.GetOr("") + more))))
    case (InputJsonDelta(more), Some(ToolUse(_, _, _))) => s.(currentToolJson := s.currentToolJson + more)
    case _ => s
  }

  function ToolInput(json: string, parse: Parser): Json {
    parse(if json == "" then "{}" else json).GetOr(EMPTY_OBJECT)
  }

  function Closed(s: State, parse: Parser): State {
    match s.currentBlock
    case None => s
    case Some(ToolUse(id, name, _)) =>
      s.(content := s.content + [ToolUse(id, name, ToolInput(s.currentToolJson, parse))], currentBlock := None, currentToolJson := "")
    case Some(block) => s.(content := s.content + [block], currentBlock := None)
  }

  /** What spreading the stored usage gives. */
  function UsageOf(message: Fields): map<string, int> {
    if "usage" !in message || message["usage"].NullValue? then NO_USAGE
    else if message["usage"].Counts? then message["usage"].counts
    else map[]
  }

  function Changed(message: Fields, changes: Option<Fields>, usage: Option<map<string, int>>): Fields {
    var merged := message + changes.GetOr(map[]);
    if usage.Some? then merged["usage" := Counts(UsageOf(merged) + usage.value)] else merged
  }

  function Feed(s: State, e: Event, parse: Parser): State {
    match e
    case MessageStart(message) => s.(message := Some(message))
    case BlockStart(start) => Opened(s, start)
    case BlockDelta(delta) => Extended(s, delta)
    case BlockStop => Closed(s, parse)
    case MessageDelta(changes, usage) =>
      if s.message.Some? then s.(message := Some(Changed(s.message.value, changes, usage))) else s
    case MessageStop => s.(sawMessageStop := true)
    case ErrorEvent => s.(sawError := true)
    case Ignored => s
  }

  function Fold(events: seq<Event>, parse: Parser): State {
    if events == [] then INIT else Feed(Fold(events[..|events| - 1], parse), events[|events| - 1], parse)
  }

  function OrDefault(fields: Fields, key: string, default: Value): Fields {
    if key in fields && Truthy(fields[key]) then fields else fields[key := default]
  }

  function WithDefaults(fields: Fields): Fields {
    OrDefault(OrDefault(OrDefault(fields, "stop_reason", Word("end_turn")), "role", Word("assistant")), "usage", Counts(NO_USAGE))
  }

  function Reconstruct(events: seq<Event>, parse: Parser): Option<Batch> {
    var s := Fold(events, parse);
    if s.sawError || !s.sawMessageStop || s.message.None? then None
    else Some(Batch(WithDefaults(s.message.value - {"content"}), s.content))
  }

  // ---------------------------------------------------------------------------
  // Encoding
  // ---------------------------------------------------------------------------

  datatype ThinkingPart = Thought(text: string) | Signature(text: string)

  /** A block cut into deltas; one that is not `closed` never gets its stop event. */
  datatype Plan =
    | TextPlan(parts: seq<string>, closed: bool)
    | ThinkingPlan(thoughts: seq<ThinkingPart>, closed: bool)
    | ToolPlan(id: string, name: string, json: seq<string>, closed: bool)

  function TextDeltas(parts: seq<string>): seq<Event> {
    if parts == [] then [] else TextDeltas(parts[..|parts| - 1]) + [BlockDelta(TextDelta(parts[|parts| - 1]))]
  }

  function JsonDeltas(parts: seq<string>): seq<Event> {
    if parts == [] then [] else JsonDeltas(parts[..|parts| - 1]) + [BlockDelta(InputJsonDelta(parts[|parts| - 1]))]
  }

  function ThinkingEvent(part: ThinkingPart): Event {
    BlockDelta(match part case Thought(text) => ThinkingDelta(text) case Signature(text) => SignatureDelta(text))
  }

  function ThinkingDeltas(parts: seq<ThinkingPart>): seq<Event> {
    if parts == [] then [] else ThinkingDeltas(parts[..|parts| - 1]) + [ThinkingEvent(parts[|parts| - 1])]
  }

  function Opening(plan: Plan): Event {
    match plan
    case TextPlan(_, _) => BlockStart(TextStart)
    case ThinkingPlan(_, _) => BlockStart(ThinkingStart)
    case ToolPlan(id, name, _, _) => BlockStart(ToolStart(id, name))
  }

  function Deltas(plan: Plan): seq<Event> {
    match plan
    case TextPlan(parts, _) => TextDeltas(parts)
    case ThinkingPlan(parts, _) => ThinkingDeltas(parts)
    case ToolPlan(_, _, parts, _) => JsonDeltas(parts)
  }

  function Encode(plan: Plan): seq<Event> {
    [Opening(plan)] + Deltas(plan) + (if plan.closed then [BlockStop] else [])
  }

  function EncodeAll(plans: seq<Plan>): seq<Event> {
    if plans == [] then [] else EncodeAll(plans[..|plans| - 1]) + Encode(plans[|plans| - 1])
  }

  function Thoughts(parts: seq<ThinkingPart>): string {
    if parts == [] then ""
    else
      Thoughts(parts[..|parts| - 1])
      + (match parts[|parts| - 1] case Thought(text) => text case Signature(_) => "")
  }

  /** The signature pieces joined, if there is one. */
  function SignatureOf(parts: seq<ThinkingPart>): Option<string> {
    if parts == [] then None
    else
      var before := SignatureOf(parts[..|parts| - 1]);
      match parts[|parts| - 1]
      case Thought(_) => before
      case Signature(text) => Some(before.GetOr("") + text)
  }

  /** The block a plan stands for. */
  function Meaning(plan: Plan, parse: Parser): Content {
    match plan
    case TextPlan(parts, _) => Text(Concat(parts))
    case ThinkingPlan(parts, _) => Thinking(Thoughts(parts), SignatureOf(parts))
    case ToolPlan(id, name, parts, _) =>
      var json := Concat(parts);
      ToolUse(id, name, match parse(if |json| > 0 then json else "{}") case Some(v) => v case None => Obj(NoMembers))
  }

  /** The blocks of the closed plans, in order. */
  function MeaningAll(plans: seq<Plan>, parse: Parser): seq<Content> {
    if plans == [] then []
    else
      MeaningAll(plans[..|plans| - 1], parse)
      + (if plans[|plans| - 1].closed then [Meaning(plans[|plans| - 1], parse)] else [])
  }

  // ---------------------------------------------------------------------------
  // The fold, block by block
  // ---------------------------------------------------------------------------

  function FoldFrom(s: State, events: seq<Event>, parse: Parser): State {
    if events == [] then s else Feed(FoldFrom(s, events[..|events| - 1], parse), events[|events| - 1], parse)
  }

  lemma {:induction false} FoldFromAppend(s: State, a: seq<Event>, b: seq<Event>, parse: Parser)
    ensures FoldFrom(s, a + b, parse) == FoldFrom(FoldFrom(s, a, parse), b, parse)
  {
    hide Feed;
    if b == [] {
      assert a + b == a;
    } else {
      assert (a + b)[..|a + b| - 1] == a + b[..|b| - 1];
      FoldFromAppend(s, a, b[..|b| - 1], parse);
    }
  }

  lemma ConcatLast(parts: seq<string>)
    requires parts != []
    ensures Concat(parts) == Concat(parts[..|parts| - 1]) + parts[|parts| - 1]
  {
    ConcatSnoc(parts[..|parts| - 1], parts[|parts| - 1]);
    assert parts[..|parts| - 1] + [parts[|parts| - 1]] == parts;
  }

  lemma {:induction false} TextFolds(s: State, parts: seq<string>, parse: Parser)
    requires s.currentBlock == Some(Text(""))
    ensures FoldFrom(s, TextDeltas(parts), parse) == s.(currentBlock := Some(Text(Concat(parts))))
  {
    if parts == [] {
    } else {
      var last := |parts| - 1;
      TextFolds(s, parts[..last], parse);
      ConcatLast(parts);
      assert TextDeltas(parts)[..|TextDeltas(parts)| - 1] == TextDeltas(parts[..last]);
    }
  }

  lemma ThinkingFeeds(s: State, part: ThinkingPart, thinking: string, signature: Option<string>, parse: Parser)
    requires s.currentBlock == Some(Thinking(thinking, signature))
    ensures Feed(s, ThinkingEvent(part), parse) ==
            s.(currentBlock := Some(match part
               case Thought(text) => Thinking(thinking + text, signature)
               case Signature(text) => Thinking(thinking, Some(signature.GetOr("") + text))))
  {
  }

  lemma {:induction false} ThinkingFolds(s: State, parts: seq<ThinkingPart>, parse: Parser)
    requires s.currentBlock == Some(Thinking("", None))
    ensures FoldFrom(s, ThinkingDeltas(parts), parse) == s.(currentBlock := Some(Thinking(Thoughts(parts), SignatureOf(parts))))
  {
    if parts == [] {
    } else {
      var last := |parts| - 1;
      ThinkingFolds(s, parts[..last], parse);
      assert ThinkingDeltas(parts)[..|ThinkingDeltas(parts)| - 1] == ThinkingDeltas(parts[..last]);
      ThinkingFeeds(FoldFrom(s, ThinkingDeltas(parts[..last]), parse), parts[last], Thoughts(parts[..last]), SignatureOf(parts[..last]), parse);
      hide Feed;
      assert Thoughts(parts[..last]) + "" == Thoughts(parts[..last]);
    }
  }

  lemma ToolFeeds(s: State, part: string, parse: Parser)
    requires s.currentBlock.Some? && s.currentBlock.value.ToolUse?
    ensures Feed(s, BlockDelta(InputJsonDelta(part)), parse) == s.(currentToolJson := s.currentToolJson + part)
  {
  }

  lemma {:induction false} ToolFolds(s: State, parts: seq<string>, parse: Parser)
    requires s.currentBlock.Some? && s.currentBlock.value.ToolUse? && s.currentToolJson == ""
    ensures FoldFrom(s, JsonDeltas(parts), parse) == s.(currentToolJson := Concat(parts))
  {
    if parts == [] {
    } else {
      var last := |parts| - 1;
      ToolFolds(s, parts[..last], parse);
      ConcatLast(parts);
      assert JsonDeltas(parts)[..|JsonDeltas(parts)| - 1] == JsonDeltas(parts[..last]);
      ToolFeeds(FoldFrom(s, JsonDeltas(parts[..last]), parse), parts[last], parse);
      hide Feed;
    }
  }

  lemma DeltasFold(s: State, plan: Plan, parse: Parser)
    ensures var full := FoldFrom(Feed(s, Opening(plan), parse), Deltas(plan), parse);
            && full.content == s.content && full.currentBlock.Some?
            && Closed(full, parse).content == s.content + [Meaning(plan, parse)]
  {
    hide FoldFrom, TextDeltas, ThinkingDeltas, JsonDeltas, Thoughts, SignatureOf, Concat;
    var begun := Feed(s, Opening(plan), parse);
    match plan {
      case TextPlan(parts, _) => TextFolds(begun, parts, parse);
      case ThinkingPlan(parts, _) => ThinkingFolds(begun, parts, parse);
      case ToolPlan(_, _, parts, _) => ToolFolds(begun, parts, parse);
    }
  }

  /** A plan's events add its block if it is closed, and nothing otherwise. */
  lemma PlanFolds(s: State, plan: Plan, parse: Parser)
    ensures FoldFrom(s, Encode(plan), parse).content
         == s.content + (if plan.closed then [Meaning(plan, parse)] else [])
  {
    hide Feed, Deltas, Meaning, Opening, Closed;
    var begun := Feed(s, Opening(plan), parse);
    var stop := if plan.closed then [BlockStop] else [];
    FoldFromAppend(s, [Opening(plan)] + Deltas(plan), stop, parse);
    FoldFromAppend(s, [Opening(plan)], Deltas(plan), parse);
    FoldOne(s, Opening(plan), parse);
    DeltasFold(s, plan, parse);
    if plan.closed {
      var full := FoldFrom(begun, Deltas(plan), parse);
      FoldOne(full, BlockStop, parse);
      StopCloses(full, parse);
    }
  }

  lemma FoldOne(s: State, e: Event, parse: Parser)
    ensures FoldFrom(s, [e], parse) == Feed(s, e, parse)
  {
    hide Feed;
    assert [e][..0] == [];
  }

  lemma StopCloses(s: State, parse: Parser)
    ensures Feed(s, BlockStop, parse) == Closed(s, parse)
  {
  }

  lemma {:induction false} PlansFold(s: State, plans: seq<Plan>, parse: Parser)
    ensures FoldFrom(s, EncodeAll(plans), parse).content == s.content + MeaningAll(plans, parse)
  {
    hide Encode, Meaning, Feed;
    if plans == [] {
    } else {
      var last := |plans| - 1;
      PlansFold(s, plans[..last], parse);
      FoldFromAppend(s, EncodeAll(plans[..last]), Encode(plans[last]), parse);
      PlanFolds(FoldFrom(s, EncodeAll(plans[..last]), parse), plans[last], parse);
    }
  }

  // ---------------------------------------------------------------------------
  // Only block events matter to the content
  // ---------------------------------------------------------------------------

  /** Events that can open, extend or close a block. */
  predicate IsBlockEvent(e: Event) {
    (e.BlockStart? && !e.start.UnknownStart?) || (e.BlockDelta? && !e.delta.UnknownDelta?) || e.BlockStop?
  }

  function BlockEvents(events: seq<Event>): seq<Event> {
    if events == [] then []
    else
      BlockEvents(events[..|events| - 1])
      + (if IsBlockEvent(events[|events| - 1]) then [events[|events| - 1]] else [])
  }

  ghost predicate SameBlocks(s: State, t: State) {
    s.content == t.content && s.currentBlock == t.currentBlock && s.currentToolJson == t.currentToolJson
  }

  lemma {:induction false} ContentNeedsBlockEvents(events: seq<Event>, parse: Parser)
    ensures SameBlocks(Fold(events, parse), FoldFrom(INIT, BlockEvents(events), parse))
  {
    if events == [] {
    } else {
      var last := |events| - 1;
      ContentNeedsBlockEvents(events[..last], parse);
      var s, t := Fold(events[..last], parse), FoldFrom(INIT, BlockEvents(events[..last]), parse);
      FeedSame(s, t, events[last], parse);
      hide Feed, IsBlockEvent;
      if IsBlockEvent(events[last]) {
        var kept := BlockEvents(events);
        assert kept[..|kept| - 1] == BlockEvents(events[..last]);
        assert kept[|kept| - 1] == events[last];
        assert FoldFrom(INIT, kept, parse) == Feed(t, events[last], parse);
      } else {
        assert BlockEvents(events) == BlockEvents(events[..last]);
      }
    }
  }

  lemma FeedSame(s: State, t: State, e: Event, parse: Parser)
    requires SameBlocks(s, t)
    ensures SameBlocks(Feed(s, e, parse), Feed(t, e, parse))
    ensures !IsBlockEvent(e) ==> SameBlocks(Feed(s, e, parse), t)
  {
  }

  // ---------------------------------------------------------------------------
  // Main results
  // ---------------------------------------------------------------------------

  /** The block functions leave the message and the flags alone. */
  lemma BlocksLeaveTheRest(s: State, start: Start, delta: Delta, parse: Parser)
    ensures Opened(s, start) == s.(currentBlock := Opened(s, start).currentBlock, currentToolJson := Opened(s, start).currentToolJson)
    ensures Extended(s, delta) == s.(currentBlock := Extended(s, delta).currentBlock, currentToolJson := Extended(s, delta).currentToolJson)
    ensures var t := Closed(s, parse); t == s.(content := t.content, currentBlock := t.currentBlock, currentToolJson := t.currentToolJson)
  {
  }

  lemma {:induction false} FlagsAre(events: seq<Event>, parse: Parser)
    ensures var s := Fold(events, parse);
            && (s.sawError <==> exists i :: 0 <= i < |events| && events[i].ErrorEvent?)
            && (s.sawMessageStop <==> exists i :: 0 <= i < |events| && events[i].MessageStop?)
            && (s.message.Some? <==> exists i :: 0 <= i < |events| && events[i].MessageStart?)
  {
    if events == [] {
    } else {
      var last := |events| - 1;
      var before := events[..last];
      FlagsAre(before, parse);
      var e := events[last];
      FlagsStep(Fold(before, parse), e, parse);
      hide Feed;
      assert forall i :: 0 <= i < last ==> before[i] == events[i];
    }
  }

  lemma FlagsStep(s: State, e: Event, parse: Parser)
    ensures var t := Feed(s, e, parse);
            && t.sawError == (s.sawError || e.ErrorEvent?) && t.sawMessageStop == (s.sawMessageStop || e.MessageStop?)
            && (t.message.Some? <==> s.message.Some? || e.MessageStart?)
  {
    BlocksLeaveTheRest(s, if e.BlockStart? then e.start else UnknownStart, if e.BlockDelta? then e.delta else UnknownDelta, parse);
    hide Opened, Extended, Closed, Changed;
  }

  /** A batch is rebuilt exactly when a start and a stop arrived and no error did. */
  lemma RebuiltIff(events: seq<Event>, parse: Parser)
    ensures Reconstruct(events, parse).Some? <==>
              && (exists i :: 0 <= i < |events| && events[i].MessageStart?)
              && (exists i :: 0 <= i < |events| && events[i].MessageStop?)
              && (forall i :: 0 <= i < |events| ==> !events[i].ErrorEvent?)
  {
    FlagsAre(events, parse);
  }

  /**
   * Rebuilding undoes encoding: however the blocks are cut into deltas, and whatever pings,
   * unknown events and message events stand in between, the content is the closed blocks
   * in order.
   */
  lemma RebuildUndoesEncoding(events: seq<Event>, plans: seq<Plan>, parse: Parser)
    requires BlockEvents(events) == EncodeAll(plans)
    ensures Reconstruct(events, parse).Some? ==> Reconstruct(events, parse).value.content == MeaningAll(plans, parse)
  {
    ContentNeedsBlockEvents(events, parse);
    PlansFold(INIT, plans, parse);
  }

  /** The plan is a way of cutting this block into deltas. */
  predicate Cuts(plan: Plan, block: Content, parse: Parser) {
    match (plan, block)
    case (TextPlan(parts, _), Text(text)) => Concat(parts) == text
    case (ThinkingPlan(parts, _), Thinking(thinking, signature)) => Thoughts(parts) == thinking && SignatureOf(parts) == signature
    case (ToolPlan(id, name, parts, _), ToolUse(wanted, called, input)) =>
      id == wanted && name == called && parse(if Concat(parts) == "" then "{}" else Concat(parts)) == Some(input)
    case _ => false
  }

  /** The blocks of the closed plans are these, in order. */
  predicate CutsAll(plans: seq<Plan>, blocks: seq<Content>, parse: Parser) {
    if plans == [] then blocks == []
    else
      var last := plans[|plans| - 1];
      if last.closed
      then blocks != [] && Cuts(last, blocks[|blocks| - 1], parse) && CutsAll(plans[..|plans| - 1], blocks[..|blocks| - 1], parse)
      else CutsAll(plans[..|plans| - 1], blocks, parse)
  }

  lemma {:induction false} CutsMean(plans: seq<Plan>, blocks: seq<Content>, parse: Parser)
    requires CutsAll(plans, blocks, parse)
    ensures MeaningAll(plans, parse) == blocks
  {
    if plans == [] {
    } else {
      var last := plans[|plans| - 1];
      CutsMean(plans[..|plans| - 1], if last.closed then blocks[..|blocks| - 1] else blocks, parse);
    }
  }

  /** The round trip: blocks cut into deltas, with anything else in between, come back as they were. */
  lemma BlocksComeBack(events: seq<Event>, plans: seq<Plan>, blocks: seq<Content>, parse: Parser)
    requires BlockEvents(events) == EncodeAll(plans) && CutsAll(plans, blocks, parse)
    ensures Reconstruct(events, parse).Some? ==> Reconstruct(events, parse).value.content == blocks
  {
    RebuildUndoesEncoding(events, plans, parse);
    CutsMean(plans, blocks, parse);
  }

  /** Two ways of cutting the same blocks give the same content. */
  lemma CuttingDoesNotMatter(events: seq<Event>, others: seq<Event>, plans: seq<Plan>, cuts: seq<Plan>, parse: Parser)
    requires BlockEvents(events) == EncodeAll(plans) && BlockEvents(others) == EncodeAll(cuts)
    requires MeaningAll(plans, parse) == MeaningAll(cuts, parse)
    requires Reconstruct(events, parse).Some? && Reconstruct(others, parse).Some?
    ensures Reconstruct(events, parse).value.content == Reconstruct(others, parse).value.content
  {
    RebuildUndoesEncoding(events, plans, parse);
    RebuildUndoesEncoding(others, cuts, parse);
  }

  // ---------------------------------------------------------------------------
  // What any stream says
  // ---------------------------------------------------------------------------

  /** The text pieces among these events, joined; and so on for the other kinds. */
  function TextIn(events: seq<Event>): string {
    if events == [] then ""
    else
      var e := events[|events| - 1];
      TextIn(events[..|events| - 1]) + (if e.BlockDelta? && e.delta.TextDelta? then e.delta.text else "")
  }

  function ThoughtIn(events: seq<Event>): string {
    if events == [] then ""
    else
      var e := events[|events| - 1];
      ThoughtIn(events[..|events| - 1]) + (if e.BlockDelta? && e.delta.ThinkingDelta? then e.delta.thinking else "")
  }

  function JsonIn(events: seq<Event>): string {
    if events == [] then ""
    else
      var e := events[|events| - 1];
      JsonIn(events[..|events| - 1]) + (if e.BlockDelta? && e.delta.InputJsonDelta? then e.delta.partialJson else "")
  }

  /** A signature is there as soon as one piece of it is, even an empty one. */
  function SignatureIn(events: seq<Event>): Option<string> {
    if events == [] then None
    else
      var e, before := events[|events| - 1], SignatureIn(events[..|events| - 1]);
      if e.BlockDelta? && e.delta.SignatureDelta? then Some((if before.Some? then before.value else "") + e.delta.signature) else before
  }

  /** The block that begins like this and is followed by these events until its stop. */
  function BlockFrom(start: Start, events: seq<Event>, parse: Parser): Content
    requires !start.UnknownStart?
  {
    match start
    case TextStart => Text(TextIn(events))
    case ThinkingStart => Thinking(ThoughtIn(events), SignatureIn(events))
    case ToolStart(id, name) =>
      ToolUse(id, name, match parse(if |JsonIn(events)| > 0 then JsonIn(events) else "{}") case Some(v) => v case None => Obj(NoMembers))
  }

  /** Where the block that is still open began: at the last start of a known kind, if no stop came since. */
  function OpenAt(events: seq<Event>): (j: Option<nat>)
    ensures j.Some? ==> j.value < |events| && events[j.value].BlockStart? && !events[j.value].start.UnknownStart?
  {
    if events == [] then None
    else
      var e := events[|events| - 1];
      if e.BlockStop? then None
      else if e.BlockStart? && !e.start.UnknownStart? then Some(|events| - 1)
      else OpenAt(events[..|events| - 1])
  }

  /** One block for every stop that finds a block open, made of what came between its start and the stop. */
  function BlocksOf(events: seq<Event>, parse: Parser): seq<Content> {
    if events == [] then []
    else
      var before, open := events[..|events| - 1], OpenAt(events[..|events| - 1]);
      if events[|events| - 1].BlockStop? && open.Some?
      then BlocksOf(before, parse) + [BlockFrom(events[open.value].start, before[open.value + 1..], parse)]
      else BlocksOf(before, parse)
  }

  /** The open block is what its start and the events since then have made it. */
  ghost predicate BlockIs(s: State, start: Start, since: seq<Event>) {
    match start
    case TextStart => s.currentBlock == Some(Text(TextIn(since)))
    case ThinkingStart => s.currentBlock == Some(Thinking(ThoughtIn(since), SignatureIn(since)))
    case ToolStart(id, name) => s.currentBlock == Some(ToolUse(id, name, Obj(NoMembers))) && s.currentToolJson == JsonIn(since)
    case UnknownStart => false
  }

  ghost predicate HoldsOpen(s: State, events: seq<Event>) {
    var open := OpenAt(events);
    if open.None? then s.currentBlock.None? else BlockIs(s, events[open.value].start, events[open.value + 1..])
  }

  lemma BlockGrows(s: State, start: Start, since: seq<Event>, e: Event, parse: Parser)
    requires BlockIs(s, start, since) && !e.BlockStop? && (e.BlockStart? ==> e.start.UnknownStart?)
    ensures BlockIs(Feed(s, e, parse), start, since + [e])
  {
    assert (since + [e])[..|since|] == since;
    var text, thought, json := TextIn(since), ThoughtIn(since), JsonIn(since);
    assert text + "" == text && thought + "" == thought && json + "" == json;
    hide Changed;
  }

  lemma BlockBegins(s: State, e: Event, parse: Parser)
    requires e.BlockStart? && !e.start.UnknownStart?
    ensures BlockIs(Feed(s, e, parse), e.start, [])
  {
  }

  lemma StaysClosed(s: State, e: Event, parse: Parser)
    requires e.BlockStop? || (s.currentBlock.None? && (e.BlockStart? ==> e.start.UnknownStart?))
    ensures Feed(s, e, parse).currentBlock.None?
  {
    hide Changed;
  }

  lemma OpenStep(s: State, before: seq<Event>, e: Event, parse: Parser)
    requires HoldsOpen(s, before)
    ensures HoldsOpen(Feed(s, e, parse), before + [e])
  {
    hide Feed, BlockIs;
    var events := before + [e];
    assert events[..|events| - 1] == before;
    if e.BlockStart? && !e.start.UnknownStart? {
      assert events[|before| + 1..] == [];
      BlockBegins(s, e, parse);
    } else if e.BlockStop? || OpenAt(before).None? {
      StaysClosed(s, e, parse);
    } else {
      var j := OpenAt(before).value;
      BlockGrows(s, before[j].start, before[j + 1..], e, parse);
      assert events[j + 1..] == before[j + 1..] + [e];
    }
  }

  lemma StopAddsBlock(s: State, start: Start, since: seq<Event>, parse: Parser)
    requires BlockIs(s, start, since)
    ensures !start.UnknownStart? && Feed(s, BlockStop, parse).content == s.content + [BlockFrom(start, since, parse)]
  {
    hide TextIn, ThoughtIn, JsonIn, SignatureIn;
  }

  lemma ContentStands(s: State, e: Event, parse: Parser)
    requires !e.BlockStop? || s.currentBlock.None?
    ensures Feed(s, e, parse).content == s.content
  {
    hide Changed;
  }

  lemma ContentStep(s: State, before: seq<Event>, e: Event, parse: Parser)
    requires HoldsOpen(s, before) && s.content == BlocksOf(before, parse)
    ensures Feed(s, e, parse).content == BlocksOf(before + [e], parse)
  {
    hide Feed, BlockIs, BlockFrom;
    assert (before + [e])[..|before|] == before;
    var open := OpenAt(before);
    if e.BlockStop? && open.Some? {
      assert (before + [e])[open.value] == before[open.value];
      StopAddsBlock(s, before[open.value].start, before[open.value + 1..], parse);
    } else {
      ContentStands(s, e, parse);
    }
  }

  lemma {:induction false} FoldHolds(events: seq<Event>, parse: Parser)
    ensures HoldsOpen(Fold(events, parse), events) && Fold(events, parse).content == BlocksOf(events, parse)
  {
    hide HoldsOpen, Feed, BlocksOf;
    if events == [] {
      NothingSaid(parse);
    } else {
      var before := events[..|events| - 1];
      FoldHolds(before, parse);
      assert events == before + [events[|events| - 1]];
      OpenStep(Fold(before, parse), before, events[|events| - 1], parse);
      ContentStep(Fold(before, parse), before, events[|events| - 1], parse);
    }
  }

  lemma NothingSaid(parse: Parser)
    ensures HoldsOpen(INIT, []) && INIT.content == BlocksOf([], parse)
  {
  }

  /** The content of a rebuilt batch, for every stream whatever: the blocks it says, in order. */
  lemma ContentIsWhatWasSaid(events: seq<Event>, parse: Parser)
    ensures Reconstruct(events, parse).Some? ==> Reconstruct(events, parse).value.content == BlocksOf(events, parse)
  {
    FoldHolds(events, parse);
    hide BlocksOf;
  }

  // ---------------------------------------------------------------------------
  // The other fields
  // ---------------------------------------------------------------------------

  /** What counts as said: not null, not the empty text, and of other values what the language says. */
  lemma TruthyIff(v: Value)
    ensures Truthy(v) <==> v.Counts? || (v.Word? && |v.text| > 0) || (v.Opaque? && v.truthy)
  {
  }

  /** The last thing the stream said about a field since its last message start. */
  function LastSaid(events: seq<Event>, key: string): Option<Value> {
    if events == [] then None
    else
      var e, before := events[|events| - 1], events[..|events| - 1];
      if e.MessageStart? then (if key in e.message then Some(e.message[key]) else None)
      else if e.MessageDelta? && e.changes.Some? && key in e.changes.value && Started(before) then Some(e.changes.value[key])
      else LastSaid(before, key)
  }

  predicate Started(events: seq<Event>) {
    exists i :: 0 <= i < |events| && events[i].MessageStart?
  }

  function FieldOf(message: Option<Fields>, key: string): Option<Value> {
    if message.Some? && key in message.value then Some(message.value[key]) else None
  }

  lemma FieldStep(s: State, e: Event, key: string, parse: Parser)
    requires key != "usage"
    ensures var t := Feed(s, e, parse);
            && (t.message.Some? <==> s.message.Some? || e.MessageStart?)
            && FieldOf(t.message, key) ==
                 if e.MessageStart? then FieldOf(Some(e.message), key)
                 else if e.MessageDelta? && s.message.Some? && FieldOf(e.changes, key).Some? then FieldOf(e.changes, key)
                 else FieldOf(s.message, key)
  {
    BlocksLeaveTheRest(s, if e.BlockStart? then e.start else UnknownStart, if e.BlockDelta? then e.delta else UnknownDelta, parse);
    hide Opened, Extended, Closed, UsageOf;
  }

  lemma {:induction false} FieldsAreLastSaid(events: seq<Event>, key: string, parse: Parser)
    requires key != "usage"
    ensures var m := Fold(events, parse).message;
            (m.Some? <==> Started(events)) && FieldOf(m, key) == LastSaid(events, key)
  {
    hide Feed;
    if events == [] {
    } else {
      var last := |events| - 1;
      var before := events[..last];
      FieldsAreLastSaid(before, key, parse);
      FieldStep(Fold(before, parse), events[last], key, parse);
      assert forall i :: 0 <= i < last ==> before[i] == events[i];
      assert Started(events) <==> Started(before) || events[last].MessageStart?;
    }
  }

  /**
   * Every field but the usage is what was said last, and the two the caller needs are never
   * empty. What the stream says of the content is dropped: it is rebuilt from the blocks.
   */
  lemma FieldIsLastSaid(events: seq<Event>, key: string, parse: Parser)
    requires Reconstruct(events, parse).Some? && key != "usage"
    ensures var fields, said := Reconstruct(events, parse).value.fields, LastSaid(events, key);
            if key == "stop_reason" then key in fields && fields[key] == (if said.Some? && Truthy(said.value) then said.value else Word("end_turn"))
            else if key == "role" then key in fields && fields[key] == (if said.Some? && Truthy(said.value) then said.value else Word("assistant"))
            else if key == "content" then key !in fields
            else (if key in fields then Some(fields[key]) else None) == said
  {
    FieldsAreLastSaid(events, key, parse);
  }

  /** What spreading a usage field gives under this key. */
  function CountIn(usage: Option<Value>, key: string): Option<int> {
    if usage.None? || usage.value.NullValue? then CountOf(NO_USAGE, key)
    else if usage.value.Counts? then CountOf(usage.value.counts, key)
    else None
  }

  function CountOf(counts: map<string, int>, key: string): Option<int> {
    if key in counts then Some(counts[key]) else None
  }

  /** The count last said under this key, on top of the usage field last said as a whole. */
  function LastCount(events: seq<Event>, key: string): Option<int> {
    if events == [] then CountIn(None, key)
    else
      var e, before := events[|events| - 1], events[..|events| - 1];
      if e.MessageStart? then CountIn(FieldOf(Some(e.message), "usage"), key)
      else if e.MessageDelta? && Started(before) then
        if e.usage.Some? && key in e.usage.value then Some(e.usage.value[key])
        else if FieldOf(e.changes, "usage").Some? then CountIn(FieldOf(e.changes, "usage"), key)
        else LastCount(before, key)
      else LastCount(before, key)
  }

  /** The usage field last said as a whole, if nothing has been counted on top of it since. */
  function UsageStanding(events: seq<Event>): Option<Value> {
    if events == [] then None
    else
      var e, before := events[|events| - 1], events[..|events| - 1];
      if e.MessageStart? then FieldOf(Some(e.message), "usage")
      else if e.MessageDelta? && Started(before) then
        if e.usage.Some? then None
        else if FieldOf(e.changes, "usage").Some? then FieldOf(e.changes, "usage")
        else UsageStanding(before)
      else UsageStanding(before)
  }

  ghost predicate UsageTracks(m: Option<Fields>, standing: Option<Value>, key: string, count: Option<int>) {
    m.Some? ==>
      && CountIn(FieldOf(m, "usage"), key) == count
      && (standing.Some? ==> FieldOf(m, "usage") == standing)
      && (standing.None? ==> FieldOf(m, "usage").None? || FieldOf(m, "usage").value.Counts?)
  }

  lemma ChangedUsage(message: Fields, changes: Option<Fields>, usage: Option<map<string, int>>, key: string)
    ensures var was, now := FieldOf(Some(message), "usage"), FieldOf(Some(Changed(message, changes, usage)), "usage");
            var base := if FieldOf(changes, "usage").Some? then FieldOf(changes, "usage") else was;
            && (usage.None? ==> now == base)
            && (usage.Some? ==>
                  && now.Some? && now.value.Counts?
                  && CountIn(now, key) == if key in usage.value then Some(usage.value[key]) else CountIn(base, key))
  {
  }

  lemma {:induction false} UsageIsTracked(events: seq<Event>, key: string, parse: Parser)
    ensures var m := Fold(events, parse).message;
            (m.Some? <==> Started(events)) && UsageTracks(m, UsageStanding(events), key, LastCount(events, key))
  {
    hide Feed;
    if events == [] {
    } else {
      var last := |events| - 1;
      var before := events[..last];
      var s, e := Fold(before, parse), events[last];
      UsageIsTracked(before, key, parse);
      MessageStep(s, e, parse);
      assert forall i :: 0 <= i < last ==> before[i] == events[i];
      assert Started(events) <==> Started(before) || e.MessageStart?;
      if e.MessageDelta? && s.message.Some? {
        ChangedUsage(s.message.value, e.changes, e.usage, key);
      }
      hide Changed, CountIn;
    }
  }

  lemma MessageStep(s: State, e: Event, parse: Parser)
    ensures Feed(s, e, parse).message ==
              if e.MessageStart? then Some(e.message)
              else if e.MessageDelta? && s.message.Some? then Some(Changed(s.message.value, e.changes, e.usage))
              else s.message
  {
    BlocksLeaveTheRest(s, if e.BlockStart? then e.start else UnknownStart, if e.BlockDelta? then e.delta else UnknownDelta, parse);
    hide Opened, Extended, Closed, Changed;
  }

  /**
   * The usage of a rebuilt batch: under every key the count last said, over the usage field
   * last said as a whole, or zeros. A field that is no record of counts stands as it was said
   * if nothing was counted on top of it and it is truthy.
   */
  lemma UsageIsLastSaid(events: seq<Event>, key: string, parse: Parser)
    requires Reconstruct(events, parse).Some?
    ensures var fields, standing := Reconstruct(events, parse).value.fields, UsageStanding(events);
            && "usage" in fields && Truthy(fields["usage"])
            && var usage := fields["usage"];
               if standing.Some? && !standing.value.Counts? && !standing.value.NullValue?
               then usage == (if Truthy(standing.value) then standing.value else Counts(NO_USAGE))
               else usage.Counts? && CountOf(usage.counts, key) == LastCount(events, key)
  {
    UsageIsTracked(events, key, parse);
  }
}
