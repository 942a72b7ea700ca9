/**
 * `reconstructAnthropicBatch` in the source's own form: one loop over the stream that
 * updates the message, the content, the open block and its tool text.
 */
module BatchFoldRuntime {
  import opened Util
  import opened CanonicalJson
  import opened BatchFold

  method ReconstructAnthropicBatch(events: seq<Event>, parse: Parser) returns (batch: Option<Batch>)
    ensures batch == Reconstruct(events, parse)
  {
    var message: Option<Fields> := None;
    var content: seq<Content> := [];
    var currentBlock: Option<Content> := None;
    var currentToolJson := "";
    var sawMessageStop, sawError := false, false;
    for k := 0 to |events|
      invariant Fold(events[..k], parse) == State(message, content, currentBlock, currentToolJson, sawMessageStop, sawError)
    {
      assert events[..k + 1][..k] == events[..k];
      match events[k] {
        case MessageStart(started) =>
          message := Some(started);
        case BlockStart(start) =>
          if start.TextStart? {
            currentBlock := Some(Text(""));
          } else if start.ThinkingStart? {
            currentBlock := Some(Thinking("", None));
          } else if start.ToolStart? {
            currentBlock := Some(ToolUse(start.id, start.name, EMPTY_OBJECT));
            currentToolJson := "";
          }
        case BlockDelta(delta) =>
          currentBlock, currentToolJson := ApplyDelta(currentBlock, currentToolJson, delta);
        case BlockStop =>
          if currentBlock.Some? {
            var block := currentBlock.value;
            if block.ToolUse? {
              block := block.(input := ToolInput(currentToolJson, parse));
              currentToolJson := "";
            }
            content := content + [block];
            currentBlock := None;
          }
        case MessageDelta(changes, usage) =>
          if message.Some? {
            message := Some(Changed(message.value, changes, usage));
          }
        case MessageStop =>
          sawMessageStop := true;
        case ErrorEvent =>
          sawError := true;
        case Ignored =>
      }
    }
    assert events[..|events|] == events;
    if sawError || !sawMessageStop || message.None? {
      return None;
    }
    var fields := FillDefaults(message.value - {"content"});
    batch := Some(Batch(fields, content));
  }

  /** One delta added to the open block, if it is of the block's kind. */
  method ApplyDelta(block: Option<Content>, json: string, delta: Delta) returns (nextBlock: Option<Content>, nextJson: string)
    ensures forall s: State :: s.currentBlock == block && s.currentToolJson == json ==>
              Extended(s, delta) == s.(currentBlock := nextBlock, currentToolJson := nextJson)
  {
    nextBlock, nextJson := block, json;
    if block.None? {
      return;
    }
    if delta.TextDelta? && block.value.Text? {
      nextBlock := Some(Text(block.value.text + delta.text));
    } else if delta.ThinkingDelta? && block.value.Thinking? {
      nextBlock := Some(block.value.(thinking := block.value.thinking + delta.thinking));
    } else if delta.SignatureDelta? && block.value.Thinking? {
      nextBlock := Some(block.value.(signature := Some(block.value.signature.GetOr("") + delta.signature)));
    } else if delta.InputJsonDelta? && block.value.ToolUse? {
      nextJson := json + delta.partialJson;
    }
  }

  method FillDefaults(fields: Fields) returns (filled: Fields)
    ensures filled == WithDefaults(fields)
  {
    filled := fields;
    if "stop_reason" !in filled || !Truthy(filled["stop_reason"]) {
      filled := filled["stop_reason" := Word("end_turn")];
    }
    if "role" !in filled || !Truthy(filled["role"]) {
      filled := filled["role" := Word("assistant")];
    }
    if "usage" !in filled || !Truthy(filled["usage"]) {
      filled := filled["usage" := Counts(NO_USAGE)];
    }
  }
}
