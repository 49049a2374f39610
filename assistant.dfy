/**
 * The pure and sequential parts of the assistant client: the run id and tool
 * names with their JSON quotes trimmed, the assembly of tool outputs for a run
 * that requires action, the decision taken on each polled run status, and the
 * `create_speech` loop that turns the synthesized packet stream into 960-sample
 * frames on the playback channel.
 */
module Assistant {
  import opened Wrappers
  import opened Pcm
  import opened Json
  import opened Channels
  import opened Slices
  import opened Synthesis
  import opened Strings

  // ---------------------------------------------------------------- quotes

  predicate IsQuote(c: char)
  {
    c == '"'
  }

  /**
   * `s.trim_matches('"')`: every leading and trailing `"` removed. The result
   * is the slice of `s` between two runs of quotes and neither starts nor
   * ends with a quote.
   */
  function TrimQuotes(s: string): (r: string)
    ensures r == [] || (r[0] != '"' && r[|r| - 1] != '"')
  {
    Trim(s, IsQuote)
  }

  /**
   * The run id of `create_run`: the id as rendered by `Value::to_string`, a
   * JSON string literal in quotes, with the quotes trimmed.
   */
  function RunId(renderedId: string): (r: string)
    ensures r == [] || (r[0] != '"' && r[|r| - 1] != '"')
    ensures '"' !in renderedId ==> r == renderedId
  {
    TrimQuotes(renderedId)
  }

  /** An id wrapped in quotes, `"` + id + `"`, comes back unchanged when it does not itself start or end with a quote. */
  lemma RunIdOfQuotedId(id: string)
    requires id == [] || (id[0] != '"' && id[|id| - 1] != '"')
    ensures RunId("\"" + id + "\"") == id
  {
    var quoted := "\"" + id + "\"";
    var tail := id + "\"";
    assert quoted[1..] == tail;
    if id == [] {
      assert TrimStart(tail[1..], IsQuote) == [];
    } else {
      assert TrimStart(tail, IsQuote) == tail;
      assert tail[..|tail| - 1] == id;
      assert TrimEnd(tail, IsQuote) == TrimEnd(id, IsQuote) == id;
    }
  }

  // ---------------------------------------------------------- run polling

  /** What `run_and_wait` does with a polled run. */
  datatype RunAction = Finish | SubmitOutputs | Sleep

  /**
   * Status `completed` ends the wait; `requires_action` with an action of
   * type `submit_tool_outputs` makes the client answer the tool calls; any
   * other run makes it sleep a second and poll again.
   */
  function NextAction(run: Json): (a: RunAction)
    ensures a == Finish <==> Index(run, "status") == Str("completed")
    ensures a == SubmitOutputs <==>
              Index(run, "status") == Str("requires_action")
              && Index(Index(run, "required_action"), "type") == Str("submit_tool_outputs")
  {
    if Index(run, "status") == Str("completed") then Finish
    else if Index(run, "status") == Str("requires_action")
            && Index(Index(run, "required_action"), "type") == Str("submit_tool_outputs") then SubmitOutputs
    else Sleep
  }

  // --------------------------------------------------------- tool outputs

  /** The names `execute` dispatches on; any other name reaches `todo!()`. */
  const KnownTools: set<string> :=
    {"CLIPBOARD", "FORECAST", "LOCATION_COORDINATES", "SCREENSHOT", "TIME", "USER_COORDINATES"}

  /** The output recorded for a call whose arguments do not parse as a JSON object. */
  const NoArgumentsOutput: string := "No arguments key found in tool call"

  /**
   * The code the tool loop calls but that is not modelled here: `render` is
   * `Value::to_string`, `parseObject` is `serde_json::from_str` into a map,
   * `run` the six tools' `execute`.
   */
  datatype ToolHooks = ToolHooks(render: Json -> string,
                                 parseObject: string -> Option<map<string, Json>>,
                                 run: (string, map<string, Json>) -> string)

  /** `json!({"tool_call_id": call["id"], "output": output})`. */
  function OutputRecord(call: Json, output: string): (r: Json)
    ensures Index(r, "tool_call_id") == Index(call, "id") && Index(r, "output") == Str(output)
  {
    Object(map["tool_call_id" := Index(call, "id"), "output" := Str(output)])
  }

  /** What the loop does with one entry of `tool_calls`. */
  datatype CallResult = Skipped | Emitted(record: Json) | Aborted(message: string)

  /**
   * One entry of `tool_calls`. Entries that are not objects are skipped.
   * Indexing the call's map with `"function"` panics when that key is absent
   * (unlike indexing a JSON value, which yields `null`). The tool name is the rendered `function.name` with its quotes trimmed;
   * `function.arguments` must be a string or `unwrap` panics; arguments that
   * do not parse as an object give the fixed output; otherwise the tool runs,
   * and an unknown tool name panics in `todo!()`.
   */
  function CallOutput(call: Json, hooks: ToolHooks): (r: CallResult)
    ensures r == Skipped <==> !call.Object?
    ensures r.Emitted? ==> Index(r.record, "tool_call_id") == Index(call, "id")
    ensures call.Object? && "function" !in call.fields ==> r.Aborted?
    ensures call.Object? && !Index(Index(call, "function"), "arguments").Str? ==> r.Aborted?
    ensures call.Object? && Index(Index(call, "function"), "arguments").Str?
            && hooks.parseObject(Index(Index(call, "function"), "arguments").s).None? ==>
              r == Emitted(OutputRecord(call, NoArgumentsOutput))
    ensures call.Object? && Index(Index(call, "function"), "arguments").Str?
            && hooks.parseObject(Index(Index(call, "function"), "arguments").s).Some? ==>
              (r.Aborted? <==> TrimQuotes(hooks.render(Index(Index(call, "function"), "name"))) !in KnownTools)
  {
    if !call.Object? then Skipped
    else if "function" !in call.fields then Aborted("no entry found for key")
    else
      var tool := TrimQuotes(hooks.render(Index(Index(call, "function"), "name")));
      var arguments := Index(Index(call, "function"), "arguments");
      if !arguments.Str? then Aborted("called `Option::unwrap()` on a `None` value")
      else
        match hooks.parseObject(arguments.s)
        case None => Emitted(OutputRecord(call, NoArgumentsOutput))
        case Some(args) =>
          if tool in KnownTools then Emitted(OutputRecord(call, hooks.run(tool, args)))
          else Aborted("not yet implemented")
  }

  /** Records `xs` in front of a successful result; a panic stays a panic. */
  function Prepend(xs: seq<Json>, o: Outcome<seq<Json>>): Outcome<seq<Json>>
  {
    match o
    case Returned(rest) => Returned(xs + rest)
    case Panicked(m) => Panicked(m)
  }

  /** The tool outputs for a list of calls: the records of the emitting calls in order, or the first panic. */
  function ToolOutputs(calls: seq<Json>, hooks: ToolHooks): (r: Outcome<seq<Json>>)
    ensures r.Returned? ==> |r.value| <= |calls|
  {
    if calls == [] then Returned([])
    else
      match CallOutput(calls[0], hooks)
      case Aborted(m) => Panicked(m)
      case Skipped => ToolOutputs(calls[1..], hooks)
      case Emitted(record) => Prepend([record], ToolOutputs(calls[1..], hooks))
  }

  /** The calls that are JSON objects, in order. */
  function ObjectCalls(calls: seq<Json>): seq<Json>
  {
    if calls == [] then [] else (if calls[0].Object? then [calls[0]] else []) + ObjectCalls(calls[1..])
  }

  /** The records carry the ids of the calls, position by position. */
  predicate IdsPaired(outs: seq<Json>, calls: seq<Json>)
  {
    |outs| == |calls| && forall k :: 0 <= k < |outs| ==> Index(outs[k], "tool_call_id") == Index(calls[k], "id")
  }

  /** Putting one more record for one more call in front keeps the pairing. */
  lemma IdsPairedCons(record: Json, call: Json, outs: seq<Json>, calls: seq<Json>)
    requires Index(record, "tool_call_id") == Index(call, "id") && IdsPaired(outs, calls)
    ensures IdsPaired([record] + outs, [call] + calls)
  {
    forall k | 0 < k < |outs| + 1
      ensures Index(([record] + outs)[k], "tool_call_id") == Index(([call] + calls)[k], "id")
    {
      assert ([record] + outs)[k] == outs[k - 1] && ([call] + calls)[k] == calls[k - 1];
    }
  }

  /** `ToolOutputs` on a non-empty list, one step unfolded. */
  lemma ToolOutputsStep(calls: seq<Json>, hooks: ToolHooks)
    requires calls != []
    ensures CallOutput(calls[0], hooks).Skipped? ==>
              ToolOutputs(calls, hooks) == ToolOutputs(calls[1..], hooks)
              && ObjectCalls(calls) == ObjectCalls(calls[1..])
    ensures CallOutput(calls[0], hooks).Emitted? ==>
              ToolOutputs(calls, hooks) == Prepend([CallOutput(calls[0], hooks).record], ToolOutputs(calls[1..], hooks))
              && ObjectCalls(calls) == [calls[0]] + ObjectCalls(calls[1..])
    ensures CallOutput(calls[0], hooks).Aborted? ==> ToolOutputs(calls, hooks).Panicked?
  {
  }

  /**
   * Without a panic there is exactly one record per object call, in input
   * order, each carrying that call's `id`.
   */
  lemma {:induction false} ToolOutputsPairIds(calls: seq<Json>, hooks: ToolHooks)
    requires ToolOutputs(calls, hooks).Returned?
    ensures IdsPaired(ToolOutputs(calls, hooks).value, ObjectCalls(calls))
  {
    if calls != [] {
      var c := CallOutput(calls[0], hooks);
      ToolOutputsStep(calls, hooks);
      ToolOutputsPairIds(calls[1..], hooks);
      if c.Emitted? {
        IdsPairedCons(c.record, calls[0], ToolOutputs(calls[1..], hooks).value, ObjectCalls(calls[1..]));
      }
    }
  }

  /** The assembly panics exactly when some call panics. */
  lemma {:induction false} ToolOutputsPanic(calls: seq<Json>, hooks: ToolHooks)
    ensures ToolOutputs(calls, hooks).Panicked? <==>
              exists k :: 0 <= k < |calls| && CallOutput(calls[k], hooks).Aborted?
  {
    if calls != [] {
      ToolOutputsPanic(calls[1..], hooks);
      if exists k :: 0 <= k < |calls[1..]| && CallOutput(calls[1..][k], hooks).Aborted? {
        var k :| 0 <= k < |calls[1..]| && CallOutput(calls[1..][k], hooks).Aborted?;
        assert calls[k + 1] == calls[1..][k];
      }
      if exists k :: 0 <= k < |calls| && CallOutput(calls[k], hooks).Aborted? {
        var k :| 0 <= k < |calls| && CallOutput(calls[k], hooks).Aborted?;
        if k > 0 {
          assert calls[1..][k - 1] == calls[k];
        }
      }
    }
  }

  /** Prepending twice is prepending the concatenation. */
  lemma PrependPrepend(xs: seq<Json>, ys: seq<Json>, o: Outcome<seq<Json>>)
    ensures Prepend(xs, Prepend(ys, o)) == Prepend(xs + ys, o)
  {
    if o.Returned? {
      assert xs + (ys + o.value) == (xs + ys) + o.value;
    }
  }

  /** Prepending no records changes nothing. */
  lemma PrependNothing(o: Outcome<seq<Json>>)
    ensures Prepend([], o) == o
  {
    if o.Returned? {
      assert [] + o.value == o.value;
    }
  }

  /**
   * The tool-output block of `run_and_wait`: when
   * `required_action.submit_tool_outputs.tool_calls` is an array, the
   * outputs are collected call by call (`None`: it is not an array and
   * nothing is submitted).
   */
  method AssembleToolOutputs(run: Json, hooks: ToolHooks) returns (r: Option<Outcome<seq<Json>>>)
    ensures var calls := Index(Index(Index(run, "required_action"), "submit_tool_outputs"), "tool_calls");
            r == if calls.Array? then Some(ToolOutputs(calls.items, hooks)) else None
  {
    var toolCalls := Index(Index(Index(run, "required_action"), "submit_tool_outputs"), "tool_calls");
    if !toolCalls.Array? {
      return None;
    }
    var calls := toolCalls.items;
    var outputs: seq<Json> := [];
    var i := 0;
    assert calls[0..] == calls;
    PrependNothing(ToolOutputs(calls, hooks));
    while i < |calls|
      invariant i <= |calls|
      invariant ToolOutputs(calls, hooks) == Prepend(outputs, ToolOutputs(calls[i..], hooks))
    {
      assert calls[i..][0] == calls[i] && calls[i..][1..] == calls[i + 1..];
      match CallOutput(calls[i], hooks) {
        case Aborted(m) =>
          assert ToolOutputs(calls[i..], hooks) == Panicked(m);
          return Some(Panicked(m));
        case Skipped =>
        case Emitted(record) =>
          PrependPrepend(outputs, [record], ToolOutputs(calls[i + 1..], hooks));
          outputs := outputs + [record];
      }
      i := i + 1;
    }
    assert calls[i..] == [];
    assert outputs + [] == outputs;
    r := Some(Returned(outputs));
  }

  // ------------------------------------------------------- create_speech

  /** The Opus channel layouts. */
  datatype OpusChannels = Mono | Stereo

  /** The layout for the output device's channel count: 1 and 2 are supported, anything else panics. */
  function OpusChannelsFor(channels: nat): (r: Option<OpusChannels>)
    ensures r == Some(Mono) <==> channels == 1
    ensures r == Some(Stereo) <==> channels == 2
    ensures r == None <==> channels != 1 && channels != 2
  {
    if channels == 1 then Some(Mono) else if channels == 2 then Some(Stereo) else None
  }

  /**
   * The `for chunk in samples.chunks(960)` loop of `create_speech`: each
   * frame offered in turn; `true` when the receiver is gone, which happens at
   * the first frame already.
   */
  method OfferChunks<T>(sender: Channel<T>, frames: seq<T>, ghost origin: seq<T>, ghost sent: seq<T>)
    returns (disconnected: bool)
    requires sender.receiverAlive ==> sender.queue == Offer(origin, sender.capacity, sent)
    modifies sender
    ensures sender.receiverAlive == old(sender.receiverAlive)
    ensures disconnected <==> !sender.receiverAlive && frames != []
    ensures sender.receiverAlive ==> sender.queue == Offer(origin, sender.capacity, sent + frames)
    ensures !sender.receiverAlive ==> sender.queue == old(sender.queue)
  {
    ghost var offered := sent;
    for h := 0 to |frames|
      invariant sender.receiverAlive == old(sender.receiverAlive)
      invariant offered == sent + frames[..h]
      invariant sender.receiverAlive ==> sender.queue == Offer(origin, sender.capacity, offered)
      invariant !sender.receiverAlive ==> sender.queue == old(sender.queue) && h == 0
    {
      var gone := OfferFrame(sender, frames[h], origin, offered);
      if gone {
        return true;
      }
      offered := offered + [frames[h]];
      assert frames[..h + 1] == frames[..h] + [frames[h]];
    }
    assert frames[..|frames|] == frames;
    disconnected := false;
  }

  /**
   * The packet loop of `create_speech`: each packet read is decoded into a
   * zeroed 1920-sample buffer and `samples.chunks(960)` are offered to the
   * playback channel in order; a full channel drops a frame, a channel
   * without receiver panics, a read error is skipped. An unsupported channel
   * count panics before any packet is read.
   */
  method CreateSpeech(packets: seq<PacketRead<Int16>>, sender: Channel<seq<Int16>>, channels: nat)
    returns (r: Outcome<()>)
    modifies sender
    ensures sender.receiverAlive == old(sender.receiverAlive)
    ensures OpusChannelsFor(channels).None? ==>
              r == Panicked("explicit panic") && sender.queue == old(sender.queue)
    ensures OpusChannelsFor(channels).Some? && old(sender.receiverAlive) ==>
              r == Returned(()) && sender.queue == Offer(old(sender.queue), sender.capacity, SpeechFrames(packets, 0))
    ensures OpusChannelsFor(channels).Some? && !old(sender.receiverAlive) ==>
              sender.queue == old(sender.queue)
              && (r.Panicked? <==> exists i :: 0 <= i < |packets| && packets[i].Packet?)
  {
    var layout := OpusChannelsFor(channels);
    if layout.None? {
      return Panicked("explicit panic");
    }
    ghost var sent: seq<seq<Int16>> := [];
    var i := 0;
    while i < |packets|
      invariant i <= |packets|
      invariant sender.receiverAlive == old(sender.receiverAlive)
      invariant sent == SpeechFrames(packets[..i], 0)
      invariant sender.receiverAlive ==> sender.queue == Offer(old(sender.queue), sender.capacity, sent)
      invariant !sender.receiverAlive ==>
                  sender.queue == old(sender.queue) && forall k :: 0 <= k < i ==> packets[k].ReadError?
    {
      SpeechFramesStep(packets, i, 0);
      match packets[i] {
        case ReadError =>
        case Packet(d) =>
          var samples := DecodedBuffer(d, 0);
          if |samples| == PacketSamples {
            var halves := Chunks(samples, FrameSamples);
            HalvesAreChunks(samples);
            var gone := OfferChunks(sender, halves, old(sender.queue), sent);
            if gone {
              return Panicked("Audio output channel disconnected!");
            }
            sent := sent + halves;
          }
      }
      i := i + 1;
    }
    assert packets[..i] == packets;
    r := Returned(());
  }
}
