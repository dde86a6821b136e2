/**
 The send loop (`anthrouter/transport.py`): at most `MAX_RETRIES + 1` dispatches, plain
 retries, and two one-shot recoveries that rebuild the body.  The upstream is an arbitrary
 function of the attempt.
 */
module Transport {
  import opened Common
  import opened Text
  import opened Json
  import opened ModelConfig
  import opened InlineSystem
  import opened AnthropicTransform
  import opened OutboundGates

  // ---- Stripping thinking blocks (`anthrouter/mapper/common.py`) -------------

  const THINKING_TYPES := {Str("thinking"), Str("redacted_thinking")}

  predicate IsThinking(block: Json) {
    Field(block, "type") in THINKING_TYPES
  }

  /** A type that is a list or an object cannot be looked up in a frozen set: the source raises. */
  predicate Unhashable(block: Json) {
    Field(block, "type").Arr? || Field(block, "type").Obj?
  }

  function WithoutThinking(blocks: seq<Json>): (r: seq<Json>)
    ensures |r| <= |blocks|
  {
    if blocks == [] then []
    else (if IsThinking(blocks[0]) then [] else [blocks[0]]) + WithoutThinking(blocks[1..])
  }

  predicate NoThinking(blocks: seq<Json>) {
    blocks == [] || (!IsThinking(blocks[0]) && NoThinking(blocks[1..]))
  }

  /** The content list of an assistant turn, where thinking blocks can be. */
  function AssistantBlocks(m: Json): seq<Json> {
    if Field(m, "role") == Str("assistant") && Field(m, "content").Arr? then Field(m, "content").items else []
  }

  function StripMessage(m: Json): (r: Json)
    ensures Field(r, "role") == Field(m, "role")
  {
    var blocks := AssistantBlocks(m);
    var kept := WithoutThinking(blocks);
    if |kept| == |blocks| then m
    else Obj(m.fields["content" := Arr(if kept != [] then kept else [TextBlock("")])])
  }

  predicate HasUnhashable(messages: seq<Json>) {
    exists i, j :: 0 <= i < |messages| && 0 <= j < |AssistantBlocks(messages[i])|
      && Unhashable(AssistantBlocks(messages[i])[j])
  }

  function StripAll(messages: seq<Json>): (r: seq<Json>)
    ensures |r| == |messages|
  {
    seq(|messages|, i requires 0 <= i < |messages| => StripMessage(messages[i]))
  }

  /** `None` where the source raises; otherwise the list and whether it is a new one. */
  method StripAllThinkingBlocks(messages: seq<Json>) returns (r: Option<(seq<Json>, bool)>)
    ensures r == if HasUnhashable(messages) then None
                 else Some((StripAll(messages), StripAll(messages) != messages))
  {
    if exists i, j :: 0 <= i < |messages| && 0 <= j < |AssistantBlocks(messages[i])|
        && Unhashable(AssistantBlocks(messages[i])[j]) {
      return None;
    }
    var result: seq<Json>, changed := [], false;
    for i := 0 to |messages|
      invariant result == StripAll(messages)[..i]
      invariant changed <==> StripAll(messages)[..i] != messages[..i]
    {
      var m := messages[i];
      var blocks := AssistantBlocks(m);
      var kept := WithoutThinking(blocks);
      if |kept| == |blocks| {
        result := result + [m];
      } else {
        StrippedDiffers(m);
        changed := true;
        result := result + [Obj(m.fields["content" := Arr(if kept != [] then kept else [TextBlock("")])])];
      }
      GrowsBy(StripAll(messages), messages, i);
    }
    assert StripAll(messages)[..|messages|] == StripAll(messages) && messages[..|messages|] == messages;
    return Some((if changed then result else messages, changed));
  }

  lemma GrowsBy(a: seq<Json>, b: seq<Json>, i: nat)
    requires i < |a| == |b|
    ensures a[..i + 1] == b[..i + 1] <==> a[..i] == b[..i] && a[i] == b[i]
    ensures a[..i + 1] == a[..i] + [a[i]]
  {
    assert a[..i + 1] == a[..i] + [a[i]] && b[..i + 1] == b[..i] + [b[i]];
    if a[..i + 1] == b[..i + 1] {
      assert a[i] == a[..i + 1][i] == b[i];
      assert a[..i] == a[..i + 1][..i] == b[..i];
    }
  }

  lemma {:induction false} WithoutThinkingIsClean(blocks: seq<Json>)
    ensures NoThinking(WithoutThinking(blocks))
    ensures |WithoutThinking(blocks)| == |blocks| <==> NoThinking(blocks)
  {
    if blocks != [] {
      WithoutThinkingIsClean(blocks[1..]);
      var rest := WithoutThinking(blocks[1..]);
      if IsThinking(blocks[0]) {
        assert WithoutThinking(blocks) == rest;
      } else {
        assert WithoutThinking(blocks)[1..] == rest;
      }
    }
  }

  lemma StripMessageIsClean(m: Json)
    ensures NoThinking(AssistantBlocks(StripMessage(m)))
    ensures StripMessage(m) == m <==> NoThinking(AssistantBlocks(m))
  {
    var blocks := AssistantBlocks(m);
    WithoutThinkingIsClean(blocks);
    if |WithoutThinking(blocks)| != |blocks| {
      var kept := WithoutThinking(blocks);
      var content := if kept != [] then kept else [TextBlock("")];
      assert AssistantBlocks(StripMessage(m)) == content;
      EmptyTextIsClean();
    }
  }

  lemma EmptyTextIsClean()
    ensures NoThinking([TextBlock("")])
  {
    assert Field(TextBlock(""), "type") == Str("text");
  }

  lemma StrippedDiffers(m: Json)
    requires |WithoutThinking(AssistantBlocks(m))| != |AssistantBlocks(m)|
    ensures StripMessage(m) != m
  {
    WithoutThinkingIsClean(AssistantBlocks(m));
    StripMessageIsClean(m);
  }

  /** No assistant turn carries a thinking block. */
  predicate CleanHistory(messages: seq<Json>) {
    forall i :: 0 <= i < |messages| ==> NoThinking(AssistantBlocks(messages[i]))
  }

  /**
   Stripping cleans the history, touches assistant turns only, never leaves one empty, and
   does nothing exactly when there was nothing to strip.
   */
  lemma StripAllCleans(messages: seq<Json>)
    ensures CleanHistory(StripAll(messages))
    ensures StripAll(messages) == messages <==> CleanHistory(messages)
    ensures StripAll(StripAll(messages)) == StripAll(messages)
    ensures forall i :: 0 <= i < |messages| && Field(messages[i], "role") != Str("assistant")
              ==> StripAll(messages)[i] == messages[i]
    ensures forall i :: 0 <= i < |messages| && AssistantBlocks(messages[i]) != []
              ==> AssistantBlocks(StripAll(messages)[i]) != []
  {
    forall i | 0 <= i < |messages|
      ensures NoThinking(AssistantBlocks(StripAll(messages)[i]))
      ensures StripAll(messages)[i] == messages[i] <==> NoThinking(AssistantBlocks(messages[i]))
      ensures StripMessage(StripAll(messages)[i]) == StripAll(messages)[i]
      ensures Field(messages[i], "role") != Str("assistant") ==> StripAll(messages)[i] == messages[i]
      ensures AssistantBlocks(messages[i]) != [] ==> AssistantBlocks(StripAll(messages)[i]) != []
    {
      StripMessageIsClean(messages[i]);
      StripMessageIsClean(StripMessage(messages[i]));
      if AssistantBlocks(messages[i]) != [] {
        NeverEmptied(messages[i]);
      }
    }
    if CleanHistory(messages) {
      assert StripAll(messages) == messages;
    }
    assert StripAll(StripAll(messages)) == StripAll(messages);
  }

  lemma NeverEmptied(m: Json)
    requires AssistantBlocks(m) != []
    ensures AssistantBlocks(StripMessage(m)) != []
  {
    var kept := WithoutThinking(AssistantBlocks(m));
    if |kept| != |AssistantBlocks(m)| {
      assert AssistantBlocks(StripMessage(m)) == if kept != [] then kept else [TextBlock("")];
    }
  }

  // ---- What stripping leaves -------------------------------------------------

  predicate IsKept(block: Json) {
    Field(block, "type") != Str("thinking") && Field(block, "type") != Str("redacted_thinking")
  }

  lemma {:induction false} WithoutThinkingPicks(blocks: seq<Json>)
    ensures Picks(blocks, WithoutThinking(blocks), IsKept, Itself)
    ensures WithoutThinking(blocks) == [] <==> forall i :: 0 <= i < |blocks| ==> !IsKept(blocks[i])
  {
    if blocks == [] {
      PicksNothing<Json, Json>(IsKept, Itself);
    } else {
      WithoutThinkingPicks(blocks[1..]);
      PicksFirst(blocks[0], blocks[1..], WithoutThinking(blocks[1..]), IsKept, Itself);
      assert [blocks[0]] + blocks[1..] == blocks;
      assert [] + WithoutThinking(blocks[1..]) == WithoutThinking(blocks[1..]);
      OnlyFirstOrLater(blocks);
    }
  }

  lemma OnlyFirstOrLater(blocks: seq<Json>)
    requires blocks != []
    ensures (forall i :: 0 <= i < |blocks| ==> !IsKept(blocks[i]))
            <==> !IsKept(blocks[0]) && forall i :: 0 <= i < |blocks[1..]| ==> !IsKept(blocks[1..][i])
  {
    if forall i :: 0 <= i < |blocks[1..]| ==> !IsKept(blocks[1..][i]) {
      forall i | 0 < i < |blocks| ensures !IsKept(blocks[i]) {
        assert blocks[1..][i - 1] == blocks[i];
      }
    }
  }

  /** All that stripping may do to a list of blocks. */
  ghost predicate KeepsTheRest(before: seq<Json>, after: seq<Json>) {
    if before != [] && forall i :: 0 <= i < |before| ==> !IsKept(before[i]) then after == [TextBlock("")]
    else Picks(before, after, IsKept, Itself)
  }

  lemma {:induction false} NothingThinks(blocks: seq<Json>)
    requires |WithoutThinking(blocks)| == |blocks|
    ensures WithoutThinking(blocks) == blocks
  {
    if blocks != [] {
      NothingThinks(blocks[1..]);
    }
  }

  /**
   A recovery takes the thinking blocks of an assistant turn and nothing else: the other blocks
   are all there, in order, the empty text block stands in when there is none, and the other
   keys of the turn are as they were.
   */
  lemma StrippingKeepsTheRest(messages: seq<Json>, i: nat)
    requires i < |messages|
    ensures var before, after := messages[i], StripAll(messages)[i];
            if Field(before, "role") == Str("assistant") && Field(before, "content").Arr? then
              && after.Obj? && after.fields - {"content"} == before.fields - {"content"}
              && Field(after, "content").Arr?
              && KeepsTheRest(Field(before, "content").items, Field(after, "content").items)
            else after == before
  {
    var m := messages[i];
    var blocks := AssistantBlocks(m);
    WithoutThinkingPicks(blocks);
    if |WithoutThinking(blocks)| == |blocks| {
      NothingThinks(blocks);
    }
  }

  // ---- One dispatch ----------------------------------------------------------

  const MAX_RETRIES: nat := 3
  const RETRYABLE_STATUSES := {429, 500, 502, 503, 504}

  /** What `json.loads` makes of a body: it may raise another error than its own, as on bytes that are not UTF-8. */
  datatype Loaded = Parsed(value: Json) | NotJson | LoadRaises

  /** The body as it is read, or a connection that breaks off meanwhile, with or without a reset. */
  datatype ReplyBody = Received(bytes: string, loaded: Loaded) | CutOff(reset: bool)

  /** What the reply says about when to retry: a delay may be one that `time.sleep` refuses. */
  datatype Guidance = NoGuidance | Delay | EndlessDelay

  datatype Reply =
    | NetworkFailure
    | Http(status: nat, body: ReplyBody, guidance: Guidance)

  /** Where an exception that is not the proxy's own error comes from. */
  datatype Cause = Stripping | Sleeping | ErrorHandling | Reading(reset: bool)

  datatype Outcome =
    | Delivered(body: ReplyBody)
    | Failed(status: nat)
    | NotBuilt(error: BuildError)
    | Crashed(cause: Cause)

  // ---- An upstream error (`anthrouter/http_util.py`) -------------------------

  const EXPIRED_THREAD := "No thread state was found"

  /** `None` stands for the message `str(detail)`, the printed body, which begins with a brace. */
  function ErrorMessage(detail: Json): Option<Json> {
    var inner := Field(Field(detail, "error"), "message");
    if Truthy(inner) then Some(inner)
    else if Truthy(Field(detail, "message")) then Some(Field(detail, "message"))
    else None
  }

  /** The message of an error that is a JSON object. */
  function MessageOf(loaded: Loaded): Option<Json> {
    if loaded.Parsed? && loaded.value.Obj? then ErrorMessage(loaded.value) else None
  }

  /** The expired-Thread 404, which is shown as a 400. */
  predicate IsExpiredThread(status: nat, loaded: Loaded) {
    var message := MessageOf(loaded);
    status == 404 && message.Some? && message.value.Str? && StartsWith(message.value.s, EXPIRED_THREAD)
  }

  /**
   The bodies on which the error handler itself raises: those that `json.loads` cannot take, a
   message that cannot be sliced, and on a 404 one that is no string.
   */
  predicate HandlerRaises(status: nat, loaded: Loaded) {
    var message := MessageOf(loaded);
    || loaded.LoadRaises?
    || (message.Some? && !message.value.Str? && (!message.value.Arr? || status == 404))
  }

  /** What it ends in: the proxy's own error with its status, or an exception. */
  function Handled(status: nat, loaded: Loaded): Outcome {
    if HandlerRaises(status, loaded) then Crashed(ErrorHandling)
    else if !(400 <= status < 500) then Failed(502)
    else if IsExpiredThread(status, loaded) then Failed(400)
    else Failed(status)
  }

  /** `handle_error_response`, as far as its status goes. */
  method HandleErrorResponse(status: nat, loaded: Loaded) returns (outcome: Outcome)
    ensures outcome == Handled(status, loaded)
  {
    var message: Option<Json> := None;
    var isJson := true;
    if loaded.LoadRaises? {
      return Crashed(ErrorHandling);
    }
    if loaded.NotJson? || !loaded.value.Obj? {
      isJson := false;
    } else {
      var error := Field(loaded.value, "error");
      if !error.Obj? {
        error := Obj(map[]);
      }
      if Truthy(Field(error, "message")) {
        message := Some(Field(error, "message"));
      } else if Truthy(Field(loaded.value, "message")) {
        message := Some(Field(loaded.value, "message"));
      }
    }
    // The log line slices the message.
    if isJson && message.Some? && !message.value.Str? && !message.value.Arr? {
      return Crashed(ErrorHandling);
    }
    if 400 <= status < 500 {
      if status == 404 && isJson && message.Some? {
        if !message.value.Str? {
          return Crashed(ErrorHandling);
        }
        if StartsWith(message.value.s, EXPIRED_THREAD) {
          return Failed(400);
        }
      }
      return Failed(status);
    }
    outcome := Failed(502);
  }

  /** The message of a JSON error: that of its `error`, or else its own; empty ones do not count. */
  predicate IsMessageOf(detail: Fields, message: Option<Json>) {
    var inner := if "error" in detail && detail["error"].Obj? then detail["error"].fields else map[];
    if "message" in inner && Truthy(inner["message"]) then message == Some(inner["message"])
    else if "message" in detail && Truthy(detail["message"]) then message == Some(detail["message"])
    else message == None
  }

  /** What becomes of an upstream error whose body is a JSON object with this message. */
  function HandledMessage(status: nat, message: Option<Json>): Outcome {
    match message
    case Some(Str(s)) =>
      if status == 404 && "No thread state was found" <= s then Failed(400)
      else Failed(if 400 <= status < 500 then status else 502)
    case Some(Arr(_)) =>
      if status == 404 then Crashed(ErrorHandling) else Failed(if 400 <= status < 500 then status else 502)
    case Some(_) => Crashed(ErrorHandling)
    case None => Failed(if 400 <= status < 500 then status else 502)
  }

  /** How an upstream error ends, by its status and its message. */
  lemma HandledMeans(status: nat, loaded: Loaded, message: Option<Json>)
    ensures loaded == LoadRaises ==> Handled(status, loaded) == Crashed(ErrorHandling)
    ensures loaded == NotJson || (loaded.Parsed? && !loaded.value.Obj?) ==>
              Handled(status, loaded) == Failed(if 400 <= status < 500 then status else 502)
    ensures loaded.Parsed? && loaded.value.Obj? && IsMessageOf(loaded.value.fields, message) ==>
              Handled(status, loaded) == HandledMessage(status, message)
  {
    if loaded.Parsed? && loaded.value.Obj? && IsMessageOf(loaded.value.fields, message) {
      MessageMeans(loaded.value, message);
    }
  }

  lemma MessageMeans(detail: Json, message: Option<Json>)
    requires detail.Obj? && IsMessageOf(detail.fields, message)
    ensures ErrorMessage(detail) == message
  {
  }

  // ---- What the client is shown ----------------------------------------------

  /** `Passed`: a 200 is handed on to what writes it to the client. */
  datatype Shown = Status(status: nat) | Nothing | Passed

  /**
   What a client gets which still waits for its status line.  Any exception but the proxy's own
   error is a 502, except that without streaming a connection reset is taken for the client's,
   and nothing is sent.  A 200 that is not streamed is read and parsed first.
   */
  function ShownAs(outcome: Outcome, streams: bool): Shown {
    match outcome
    case Delivered(body) => if streams then Passed else ShownMessage(body)
    case Failed(status) => Status(status)
    case NotBuilt(error) => Status(if error == MissingModel then 400 else 502)
    case Crashed(cause) => if cause == Reading(true) && !streams then Nothing else Status(502)
  }

  /** `send_message` */
  function ShownMessage(body: ReplyBody): Shown {
    match body
    case Received(_, loaded) => if loaded.Parsed? then Passed else Status(502)
    case CutOff(reset) => if reset then Nothing else Status(502)
  }

  /** What is sent: the payload and its betas, and the aliases in force. */
  datatype Call = Call(payload: Request, betas: seq<string>, aliases: Aliases)

  /** Which recoveries have fired. */
  datatype Phase = Phase(stripped: bool, forced: bool)

  const START := Phase(false, false)

  /** `should_retry`. */
  predicate ShouldRetry(reply: Reply) {
    reply.Http? && reply.status in RETRYABLE_STATUSES && (reply.status == 429 ==> reply.guidance != NoGuidance)
  }

  predicate BlamesThinking(reply: Reply) {
    && reply.Http? && reply.status == 400 && reply.body.Received? && Contains(reply.body.bytes, "thinking")
    && (Contains(reply.body.bytes, "signature") || Contains(reply.body.bytes, "redacted_thinking"))
  }

  predicate BlamesSystemRole(reply: Reply) {
    && reply.Http? && reply.status == 400 && reply.body.Received?
    && Contains(reply.body.bytes, "system") && Contains(reply.body.bytes, "role")
  }

  /** The payload as it stands: its thinking blocks are gone once that recovery has fired. */
  function Current(c: Call, phase: Phase): Request {
    var messages := Lookup(c.payload, Messages);
    if phase.stripped && messages.Arr? then c.payload[Messages := Arr(StripAll(messages.items))] else c.payload
  }

  /** What `build_body` is called with for a dispatch. */
  function Variant(c: Call, phase: Phase): Query {
    Query(Current(c, phase), c.betas, c.aliases, phase.forced)
  }

  predicate CanRewrite(c: Call, phase: Phase) {
    var model := ResolvedModel(Variant(c, phase));
    var messages := Lookup(Current(c, phase), Messages);
    && model.Some? && !TraitsOf(model.value).rejectsSystemRole
    && messages.Arr? && exists i :: 0 <= i < |messages.items| && IsSystem(messages.items[i])
  }

  predicate TriesStripping(c: Call, phase: Phase, reply: Reply) {
    !phase.stripped && BlamesThinking(reply) && Lookup(c.payload, Messages).Arr?
  }

  predicate RecoversByStripping(c: Call, phase: Phase, reply: Reply) {
    && TriesStripping(c, phase, reply)
    && var messages := c.payload[Messages].items; !HasUnhashable(messages) && StripAll(messages) != messages
  }

  predicate RecoversByRewriting(c: Call, phase: Phase, reply: Reply) {
    !phase.forced && BlamesSystemRole(reply) && CanRewrite(c, phase)
  }

  predicate Recovers(c: Call, phase: Phase, reply: Reply) {
    || RecoversByStripping(c, phase, reply)
    || (RecoversByRewriting(c, phase, reply) && !StripBreaks(c, phase, reply))
  }

  predicate StripBreaks(c: Call, phase: Phase, reply: Reply) {
    TriesStripping(c, phase, reply) && HasUnhashable(c.payload[Messages].items)
  }

  datatype Move = Again(phase: Phase) | Stop(outcome: Outcome)

  /** A retry reads the reply and sleeps first. */
  function Retry(phase: Phase, reply: Reply): Move
    requires reply.Http?
  {
    if reply.body.CutOff? then Stop(Crashed(Reading(reply.body.reset)))
    else if reply.guidance.EndlessDelay? then Stop(Crashed(Sleeping))
    else Again(phase)
  }

  /** What the loop does with the reply to one dispatch. */
  function Next(c: Call, phase: Phase, attempt: nat, reply: Reply): Move {
    if reply.NetworkFailure? then if attempt < MAX_RETRIES then Again(phase) else Stop(Failed(502))
    else if reply.status == 200 then Stop(Delivered(reply.body))
    else if ShouldRetry(reply) && attempt < MAX_RETRIES then Retry(phase, reply)
    else if reply.body.CutOff? then Stop(Crashed(Reading(reply.body.reset)))
    else if StripBreaks(c, phase, reply) then Stop(Crashed(Stripping))
    else if RecoversByStripping(c, phase, reply) then Again(phase.(stripped := true))
    else if RecoversByRewriting(c, phase, reply) then Again(phase.(forced := true))
    else Stop(Handled(reply.status, reply.body.loaded))
  }

  /** The phase of every dispatch from `attempt` on. */
  function Trace(c: Call, upstream: nat -> Reply, attempt: nat, phase: Phase): seq<Phase>
    requires attempt <= MAX_RETRIES
    decreases MAX_RETRIES - attempt
  {
    var next := Next(c, phase, attempt, upstream(attempt));
    [phase] + if next.Again? && attempt < MAX_RETRIES then Trace(c, upstream, attempt + 1, next.phase) else []
  }

  function Result(c: Call, upstream: nat -> Reply, attempt: nat, phase: Phase): Outcome
    requires attempt <= MAX_RETRIES
    decreases MAX_RETRIES - attempt
  {
    match Next(c, phase, attempt, upstream(attempt))
    case Stop(outcome) => outcome
    case Again(after) => if attempt < MAX_RETRIES then Result(c, upstream, attempt + 1, after) else Failed(502)
  }

  // ---- The loop --------------------------------------------------------------

  /** What `BuildBody` promises of its result. */
  ghost predicate IsBuilt(q: Query, built: Built) {
    match ResolvedModel(q)
    case None => built == Raised(ModelError(q))
    case Some(model) =>
      if EffortLookupFails(q, TraitsOf(model)) then built == Raised(UnhashableEffort)
      else built.Body? && IsBody(q, model, TraitsOf(model), built.fields)
  }

  /** Every body is built from the phase it was sent in. */
  ghost predicate SentAs(c: Call, phases: seq<Phase>, bodies: seq<Request>) {
    if phases == [] || bodies == [] then phases == [] && bodies == []
    else
      && IsBuilt(Variant(c, phases[|phases| - 1]), Body(bodies[|bodies| - 1]))
      && SentAs(c, phases[..|phases| - 1], bodies[..|bodies| - 1])
  }

  lemma SentOneMore(c: Call, phases: seq<Phase>, bodies: seq<Request>, phase: Phase, body: Request)
    requires SentAs(c, phases, bodies) && IsBuilt(Variant(c, phase), Body(body))
    ensures SentAs(c, phases + [phase], bodies + [body])
  {
    assert (phases + [phase])[..|phases|] == phases && (bodies + [body])[..|bodies|] == bodies;
  }

  lemma {:induction false} SentAt(c: Call, phases: seq<Phase>, bodies: seq<Request>, i: nat)
    requires SentAs(c, phases, bodies) && i < |phases|
    ensures |bodies| == |phases| && IsBuilt(Variant(c, phases[i]), Body(bodies[i]))
  {
    if i < |phases| - 1 {
      SentAt(c, phases[..|phases| - 1], bodies[..|bodies| - 1], i);
    } else if i > 0 {
      SentAt(c, phases[..|phases| - 1], bodies[..|bodies| - 1], i - 1);
    } else {
      assert phases[..|phases| - 1] == [];
    }
  }

  /** The beta header, computed once from the payload as it arrived. */
  function Header(c: Call): seq<string> {
    Merged(c.betas, ThinkingActive(c.payload, BetaTraits(Variant(c, START))), BetaTraits(Variant(c, START)).opus)
  }

  lemma SameGatesInEveryPhase(c: Call, phase: Phase)
    ensures ResolvedModel(Variant(c, phase)) == ResolvedModel(Variant(c, START))
    ensures forall t :: EffortLookupFails(Variant(c, phase), t) == EffortLookupFails(Variant(c, START), t)
    ensures BetaTraits(Variant(c, phase)) == BetaTraits(Variant(c, START))
    ensures forall t :: ThinkingActive(Current(c, phase), t) == ThinkingActive(c.payload, t)
  {
    assert forall key :: key != Messages ==> Given(Variant(c, phase), key) == Given(Variant(c, START), key);
    forall t ensures EffortLookupFails(Variant(c, phase), t) == EffortLookupFails(Variant(c, START), t) {
      SameConfigInEveryPhase(c, phase, t);
    }
  }

  lemma SameConfigInEveryPhase(c: Call, phase: Phase, t: Traits)
    ensures OutputConfigOut(Variant(c, phase), t) == OutputConfigOut(Variant(c, START), t)
  {
    assert Given(Variant(c, phase), OutputConfig) == Given(Variant(c, START), OutputConfig);
    assert Given(Variant(c, phase), ClassifierMark) == Given(Variant(c, START), ClassifierMark);
  }

  /** A recovery never fails to build: what raises was raised before the first dispatch. */
  lemma RebuildSucceeds(c: Call, phase: Phase, first: Built, built: Built)
    requires IsBuilt(Variant(c, START), first) && first.Body?
    requires IsBuilt(Variant(c, phase), built)
    ensures built.Body?
  {
    SameGatesInEveryPhase(c, phase);
  }

  /**
   What happens to the payload and its body after one reply: the phase moves as `Next` says,
   and a recovery has rebuilt both.
   */
  method OnReply(c: Call, phase: Phase, payload: Request, body: Request, attempt: nat, reply: Reply, ghost first: Built)
    returns (move: Move, payload': Request, body': Request)
    requires payload == Current(c, phase) && IsBuilt(Variant(c, phase), Body(body))
    requires first.Body? && IsBuilt(Variant(c, START), first)
    ensures move == Next(c, phase, attempt, reply)
    ensures move.Stop? ==> !move.outcome.NotBuilt?
    ensures move.Again? ==> payload' == Current(c, move.phase) && IsBuilt(Variant(c, move.phase), Body(body'))
  {
    payload', body' := payload, body;
    if reply.NetworkFailure? {
      return if attempt < MAX_RETRIES then Again(phase) else Stop(Failed(502)), payload, body;
    }
    if reply.status == 200 {
      return Stop(Delivered(reply.body)), payload, body;
    }
    if ShouldRetry(reply) && attempt < MAX_RETRIES {
      if reply.body.CutOff? {
        return Stop(Crashed(Reading(reply.body.reset))), payload, body;
      }
      if reply.guidance.EndlessDelay? {
        return Stop(Crashed(Sleeping)), payload, body;
      }
      return Again(phase), payload, body;
    }
    if reply.body.CutOff? {
      return Stop(Crashed(Reading(reply.body.reset))), payload, body;
    }
    if !phase.stripped && BlamesThinking(reply) && Lookup(payload, Messages).Arr? {
      var result := StripAllThinkingBlocks(payload[Messages].items);
      if result == None {
        return Stop(Crashed(Stripping)), payload, body;
      }
      if result.value.1 {
        move, payload' := Again(phase.(stripped := true)), payload[Messages := Arr(result.value.0)];
        assert payload' == Current(c, move.phase);
        body' := Rebuild(c, move.phase, payload', first);
        return;
      }
    }
    if !phase.forced && BlamesSystemRole(reply) && RewriteApplies(c, phase, payload) {
      move := Again(phase.(forced := true));
      body' := Rebuild(c, move.phase, payload, first);
      return;
    }
    var handled := HandleErrorResponse(reply.status, reply.body.loaded);
    move := Stop(handled);
  }

  /** The rewrite is worth forcing: the model was not known to reject, and there is a system turn. */
  predicate RewriteApplies(c: Call, phase: Phase, payload: Request) {
    var model := ResolvedModel(Query(payload, c.betas, c.aliases, phase.forced));
    var messages := Lookup(payload, Messages);
    && model.Some? && !TraitsOf(model.value).rejectsSystemRole
    && messages.Arr? && exists i :: 0 <= i < |messages.items| && IsSystem(messages.items[i])
  }

  method Rebuild(c: Call, phase: Phase, payload: Request, ghost first: Built) returns (body: Request)
    requires payload == Current(c, phase)
    requires first.Body? && IsBuilt(Variant(c, START), first)
    ensures IsBuilt(Variant(c, phase), Body(body))
  {
    var built := BuildBody(Query(payload, c.betas, c.aliases, phase.forced));
    RebuildSucceeds(c, phase, first, built);
    body := built.fields;
  }

  /** Where the loop stands before dispatch `attempt`: what is still to come completes the run. */
  ghost predicate Standing(c: Call, upstream: nat -> Reply, attempt: nat, phase: Phase, sent: seq<Phase>) {
    if attempt <= MAX_RETRIES then
      && Trace(c, upstream, 0, START) == sent + Trace(c, upstream, attempt, phase)
      && Result(c, upstream, 0, START) == Result(c, upstream, attempt, phase)
    else Trace(c, upstream, 0, START) == sent && Result(c, upstream, 0, START) == Failed(502)
  }

  lemma StandsAfter(c: Call, upstream: nat -> Reply, attempt: nat, phase: Phase, sent: seq<Phase>, move: Move)
    requires attempt <= MAX_RETRIES && Standing(c, upstream, attempt, phase, sent)
    requires move == Next(c, phase, attempt, upstream(attempt))
    ensures move.Again? ==> Standing(c, upstream, attempt + 1, move.phase, sent + [phase])
    ensures move.Stop? ==>
              Trace(c, upstream, 0, START) == sent + [phase] && Result(c, upstream, 0, START) == move.outcome
  {
    if move.Again? && attempt < MAX_RETRIES {
      ConcatAssoc(sent, [phase], Trace(c, upstream, attempt + 1, move.phase));
    } else {
      assert Trace(c, upstream, attempt, phase) == [phase];
    }
  }

  method SendWithRetries(c: Call, upstream: nat -> Reply)
    returns (outcome: Outcome, attempts: nat, bodies: seq<Request>, header: seq<string>)
    ensures outcome.NotBuilt? ==>
              attempts == 0 && bodies == [] && IsBuilt(Variant(c, START), Raised(outcome.error))
    ensures !outcome.NotBuilt? ==>
              && outcome == Result(c, upstream, 0, START)
              && attempts == |Trace(c, upstream, 0, START)|
              && SentAs(c, Trace(c, upstream, 0, START), bodies)
    ensures !outcome.NotBuilt? ==> header == Header(c)
  {
    attempts, bodies, header := 0, [], [];
    var first := BuildBody(Variant(c, START));
    if first.Raised? {
      return NotBuilt(first.error), 0, [], [];
    }
    header := MergeBetas(Variant(c, START));
    outcome, attempts, bodies := Dispatch(c, upstream, first);
  }

  /** What has been sent and what is about to be, after `|sent|` dispatches. */
  ghost predicate Underway(c: Call, upstream: nat -> Reply, sent: seq<Phase>, bodies: seq<Request>,
                           phase: Phase, payload: Request, body: Request) {
    && SentAs(c, sent, bodies) && Standing(c, upstream, |sent|, phase, sent)
    && payload == Current(c, phase) && IsBuilt(Variant(c, phase), Body(body))
  }

  /** One dispatch and what its reply leads to. */
  method Attempt(c: Call, upstream: nat -> Reply, attempt: nat, phase: Phase, payload: Request, body: Request,
                 bodies: seq<Request>, first: Built, ghost sent: seq<Phase>)
    returns (move: Move, payload': Request, body': Request, bodies': seq<Request>)
    requires attempt == |sent| <= MAX_RETRIES && first.Body? && IsBuilt(Variant(c, START), first)
    requires Underway(c, upstream, sent, bodies, phase, payload, body)
    ensures bodies' == bodies + [body]
    ensures move.Stop? ==> !move.outcome.NotBuilt? && Finished(c, upstream, sent + [phase], bodies', move.outcome)
    ensures move.Again? ==> Underway(c, upstream, sent + [phase], bodies', move.phase, payload', body')
  {
    SentOneMore(c, sent, bodies, phase, body);
    bodies' := bodies + [body];
    move, payload', body' := OnReply(c, phase, payload, body, attempt, upstream(attempt), first);
    StandsAfter(c, upstream, attempt, phase, sent, move);
  }

  ghost predicate Finished(c: Call, upstream: nat -> Reply, sent: seq<Phase>, bodies: seq<Request>, outcome: Outcome) {
    SentAs(c, sent, bodies) && Trace(c, upstream, 0, START) == sent && Result(c, upstream, 0, START) == outcome
  }

  lemma RetriesExhausted(c: Call, upstream: nat -> Reply, sent: seq<Phase>, bodies: seq<Request>,
                         phase: Phase, payload: Request, body: Request)
    requires Underway(c, upstream, sent, bodies, phase, payload, body) && |sent| == MAX_RETRIES + 1
    ensures Finished(c, upstream, sent, bodies, Failed(502))
  {
  }

  method Dispatch(c: Call, upstream: nat -> Reply, first: Built)
    returns (outcome: Outcome, attempts: nat, bodies: seq<Request>)
    requires first.Body? && IsBuilt(Variant(c, START), first)
    ensures !outcome.NotBuilt? && attempts == |Trace(c, upstream, 0, START)|
    ensures Finished(c, upstream, Trace(c, upstream, 0, START), bodies, outcome)
  {
    attempts, bodies := 0, [];
    var payload, body, phase := c.payload, first.fields, START;
    ghost var sent: seq<Phase> := [];
    for attempt := 0 to MAX_RETRIES + 1
      invariant attempts == attempt == |sent|
      invariant Underway(c, upstream, sent, bodies, phase, payload, body)
    {
      attempts := attempt + 1;
      var move;
      ghost var now := sent + [phase];
      move, payload, body, bodies := Attempt(c, upstream, attempt, phase, payload, body, bodies, first, sent);
      sent := now;
      if move.Stop? {
        return move.outcome, attempts, bodies;
      }
      phase := move.phase;
    }
    RetriesExhausted(c, upstream, sent, bodies, phase, payload, body);
    outcome := Failed(502);
  }
}
