/**
 Whole runs of the send loop (`anthrouter/transport.py`), against an arbitrary upstream:
 how often it dispatches, what every dispatch carries, and what the client is shown.
 */
module SendLoop {
  import opened Common
  import opened Text
  import opened Json
  import opened InlineSystem
  import opened AnthropicTransform
  import opened ModelConfig
  import opened OutboundGates
  import opened OutboundFields
  import opened Transport

  lemma TraceUnfolds(c: Call, upstream: nat -> Reply, from: nat, phase: Phase, phases: seq<Phase>, move: Move)
    requires from <= MAX_RETRIES && phases == Trace(c, upstream, from, phase)
    requires move == Next(c, phase, from, upstream(from))
    ensures phases != [] && phases[0] == phase
    ensures |phases| > 1 ==>
              move.Again? && from < MAX_RETRIES && phases[1..] == Trace(c, upstream, from + 1, move.phase)
  {
  }

  /** Every phase of a run is where the reply before it led. */
  lemma {:induction false} TraceFollowsReplies(c: Call, upstream: nat -> Reply, from: nat, phase: Phase,
                                               phases: seq<Phase>, i: nat)
    requires from <= MAX_RETRIES && phases == Trace(c, upstream, from, phase) && i + 1 < |phases|
    ensures Next(c, phases[i], from + i, upstream(from + i)) == Again(phases[i + 1])
    decreases i
  {
    var next := Next(c, phase, from, upstream(from));
    TraceUnfolds(c, upstream, from, phase, phases, next);
    if i > 0 {
      TraceFollowsReplies(c, upstream, from + 1, next.phase, phases[1..], i - 1);
    } else {
      TraceUnfolds(c, upstream, from + 1, next.phase, phases[1..], Next(c, next.phase, from + 1, upstream(from + 1)));
    }
  }

  lemma {:induction false} TraceIsBounded(c: Call, upstream: nat -> Reply, from: nat, phase: Phase)
    requires from <= MAX_RETRIES
    ensures 1 <= |Trace(c, upstream, from, phase)| <= MAX_RETRIES + 1 - from
    ensures Trace(c, upstream, from, phase)[0] == phase
    decreases MAX_RETRIES - from
  {
    var next := Next(c, phase, from, upstream(from));
    if next.Again? && from < MAX_RETRIES {
      TraceIsBounded(c, upstream, from + 1, next.phase);
    }
  }

  /** From one dispatch to the next a recovery is not taken back, and fires only for a reply that calls for it. */
  predicate Advances(c: Call, before: Phase, after: Phase, reply: Reply) {
    && (before.stripped ==> after.stripped) && (before.forced ==> after.forced)
    && (!before.stripped && after.stripped ==> RecoversByStripping(c, before, reply))
    && (!before.forced && after.forced ==> RecoversByRewriting(c, before, reply))
  }

  lemma NextAdvances(c: Call, phase: Phase, attempt: nat, reply: Reply, after: Phase)
    requires Next(c, phase, attempt, reply) == Again(after)
    ensures Advances(c, phase, after, reply)
  {
  }

  /** A recovery fires only from the phase in which it has not fired, and is never taken back. */
  lemma {:induction false} RecoveriesAreOneShot(c: Call, upstream: nat -> Reply, phases: seq<Phase>, i: nat, j: nat)
    requires phases == Trace(c, upstream, 0, START) && i < j < |phases|
    ensures phases[i].stripped ==> phases[j].stripped
    ensures phases[i].forced ==> phases[j].forced
    ensures Advances(c, phases[j - 1], phases[j], upstream(j - 1))
    decreases j
  {
    TraceFollowsReplies(c, upstream, 0, START, phases, j - 1);
    NextAdvances(c, phases[j - 1], j - 1, upstream(j - 1), phases[j]);
    if i < j - 1 {
      RecoveriesAreOneShot(c, upstream, phases, i, j - 1);
    }
  }

  /** The client is shown what the last reply says. */
  lemma {:induction false} LastReplyDecides(c: Call, upstream: nat -> Reply, from: nat, phase: Phase)
    requires from <= MAX_RETRIES
    ensures var phases := Trace(c, upstream, from, phase);
            var last := from + |phases| - 1;
            && last <= MAX_RETRIES
            && var move := Next(c, phases[|phases| - 1], last, upstream(last));
               && (move.Stop? ==> Result(c, upstream, from, phase) == move.outcome)
               && (move.Again? ==> last == MAX_RETRIES && Result(c, upstream, from, phase) == Failed(502))
    decreases MAX_RETRIES - from
  {
    var next := Next(c, phase, from, upstream(from));
    TraceIsBounded(c, upstream, from, phase);
    if next.Again? && from < MAX_RETRIES {
      LastReplyDecides(c, upstream, from + 1, next.phase);
    }
  }

  /** A recovery that no attempt is left to send, or one that raises while it strips. */
  predicate RecoveryLost(c: Call, phase: Phase, attempt: nat, reply: Reply) {
    (attempt == MAX_RETRIES && Recovers(c, phase, reply)) || StripBreaks(c, phase, reply)
  }

  /**
   The replies whose own status the client is not shown: a body that breaks off, a 429 that asks
   for a delay `time.sleep` refuses while an attempt is left, a lost recovery, and a body on
   which the error handler raises.
   */
  predicate Unshowable(c: Call, phase: Phase, attempt: nat, reply: Reply)
    requires reply.Http?
  {
    || reply.body.CutOff?
    || (reply.status == 429 && reply.guidance.EndlessDelay? && attempt < MAX_RETRIES)
    || RecoveryLost(c, phase, attempt, reply)
    || HandlerRaises(reply.status, reply.body.loaded)
  }

  /** Without streaming, a reset while the reply is read is taken for the client's own. */
  predicate TakenForClient(reply: Reply, streams: bool) {
    reply.Http? && reply.body == CutOff(true) && !streams
  }

  /**
   What the client is shown for the last reply.  A client error from upstream keeps its own
   status, as ADR-0028 asks, apart from the 404 of an expired Thread, which becomes a 400 as
   ADR-0031 asks, and apart from exactly the replies that are `Unshowable`, which are shown as a
   retryable 502.  A 200 is passed on unless it has to be parsed first and cannot be; every other
   failure is a 502.
   */
  predicate KeepsStatus(c: Call, phase: Phase, attempt: nat, reply: Reply, streams: bool, shown: Shown) {
    if TakenForClient(reply, streams) then shown == Nothing
    else if reply.Http? && reply.status == 200 then
      shown == if streams || (reply.body.Received? && reply.body.loaded.Parsed?) then Passed else Status(502)
    else if !reply.Http? || !(400 <= reply.status < 500) then shown == Status(502)
    else
      && (shown == Status(502) <==> Unshowable(c, phase, attempt, reply))
      && (shown != Status(502) ==>
            && reply.body.Received?
            && shown == Status(if IsExpiredThread(reply.status, reply.body.loaded) then 400 else reply.status))
  }

  lemma StopKeepsStatus(c: Call, phase: Phase, attempt: nat, reply: Reply, streams: bool, outcome: Outcome)
    requires Next(c, phase, attempt, reply) == Stop(outcome)
    ensures KeepsStatus(c, phase, attempt, reply, streams, ShownAs(outcome, streams))
  {
  }

  lemma ExhaustedKeepsStatus(c: Call, phase: Phase, reply: Reply, streams: bool)
    requires Next(c, phase, MAX_RETRIES, reply).Again?
    ensures KeepsStatus(c, phase, MAX_RETRIES, reply, streams, ShownAs(Failed(502), streams))
  {
  }

  /** Whatever the upstream answers, a run shows its client what `KeepsStatus` says of the last reply. */
  lemma ClientErrorsKeepTheirStatus(c: Call, upstream: nat -> Reply, streams: bool)
    ensures var phases := Trace(c, upstream, 0, START);
            && phases != []
            && var last := |phases| - 1;
               var shown := ShownAs(Result(c, upstream, 0, START), streams);
               KeepsStatus(c, phases[last], last, upstream(last), streams, shown)
  {
    LastReplyDecides(c, upstream, 0, START);
    TraceIsBounded(c, upstream, 0, START);
    var phases := Trace(c, upstream, 0, START);
    var last := |phases| - 1;
    var move := Next(c, phases[last], last, upstream(last));
    if move.Stop? {
      StopKeepsStatus(c, phases[last], last, upstream(last), streams, move.outcome);
    } else {
      ExhaustedKeepsStatus(c, phases[last], upstream(last), streams);
    }
  }

  const PLAIN_CALL := Call(map[Model := Str("opus")], [], map[])

  /** An HTML page in Latin-1: `json.loads` raises on its bytes, and not its own error. */
  const LATIN_REPLY := Http(400, Received("<p>Acc" + ['\U{E9}'] + "s</p>", LoadRaises), NoGuidance)

  /** An upstream 400 that is not UTF-8 is shown as a 502. */
  lemma UnreadableErrorIsLost(streams: bool)
    ensures ShownAs(Result(PLAIN_CALL, _ => LATIN_REPLY, 0, START), streams) == Status(502)
  {
  }

  /** An error reply with this message. */
  function ErrorReply(status: nat, message: Json): Reply {
    Http(status, Received("", Parsed(Obj(map["error" := Obj(map["message" := message])]))), NoGuidance)
  }

  lemma ErrorReplyIsHandled(status: nat, message: Json, streams: bool)
    requires 400 <= status < 500 && Truthy(message)
    ensures ShownAs(Result(PLAIN_CALL, _ => ErrorReply(status, message), 0, START), streams)
         == ShownAs(Handled(status, ErrorReply(status, message).body.loaded), streams)
    ensures MessageOf(ErrorReply(status, message).body.loaded) == Some(message)
  {
  }

  /** A message that is a number is one the handler cannot slice; a list it can, but not look at as a 404. */
  lemma OddMessageIsLost(streams: bool)
    ensures ShownAs(Result(PLAIN_CALL, _ => ErrorReply(400, Int(5)), 0, START), streams) == Status(502)
    ensures ShownAs(Result(PLAIN_CALL, _ => ErrorReply(404, Arr([Null])), 0, START), streams) == Status(502)
    ensures ShownAs(Result(PLAIN_CALL, _ => ErrorReply(403, Arr([Null])), 0, START), streams) == Status(403)
  {
    ErrorReplyIsHandled(400, Int(5), streams);
    ErrorReplyIsHandled(404, Arr([Null]), streams);
    ErrorReplyIsHandled(403, Arr([Null]), streams);
  }

  const ENDLESS_REPLY := Http(429, Received("", NotJson), EndlessDelay)

  /** A 429 that asks to be retried after `inf` seconds is shown as a 502 too. */
  lemma SleepingCanRaise(streams: bool)
    ensures ShownAs(Result(PLAIN_CALL, _ => ENDLESS_REPLY, 0, START), streams) == Status(502)
  {
  }

  const BUSY_REPLY := Http(503, Received("", NotJson), NoGuidance)

  lemma LostOnTheLastAttempt(c: Call, upstream: nat -> Reply)
    requires upstream(0) == upstream(1) == upstream(2) == BUSY_REPLY
    requires RecoversByStripping(c, START, upstream(3))
    ensures Result(c, upstream, 0, START) == Failed(502) && |Trace(c, upstream, 0, START)| == MAX_RETRIES + 1
  {
    assert Next(c, START, 0, upstream(0)) == Again(START);
    assert Next(c, START, 1, upstream(1)) == Again(START);
    assert Next(c, START, 2, upstream(2)) == Again(START);
    assert Next(c, START, 3, upstream(3)) == Again(START.(stripped := true));
    assert Result(c, upstream, 3, START) == Failed(502);
    assert Result(c, upstream, 2, START) == Failed(502);
    assert Result(c, upstream, 1, START) == Failed(502);
    assert |Trace(c, upstream, 3, START)| == 1;
    assert |Trace(c, upstream, 2, START)| == 2;
    assert |Trace(c, upstream, 1, START)| == 3;
  }

  const LOST_REPLY := Http(400, Received("redacted_" + "thinking", NotJson), NoGuidance)

  lemma LostReplyBlamesThinking()
    ensures BlamesThinking(LOST_REPLY)
  {
    ContainsTail("redacted_", "thinking");
    assert "redacted_thinking" <= LOST_REPLY.body.bytes;
  }

  const THINKING_TURN := Obj(map["role" := Str("assistant"), "content" := Arr([Obj(map["type" := Str("thinking")])])])

  lemma ThinkingTurnStrips()
    ensures !HasUnhashable([THINKING_TURN]) && StripAll([THINKING_TURN]) != [THINKING_TURN]
  {
    var block := Obj(map["type" := Str("thinking")]);
    assert AssistantBlocks(THINKING_TURN) == [block];
    assert IsThinking(block) && !NoThinking([block]);
    StripMessageIsClean(THINKING_TURN);
    assert StripAll([THINKING_TURN])[0] == StripMessage(THINKING_TURN);
  }

  /**
   The exception is real: three server errors, then a 400 that stripping would have cured, and
   the client is told 502.
   */
  lemma RecoveryOnTheLastAttemptIsLost()
    ensures exists c: Call, upstream: nat -> Reply ::
              && |Trace(c, upstream, 0, START)| == 4 && upstream(3) == LOST_REPLY
              && Result(c, upstream, 0, START) == Failed(502)
  {
    var c := Call(map[Model := Str("opus"), Messages := Arr([THINKING_TURN])], [], map[]);
    var upstream: nat -> Reply := i => if i < 3 then BUSY_REPLY else LOST_REPLY;
    ThinkingTurnStrips();
    LostReplyBlamesThinking();
    LostOnTheLastAttempt(c, upstream);
  }

  const ODD_BLOCK := Obj(map["type" := Arr([])])
  const ODD_TURN := Obj(map["role" := Str("assistant"), "content" := Arr([ODD_BLOCK])])

  /** A block whose type is a list cannot be looked up, so stripping raises, although there is nothing to strip. */
  lemma OddTurnBreaksStripping()
    ensures HasUnhashable([ODD_TURN]) && CleanHistory([ODD_TURN])
  {
    assert AssistantBlocks(ODD_TURN) == [ODD_BLOCK];
    assert Unhashable(AssistantBlocks([ODD_TURN][0])[0]);
    assert NoThinking([ODD_BLOCK]);
  }

  /** The other exception is real too: the first dispatch is answered 400, and the client is told 502. */
  lemma StrippingCanRaise(streams: bool)
    ensures exists c: Call, upstream: nat -> Reply ::
              && |Trace(c, upstream, 0, START)| == 1 && upstream(0) == LOST_REPLY
              && ShownAs(Result(c, upstream, 0, START), streams) == Status(502) && !Recovers(c, START, upstream(0))
  {
    var c := Call(map[Model := Str("opus"), Messages := Arr([ODD_TURN])], [], map[]);
    var upstream: nat -> Reply := _ => LOST_REPLY;
    OddTurnBreaksStripping();
    LostReplyBlamesThinking();
    assert StripBreaks(c, START, upstream(0));
    assert |Trace(c, upstream, 0, START)| == 1;
  }

  lemma RecoveryGoesOn(c: Call, phase: Phase, attempt: nat, reply: Reply)
    requires Recovers(c, phase, reply)
    ensures Next(c, phase, attempt, reply).Again? && Next(c, phase, attempt, reply).phase != phase
  {
    assert reply.status == 400;
  }

  /** With an attempt to spare, the recovered body is dispatched. */
  lemma RecoveryIsDispatched(c: Call, upstream: nat -> Reply, i: nat)
    requires i < |Trace(c, upstream, 0, START)| && i < MAX_RETRIES
    requires Recovers(c, Trace(c, upstream, 0, START)[i], upstream(i))
    ensures i + 1 < |Trace(c, upstream, 0, START)|
    ensures Trace(c, upstream, 0, START)[i + 1] != Trace(c, upstream, 0, START)[i]
  {
    RecoveryGoesOn(c, Trace(c, upstream, 0, START)[i], i, upstream(i));
    TraceGoesOn(c, upstream, 0, START, i);
  }

  lemma {:induction false} TraceGoesOn(c: Call, upstream: nat -> Reply, from: nat, phase: Phase, i: nat)
    requires from <= MAX_RETRIES && i < |Trace(c, upstream, from, phase)| && from + i < MAX_RETRIES
    requires Next(c, Trace(c, upstream, from, phase)[i], from + i, upstream(from + i)).Again?
    ensures i + 1 < |Trace(c, upstream, from, phase)|
    ensures Next(c, Trace(c, upstream, from, phase)[i], from + i, upstream(from + i))
         == Again(Trace(c, upstream, from, phase)[i + 1])
    decreases i
  {
    var next := Next(c, phase, from, upstream(from));
    if i > 0 {
      TraceGoesOn(c, upstream, from + 1, next.phase, i - 1);
    } else {
      TraceIsBounded(c, upstream, from + 1, next.phase);
    }
  }

  /** A request that is not built is shown as a 400 when it has no model, else as a 502. */
  lemma UnbuiltIsShown(q: Query, built: Built, streams: bool)
    requires IsBuilt(q, built) && built.Raised?
    ensures ShownAs(NotBuilt(built.error), streams) == Status(if LacksModel(q) then 400 else 502)
  {
    WhatRaises(q);
  }

  // ---- What follows a dispatch -----------------------------------------------

  /** A failure worth another try: no reply, a server that is busy or broken, or a limit that says how long. */
  predicate IsTransient(reply: Reply) {
    || reply.NetworkFailure?
    || (&& reply.status in {429, 500, 502, 503, 504} && (reply.status == 429 ==> reply.guidance.Delay?)
        && !reply.guidance.EndlessDelay? && reply.body.Received?)
  }

  predicate IsBadRequest(reply: Reply) {
    reply.Http? && reply.status == 400 && reply.body.Received?
  }

  predicate SaysThinking(reply: Reply) {
    && IsBadRequest(reply) && Contains(reply.body.bytes, "thinking")
    && (Contains(reply.body.bytes, "signature") || Contains(reply.body.bytes, "redacted_thinking"))
  }

  predicate SaysSystemRole(reply: Reply) {
    IsBadRequest(reply) && Contains(reply.body.bytes, "system") && Contains(reply.body.bytes, "role")
  }

  /** Some assistant turn has a block that `test` holds of. */
  predicate SomeAssistantBlock(messages: seq<Json>, test: Json -> bool) {
    exists i, block :: 0 <= i < |messages| && Field(messages[i], "role") == Str("assistant")
                       && Field(messages[i], "content").Arr? && block in Field(messages[i], "content").items
                       && test(block)
  }

  predicate IsThinkingBlock(block: Json) {
    Field(block, "type") in {Str("thinking"), Str("redacted_thinking")}
  }

  predicate HasOddType(block: Json) {
    Field(block, "type").Arr? || Field(block, "type").Obj?
  }

  lemma InAssistantBlocks(messages: seq<Json>, i: nat, block: Json)
    requires i < |messages|
    ensures block in AssistantBlocks(messages[i]) <==>
              Field(messages[i], "role") == Str("assistant") && Field(messages[i], "content").Arr?
              && block in Field(messages[i], "content").items
  {
  }

  lemma OddTypesMean(messages: seq<Json>)
    ensures HasUnhashable(messages) <==> SomeAssistantBlock(messages, HasOddType)
  {
    if HasUnhashable(messages) {
      var i, j :| 0 <= i < |messages| && 0 <= j < |AssistantBlocks(messages[i])|
                  && Unhashable(AssistantBlocks(messages[i])[j]);
      assert HasOddType(AssistantBlocks(messages[i])[j]);
    }
    if i, block :| 0 <= i < |messages| && Field(messages[i], "role") == Str("assistant")
                   && Field(messages[i], "content").Arr? && block in Field(messages[i], "content").items
                   && HasOddType(block) {
      var j :| 0 <= j < |AssistantBlocks(messages[i])| && AssistantBlocks(messages[i])[j] == block;
      assert Unhashable(AssistantBlocks(messages[i])[j]);
    }
  }

  lemma {:induction false} CleanMeans(blocks: seq<Json>)
    ensures NoThinking(blocks) <==> forall block :: block in blocks ==> !IsThinkingBlock(block)
  {
    if blocks != [] {
      CleanMeans(blocks[1..]);
      assert blocks == [blocks[0]] + blocks[1..];
      assert IsThinking(blocks[0]) <==> IsThinkingBlock(blocks[0]);
    }
  }

  lemma StrippingMeans(messages: seq<Json>)
    ensures StripAll(messages) != messages <==> SomeAssistantBlock(messages, IsThinkingBlock)
  {
    StripAllCleans(messages);
    forall i | 0 <= i < |messages|
      ensures NoThinking(AssistantBlocks(messages[i]))
              <==> forall block :: block in AssistantBlocks(messages[i]) ==> !IsThinkingBlock(block)
    {
      CleanMeans(AssistantBlocks(messages[i]));
    }
  }

  predicate HasSystemTurn(messages: seq<Json>) {
    exists i :: 0 <= i < |messages| && Field(messages[i], "role") == Str("system")
  }

  /** The client's messages, if they are a list. */
  function MessagesOf(c: Call): seq<Json> {
    if Lookup(c.payload, Messages).Arr? then Lookup(c.payload, Messages).items else []
  }

  /** Stripping is called for, and raises. */
  predicate CannotStrip(c: Call, phase: Phase, reply: Reply) {
    !phase.stripped && SaysThinking(reply) && SomeAssistantBlock(MessagesOf(c), HasOddType)
  }

  predicate WillStrip(c: Call, phase: Phase, reply: Reply) {
    && !phase.stripped && SaysThinking(reply)
    && SomeAssistantBlock(MessagesOf(c), IsThinkingBlock) && !SomeAssistantBlock(MessagesOf(c), HasOddType)
  }

  /** The model is not known to reject system turns, and there is one. */
  predicate WillForce(c: Call, phase: Phase, reply: Reply) {
    && !phase.forced && SaysSystemRole(reply)
    && ResolvedModel(Variant(c, START)).Some?
    && !MentionsAny(ResolvedModel(Variant(c, START)).value, SYSTEM_ROLE_REJECTING_FAMILIES)
    && HasSystemTurn(MessagesOf(c))
  }

  lemma StripCallsMean(c: Call, phase: Phase, reply: Reply)
    ensures StripBreaks(c, phase, reply) <==> CannotStrip(c, phase, reply)
    ensures RecoversByStripping(c, phase, reply) <==> WillStrip(c, phase, reply)
  {
    OddTypesMean(MessagesOf(c));
    StrippingMeans(MessagesOf(c));
  }

  lemma SystemTurnsStay(messages: seq<Json>)
    ensures (exists i :: 0 <= i < |StripAll(messages)| && IsSystem(StripAll(messages)[i])) <==> HasSystemTurn(messages)
  {
    forall i | 0 <= i < |messages| ensures IsSystem(StripAll(messages)[i]) <==> IsSystem(messages[i]) {
    }
    if i :| 0 <= i < |messages| && Field(messages[i], "role") == Str("system") {
      assert IsSystem(StripAll(messages)[i]);
    }
  }

  lemma ForceCallsMean(c: Call, phase: Phase, reply: Reply)
    ensures RecoversByRewriting(c, phase, reply) <==> WillForce(c, phase, reply)
  {
    SameGatesInEveryPhase(c, phase);
    SystemTurnsStay(MessagesOf(c));
    if ResolvedModel(Variant(c, START)).Some? {
      TraitsMean(ResolvedModel(Variant(c, START)).value);
    }
  }

  /** The phase of the dispatch that a reply leads to, if it leads to one. */
  function Onward(c: Call, phase: Phase, reply: Reply): Option<Phase> {
    if IsTransient(reply) then Some(phase)
    else if CannotStrip(c, phase, reply) then None
    else if WillStrip(c, phase, reply) then Some(Phase(true, phase.forced))
    else if WillForce(c, phase, reply) then Some(Phase(phase.stripped, true))
    else None
  }

  lemma OnwardMeans(c: Call, phase: Phase, attempt: nat, reply: Reply)
    requires attempt < MAX_RETRIES
    ensures Next(c, phase, attempt, reply).Again? <==> Onward(c, phase, reply).Some?
    ensures Next(c, phase, attempt, reply).Again? ==>
              Onward(c, phase, reply) == Some(Next(c, phase, attempt, reply).phase)
  {
    StripCallsMean(c, phase, reply);
    ForceCallsMean(c, phase, reply);
  }

  /**
   In every run a dispatch is followed by another one if and only if it was not the fourth, and
   was answered by a transient failure, which leaves the request as it is, or by a 400 that
   blames something one of the recoveries can still cure, which is then in force.
   */
  lemma {:induction false} DispatchIsFollowed(c: Call, upstream: nat -> Reply, phases: seq<Phase>, i: nat)
    requires phases == Trace(c, upstream, 0, START) && i < |phases|
    ensures i <= 3
    ensures i + 1 < |phases| <==> i < 3 && Onward(c, phases[i], upstream(i)).Some?
    ensures i + 1 < |phases| ==> Onward(c, phases[i], upstream(i)) == Some(phases[i + 1])
  {
    TraceIsBounded(c, upstream, 0, START);
    if i < MAX_RETRIES {
      OnwardMeans(c, phases[i], i, upstream(i));
      if i + 1 < |phases| {
        TraceFollowsReplies(c, upstream, 0, START, phases, i);
      } else if Next(c, phases[i], i, upstream(i)).Again? {
        TraceGoesOn(c, upstream, 0, START, i);
      }
    }
  }

  // ---- What every dispatch carries -------------------------------------------

  lemma OneBodyPerQuery(q: Query, a: Request, b: Request)
    requires IsBuilt(q, Body(a)) && IsBuilt(q, Body(b))
    ensures a == b
  {
    var model := ResolvedModel(q).value;
    forall key ensures At(a, key) == At(b, key) {
      FieldAt(q, model, TraitsOf(model), a, key);
      FieldAt(q, model, TraitsOf(model), b, key);
    }
    SameFields(a, b);
  }

  /** The order in which the recoveries fired leaves no trace in the body. */
  lemma EitherRecoveryOrderSameBody(c: Call, first: nat -> Reply, second: nat -> Reply,
                                    a: seq<Request>, b: seq<Request>, i: nat, j: nat)
    requires SentAs(c, Trace(c, first, 0, START), a) && SentAs(c, Trace(c, second, 0, START), b)
    requires i < |Trace(c, first, 0, START)| && j < |Trace(c, second, 0, START)|
    requires Trace(c, first, 0, START)[i] == Trace(c, second, 0, START)[j]
    ensures i < |a| && j < |b| && a[i] == b[j]
  {
    SentAt(c, Trace(c, first, 0, START), a, i);
    SentAt(c, Trace(c, second, 0, START), b, j);
    OneBodyPerQuery(Variant(c, Trace(c, first, 0, START)[i]), a[i], b[j]);
  }

  lemma PlaceStaysClean(out: seq<Json>, m: Json)
    requires CleanHistory(out) && NoThinking(AssistantBlocks(m))
    ensures CleanHistory(Place(out, m))
  {
    var block := Reminder(m);
    assert AssistantBlocks(Standalone(block)) == [];
    if out != [] && IsUser(out[|out| - 1]) {
      assert AssistantBlocks(Append(out[|out| - 1], block)) == [];
    }
  }

  lemma {:induction false} RewriteStaysClean(messages: seq<Json>)
    requires CleanHistory(messages)
    ensures CleanHistory(Rewrite(messages))
  {
    if messages != [] {
      var last := |messages| - 1;
      RewriteStaysClean(messages[..last]);
      PlaceStaysClean(Rewrite(messages[..last]), messages[last]);
    }
  }

  lemma WithoutEffortStaysClean(messages: seq<Json>)
    requires CleanHistory(messages)
    ensures CleanHistory(MessagesWithoutEffort(messages))
  {
    forall i | 0 <= i < |messages| ensures NoThinking(AssistantBlocks(MessagesWithoutEffort(messages)[i])) {
      assert AssistantBlocks(MessageWithoutEffort(messages[i])) == AssistantBlocks(messages[i]);
    }
  }

  lemma MessagesOutStayClean(q: Query, t: Traits)
    requires Given(q, Messages).Some? && Given(q, Messages).value.Arr? && CleanHistory(Given(q, Messages).value.items)
    ensures MessagesOut(q, t).Some? && MessagesOut(q, t).value.Arr? && CleanHistory(MessagesOut(q, t).value.items)
  {
    var messages := Given(q, Messages).value.items;
    WithoutEffortStaysClean(messages);
    var gated := if SupportsPerMessageEffort(t, q.betas) then messages else MessagesWithoutEffort(messages);
    if q.force || t.rejectsSystemRole {
      RewriteStaysClean(gated);
    }
  }

  /** Each recovery cures what it was taken for, whatever the gates do to the body after it. */
  lemma RecoveriesCure(c: Call, phase: Phase, body: Request)
    requires IsBuilt(Variant(c, phase), Body(body))
    requires Lookup(c.payload, Messages).Arr?
    ensures Lookup(body, Messages).Arr?
    ensures phase.stripped ==> CleanHistory(body[Messages].items)
    ensures phase.forced ==> NoSystemTurn(body[Messages].items)
  {
    var q := Variant(c, phase);
    var model := ResolvedModel(q).value;
    var t := TraitsOf(model);
    FieldAt(q, model, t, body, Messages);
    MessagesPass(q, model, t, body);
    if phase.stripped {
      StripAllCleans(c.payload[Messages].items);
      MessagesOutStayClean(q, t);
    }
  }

  /** Every body dispatched passes all gates, and the one header fits them all. */
  lemma EveryDispatchIsAccepted(c: Call, phase: Phase, body: Request)
    requires IsBuilt(Variant(c, phase), Body(body))
    ensures ResolvedModel(Variant(c, phase)).Some?
    ensures var model := ResolvedModel(Variant(c, phase)).value;
            Accepted(body, model, TraitsOf(model), c.betas, phase.forced)
    ensures THINKING_BETA in Header(c) <==> THINKING_BETA in c.betas && Thinks(body)
  {
    var q := Variant(c, phase);
    var model := ResolvedModel(q).value;
    FinalBodyPassesEveryGate(q, model, TraitsOf(model), body);
    BetasMatchBody(q, model, body);
    SameGatesInEveryPhase(c, phase);
  }
}
