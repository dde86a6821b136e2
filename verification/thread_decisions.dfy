/**
 What becomes of each request of a run (`anthrouter/handlers.py`), said of the request, the
 configuration, the answer it got and what the run has recorded: which turns of a Thread are
 sent, on which model, and which are rejected.
 */
module ThreadDecisions {
  import opened Common
  import opened ModelConfig
  import opened OrderedDict
  import opened RouterMath
  import opened SessionState
  import opened Text
  import opened ThreadRouting
  import opened ThreadProtocol

  // ---- Model names -----------------------------------------------------------

  /** `base` is an alias, and `model` is it with the suffix `suffix`. */
  predicate IsSuffixed(model: string, base: string, suffix: string, aliases: Aliases) {
    model == base + suffix && base in aliases
  }

  lemma SuffixedMeans(model: string, base: string, suffix: string)
    ensures model == base + suffix
            <==> EndsWith(model, suffix) && base == model[..|model| - |suffix|]
  {
    if model == base + suffix {
      assert model[|base|..] == suffix && model[..|base|] == base;
    }
    if EndsWith(model, suffix) {
      assert model == model[..|model| - |suffix|] + suffix;
    }
  }

  lemma SuffixesInTurn(model: string, aliases: Aliases)
    ensures ResolveSuffix(model, aliases, CONTEXT_SUFFIXES)
         == if EndsWith(model, ":1m") && model[..|model| - 3] in aliases then aliases[model[..|model| - 3]]
            else if EndsWith(model, "[1m]") && model[..|model| - 4] in aliases then aliases[model[..|model| - 4]]
            else model
  {
    assert CONTEXT_SUFFIXES[1..] == ["[1m]"] && ["[1m]"][1..] == [];
    assert ResolveSuffix(model, aliases, ["[1m]"])
        == if EndsWith(model, "[1m]") && model[..|model| - 4] in aliases then aliases[model[..|model| - 4]] else model;
  }

  /** What a name that is no alias stands for. */
  ghost predicate StandsFor(model: string, aliases: Aliases, id: string) {
    || (exists base :: (IsSuffixed(model, base, ":1m", aliases) || IsSuffixed(model, base, "[1m]", aliases))
                       && id == aliases[base])
    || (id == model
        && forall base :: !IsSuffixed(model, base, ":1m", aliases) && !IsSuffixed(model, base, "[1m]", aliases))
  }

  /**
   A name resolves to what its alias stands for, the client's own aliases first, also behind a
   context suffix; any other name stands for itself, and the empty one for nothing.
   */
  lemma ResolveModelMeans(model: string, overlay: Aliases)
    ensures var aliases, id := MODEL_ALIASES + overlay, ResolveModel(model, overlay);
            && (id == None <==> model == "")
            && (model != "" && model in aliases ==> id == Some(aliases[model]))
            && (model != "" && model !in aliases ==> StandsFor(model, aliases, id.value))
  {
    var aliases := MODEL_ALIASES + overlay;
    if model != "" && model !in aliases {
      SuffixStandsFor(model, aliases);
    }
  }

  lemma SuffixStandsFor(model: string, aliases: Aliases)
    ensures StandsFor(model, aliases, ResolveSuffix(model, aliases, CONTEXT_SUFFIXES))
  {
    SuffixesInTurn(model, aliases);
    forall base, suffix
      ensures model == base + suffix <==> EndsWith(model, suffix) && base == model[..|model| - |suffix|]
    {
      SuffixedMeans(model, base, suffix);
    }
    if EndsWith(model, ":1m") && model[..|model| - 3] in aliases {
      assert IsSuffixed(model, model[..|model| - 3], ":1m", aliases);
    } else if EndsWith(model, "[1m]") && model[..|model| - 4] in aliases {
      assert IsSuffixed(model, model[..|model| - 4], "[1m]", aliases);
    }
  }

  // ---- The answer of the classifier ------------------------------------------

  /** The answer names a model, by classification or by size, and it is another one than `pinned`. */
  predicate NamesAnother(d: Decision, pinned: string, aliases: Aliases) {
    && (d.classification.Some? || d.reason == SizeForcedLongContext)
    && d.routed != pinned
    && (d.routed == "" || pinned == "" || ResolveModel(d.routed, aliases) != ResolveModel(pinned, aliases))
  }

  /** The turn as it is sent on the model of its Thread. */
  function OnPin(p: Payload, pinned: string, betas: seq<string>, classification: Option<string>, calls: nat): Outcome {
    var requested := match p.model case Named(s) => s case NotText(r) => r;
    Sent(Payload(Named(pinned), p.messages, p.thread, betas),
         Decision(requested, pinned, classification, pinned != requested, ThreadPinned), calls)
  }

  /**
   When the classifier answers a parked turn, the turn gets the local 400 if and only if the
   answer names a model and it is another one than the turn's pin, and then a keyed turn leaves
   a handoff behind that names it; otherwise the turn is sent on its pin, with the betas that
   came back.
   */
  lemma ClassifiedIsDecided(w: World, e: Step)
    requires w.sessions.Valid() && e.Classified? && e.ticket in w.waiting
    ensures var q, d := w.waiting[e.ticket], e.answer.decision;
            var (v, out) := Next(w, e);
            && v.now == w.now && v.log == w.log && v.waiting == w.waiting - {e.ticket}
            && if NamesAnother(d, q.pinned, e.cfg.aliases) then
                 && out == Local400(q.pinned, d.(reason := ThreadReclassified), e.answer.calls)
                 && v.inFlight == w.inFlight && v.next == w.next
                 && v.sessions == if q.key == None then w.sessions
                                  else w.sessions.StoreHandoff(q.key.value, d.routed, d, w.now)
               else
                 && out == OnPin(q.payload, q.pinned, e.answer.betas, d.classification, e.answer.calls)
                 && v.inFlight == w.inFlight[w.next := InFlight(out.payload, q.session, Some(q.previous))]
                 && v.next == w.next + 1 && v.sessions == w.sessions
  {
  }

  /**
   So over every run: a turn is rejected after classification exactly when the answer names
   another model than that of the recorded response which the turn continues.
   */
  lemma RejectedExactly(es: seq<Step>, e: Step)
    requires FreshIds(START, es) && e.Classified? && e.ticket in Run(START, es).waiting
    ensures var w := Run(START, es);
            var q := w.waiting[e.ticket];
            && q.previous in w.log
            && (Next(w, e).1.Local400? <==> NamesAnother(e.answer.decision, w.log[q.previous].model, e.cfg.aliases))
            && (!Next(w, e).1.Local400? ==>
                  Next(w, e).1 == OnPin(q.payload, w.log[q.previous].model, e.answer.betas,
                                        e.answer.decision.classification, e.answer.calls))
  {
    AnswerKeepsPin(es, e);
    ClassifiedIsDecided(Run(START, es), e);
  }

  // ---- The final message -----------------------------------------------------

  predicate IsText(b: Block) {
    b.TextBlock?
  }

  function TextIn(b: Block): string {
    if b.TextBlock? then b.text else ""
  }

  lemma {:induction false} TextsArePicked(blocks: seq<Block>)
    ensures Picks(blocks, TextsOf(blocks), IsText, TextIn)
  {
    if blocks == [] {
      PicksNothing(IsText, TextIn);
    } else {
      TextsArePicked(blocks[1..]);
      PicksFirst(blocks[0], blocks[1..], TextsOf(blocks[1..]), IsText, TextIn);
      assert [blocks[0]] + blocks[1..] == blocks;
      assert [] + TextsOf(blocks[1..]) == TextsOf(blocks[1..]);
    }
  }

  /** The text of a user message: the string it is, or all its text blocks, line by line. */
  ghost predicate IsFinalText(p: Payload, text: Option<string>) {
    if p.messages == [] || p.messages[|p.messages| - 1].role != "user" then text == None
    else
      match p.messages[|p.messages| - 1].content
      case Plain(t) => text == Some(t)
      case NoContent => text == None
      case Blocks(blocks) =>
        exists texts :: Picks(blocks, texts, IsText, TextIn)
                        && text == if texts == [] then None else Some(JoinLines(texts))
  }

  /** A handoff is keyed by the session and the whole text of the final user message. */
  lemma KeyIsSessionAndText(session: Option<string>, p: Payload)
    ensures IsFinalText(p, FinalUserText(p))
    ensures KeyOf(session, p) == if session.Some? && FinalUserText(p).Some? then Some((session, FinalUserText(p).value))
                                 else None
  {
    if FinalContent(p).Blocks? {
      TextsArePicked(FinalContent(p).blocks);
    }
  }

  // ---- Continuations on arrival ----------------------------------------------

  /** A request that names the message it continues, and does not create a Thread. */
  predicate NamesPrevious(p: Payload) {
    p.thread.Thread? && p.thread.kind != Some("create") && p.thread.previous != None
  }

  /** A request that creates a Thread with a conversation behind it. */
  predicate CreatesFromHistory(p: Payload) {
    p.thread.Thread? && p.thread.kind == Some("create") && exists m :: m in p.messages && m.role == "assistant"
  }

  lemma KindsOfRequest(p: Payload)
    ensures IsContinuation(p) <==> NamesPrevious(p)
    ensures IsReplay(p) <==> CreatesFromHistory(p)
    ensures !(NamesPrevious(p) && CreatesFromHistory(p))
  {
    if m :| m in p.messages && m.role == "assistant" {
      var i :| 0 <= i < |p.messages| && p.messages[i] == m;
    }
  }

  predicate AsksLongContext(betas: seq<string>) {
    exists i :: 0 <= i < |betas| && "context-1m" <= betas[i]
  }

  /** The betas of the client, with the long-context one added when there is none. */
  function WithLongContext(betas: seq<string>): seq<string> {
    if AsksLongContext(betas) then betas else betas + ["context-1m-2025-08-07"]
  }

  predicate OnlyToolResults(p: Payload) {
    p.messages != [] &&
    var m := p.messages[|p.messages| - 1];
    m.role == "user" && m.content.Blocks? && m.content.blocks != []
    && forall i :: 0 <= i < |m.content.blocks| ==> m.content.blocks[i] == ToolResult
  }

  /** A turn whose Thread is not known: sent as it is, on the locked model if there is one. */
  function Unpinned(p: Payload, lock: string): Outcome {
    var requested := match p.model case Named(s) => s case NotText(r) => r;
    if lock == "off" then Sent(p, Decision(requested, requested, None, false, ThreadPinUnknown), 0)
    else Sent(Payload(Named(lock), p.messages, p.thread, p.betas),
              Decision(requested, lock, None, lock != requested, ThreadPinUnknown), 0)
  }

  /** The payload is on its way, as a continuation of `parent` if the Thread is known. */
  ghost predicate TakesOff(w: World, e: Step, sent: Payload, parent: Option<string>)
    requires w.sessions.Valid() && e.Arrive?
  {
    Next(w, e).0.inFlight == w.inFlight[w.next := InFlight(sent, e.session, parent)]
  }

  /**
   A continuation on arrival, in the order of ADR-0033: a Thread that is not known, one with a
   long context, a turn of tool results alone, a re-classification that is still held, and
   else the classifier, which it waits for unchanged.
   */
  lemma ArrivalIsDecided(w: World, e: Step)
    requires w.sessions.Valid() && e.Arrive? && NamesPrevious(e.payload)
    ensures var p, previous, key := e.payload, e.payload.thread.previous.value, KeyOf(e.session, e.payload);
            var out := Next(w, e).1;
            if previous !in w.sessions.threads.items then
              out == Unpinned(p, e.cfg.lock) && TakesOff(w, e, out.payload, None)
            else
              var pin := w.sessions.threads.items[previous];
              if pin.longContext then
                && out == OnPin(p, pin.model, WithLongContext(p.betas), None, 0)
                && TakesOff(w, e, out.payload, Some(previous))
              else if OnlyToolResults(p) then
                out == OnPin(p, pin.model, p.betas, None, 0) && TakesOff(w, e, out.payload, Some(previous))
              else if key.Some? && w.sessions.Live(key.value, w.now).Some? then
                var h := w.sessions.Live(key.value, w.now).value;
                && out == Local400(pin.model,
                                   Decision(Requested(p.model), h.model, h.decision.classification,
                                            h.model != Requested(p.model), ThreadReclassified), 0)
                && Next(w, e).0.inFlight == w.inFlight && Next(w, e).0.waiting == w.waiting
              else
                && out == Quiet && Next(w, e).0.inFlight == w.inFlight
                && Next(w, e).0.waiting == w.waiting[w.next := Waiting(p, e.session, key, pin.model, previous)]
  {
    KindsOfRequest(e.payload);
    LongContextAdded(e.payload.betas);
  }

  lemma LongContextAdded(betas: seq<string>)
    ensures EnsureLongContext(betas) == WithLongContext(betas)
    ensures HasLongContext(betas) <==> AsksLongContext(betas)
  {
  }

  // ---- Replays ---------------------------------------------------------------

  /** The long-context size floor: an estimate, calibrated, or the last size measured, reaches the threshold. */
  predicate TooLong(p: Payload, cfg: Config, m: Measure) {
    && cfg.autoRouting && p.model.Named? && !IsBlank(p.model.name)
    && cfg.longThreshold > 0 && cfg.longTarget != "off"
    && (m.floor >= cfg.longThreshold || RoundHalfEven(m.estimate as real * m.ratio) >= cfg.longThreshold)
  }

  /** Without a handoff, a replay of tool results alone goes to the session's last Thread, the lock, or as it is. */
  predicate IsReplayModel(s: Sessions, session: Option<string>, lock: string, requested: string, model: string) {
    if session.Some? && session.value in s.lastModels.items && s.lastModels.items[session.value] != "" then
      model == s.lastModels.items[session.value]
    else if lock !in {"off", ""} then model == lock
    else model == requested
  }

  /** A replay, in the order of ADR-0033: the size floor, a handoff, tool results alone, else any answer. */
  lemma ReplayIsDecided(w: World, e: Step)
    requires w.sessions.Valid() && e.Arrive? && CreatesFromHistory(e.payload)
    ensures Next(w, e).1.Sent? && TakesOff(w, e, Next(w, e).1.payload, None)
    ensures var p, key, requested := e.payload, KeyOf(e.session, e.payload), Requested(e.payload.model);
            var live := if key.Some? then w.sessions.Live(key.value, w.now) else None;
            var Sent(sent, d, calls) := Next(w, e).1;
            if TooLong(p, e.cfg, e.measure) then
              && sent == Payload(Named(e.cfg.longTarget), p.messages, p.thread, WithLongContext(p.betas)) && calls == 0
              && d == Decision(requested, e.cfg.longTarget, None, e.cfg.longTarget != requested,
                               if live.Some? then ThreadReclassifiedReplay else SizeForcedLongContext)
            else if live.Some? then
              && sent == Payload(Named(live.value.model), p.messages, p.thread, p.betas) && calls == 0
              && d == Decision(requested, live.value.model, live.value.decision.classification,
                               live.value.model != requested, ThreadReclassifiedReplay)
            else if OnlyToolResults(p) then
              && IsReplayModel(w.sessions, e.session, e.cfg.lock, requested, d.routed) && calls == 0
              && sent == (if d.routed == requested then p
                          else Payload(Named(d.routed), p.messages, p.thread, p.betas))
              && d == Decision(requested, d.routed, None, d.routed != requested, ThreadReplayPinned)
            else
              && sent == Payload(e.answer.model, p.messages, p.thread, e.answer.betas)
              && d == e.answer.decision && calls == e.answer.calls
  {
    KindsOfRequest(e.payload);
    LongContextAdded(e.payload.betas);
    FloorIsTooLong(e.payload, e.cfg, e.measure);
  }

  lemma FloorIsTooLong(p: Payload, cfg: Config, m: Measure)
    ensures FloorFires(p, cfg, m) <==> TooLong(p, cfg, m)
    ensures FloorFires(p, cfg, m) ==>
              SizeFloor(p, cfg, m) == Some(Decision(Requested(p.model), cfg.longTarget, None,
                                                    cfg.longTarget != Requested(p.model), SizeForcedLongContext))
  {
  }

  // ---- Responses -------------------------------------------------------------

  /** A response to a request with a Thread is recorded under its id, with the model it was sent on and its parent. */
  lemma ResponseIsRecorded(w: World, e: Step)
    requires w.sessions.Valid() && e.Respond? && e.ticket in w.inFlight
    ensures var f, v := w.inFlight[e.ticket], Next(w, e).0;
            && v.inFlight == w.inFlight - {e.ticket} && v.waiting == w.waiting && v.now == w.now
            && match f.payload.model
               case Named(model) =>
                 if f.payload.thread == NoThread then v.log == w.log && v.sessions == w.sessions
                 else
                   && v.log == w.log[e.id := Recorded(model, f.parent)]
                   && v.sessions == w.sessions.RecordThread(
                                      e.id, PinFor(model, AsksLongContext(f.payload.betas), e.text, e.limit), f.session)
               case NotText(_) => v.log == w.log && v.sessions == w.sessions
  {
    LongContextAdded(w.inFlight[e.ticket].payload.betas);
  }
}
