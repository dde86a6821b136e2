/**
 Routing of one request that belongs to an upstream Thread (`anthrouter/handlers.py`).

 A continuation names the message it continues, and upstream refuses any model but the
 one of that message's Thread.  The proxy pins a continuation to that model, or rejects
 it, after which the client replays the conversation as a new Thread.
 */
module ThreadRouting {
  import opened Common
  import opened OrderedDict
  import opened SessionState
  import opened ModelConfig
  import opened RouterMath
  import opened Text

  /** `payload['model']`: a string, or something else with its printed form. */
  datatype ModelField = Named(name: string) | NotText(repr: string)

  datatype Block = TextBlock(text: string) | ToolResult | OtherBlock
  datatype Content = Plain(text: string) | Blocks(blocks: seq<Block>) | NoContent
  datatype Message = Message(role: string, content: Content)
  datatype Thread = NoThread | Thread(kind: Option<string>, previous: Option<string>)
  datatype Payload = Payload(model: ModelField, messages: seq<Message>, thread: Thread, betas: seq<string>)

  datatype Config = Config(
    lock: string,
    autoRouting: bool,
    aliases: Aliases,
    longThreshold: nat,
    longTarget: string)

  /** What the size floor reads: the size estimate, its calibration and the last measured size. */
  datatype Measure = Measure(estimate: nat, ratio: real, floor: nat)

  /** Any answer of `route_model()`: its decision, the fields it may rewrite, the classifier calls it made. */
  datatype Answer = Answer(decision: Decision, model: ModelField, betas: seq<string>, calls: nat)

  const LONG_CONTEXT_BETA := "context-1m-2025-08-07"

  function Requested(m: ModelField): string {
    match m
    case Named(s) => s
    case NotText(r) => r
  }

  predicate IsContinuation(p: Payload) {
    p.thread.Thread? && p.thread.kind != Some("create") && p.thread.previous.Some?
  }

  predicate IsReplay(p: Payload) {
    p.thread.Thread? && p.thread.kind == Some("create")
    && exists i :: 0 <= i < |p.messages| && p.messages[i].role == "assistant"
  }

  function FinalContent(p: Payload): Content {
    if p.messages == [] || p.messages[|p.messages| - 1].role != "user" then NoContent
    else p.messages[|p.messages| - 1].content
  }

  function TextsOf(blocks: seq<Block>): seq<string> {
    if blocks == [] then []
    else (if blocks[0].TextBlock? then [blocks[0].text] else []) + TextsOf(blocks[1..])
  }

  function FinalUserText(p: Payload): Option<string> {
    match FinalContent(p)
    case Plain(t) => Some(t)
    case Blocks(bs) => if TextsOf(bs) == [] then None else Some(JoinLines(TextsOf(bs)))
    case NoContent => None
  }

  predicate IsToolResultOnly(p: Payload) {
    var c := FinalContent(p);
    c.Blocks? && c.blocks != [] && forall i :: 0 <= i < |c.blocks| ==> c.blocks[i].ToolResult?
  }

  /** The handoff key; the final text stands for its SHA-256. */
  function KeyOf(session: Option<string>, p: Payload): Option<HandoffKey> {
    if session == None || FinalUserText(p) == None then None
    else Some((session, FinalUserText(p).value))
  }

  lemma {:induction false} NoTextInToolResults(blocks: seq<Block>)
    requires forall i :: 0 <= i < |blocks| ==> blocks[i].ToolResult?
    ensures TextsOf(blocks) == []
  {
    if blocks != [] {
      NoTextInToolResults(blocks[1..]);
    }
  }

  lemma TextIsNotToolResult(p: Payload)
    ensures FinalUserText(p).Some? ==> !IsToolResultOnly(p)
  {
    if IsToolResultOnly(p) {
      NoTextInToolResults(FinalContent(p).blocks);
    }
  }

  /** A replay of the whole conversation has the key of the delta it replaces. */
  lemma KeySurvivesReplay(session: Option<string>, delta: Payload, replay: Payload)
    requires delta.messages != [] && replay.messages != []
    requires delta.messages[|delta.messages| - 1] == replay.messages[|replay.messages| - 1]
    ensures KeyOf(session, delta) == KeyOf(session, replay)
  {
  }

  predicate SameModel(a: string, b: string, aliases: Aliases) {
    a == b || (a != "" && b != "" && ResolveModel(a, aliases) == ResolveModel(b, aliases))
  }

  predicate HasLongContext(betas: seq<string>) {
    exists i :: 0 <= i < |betas| && StartsWith(betas[i], LONG_CONTEXT_PREFIX)
  }

  function EnsureLongContext(betas: seq<string>): (r: seq<string>)
    ensures HasLongContext(r)
  {
    if HasLongContext(betas) then betas
    else
      var r := betas + [LONG_CONTEXT_BETA];
      assert StartsWith(r[|betas|], LONG_CONTEXT_PREFIX);
      r
  }

  // ---- Routing one request ---------------------------------------------------

  /** Where a request stands after a routing step. */
  datatype Progress =
    | Dispatch(payload: Payload, decision: Decision)
    | Reject(pinned: string, decision: Decision)
    | Classify(pinned: string)

  function Pinned(p: Payload, pinned: string, classification: Option<string>): Progress {
    Dispatch(p.(model := Named(pinned)),
             Decision(Requested(p.model), pinned, classification,
                      pinned != Requested(p.model), ThreadPinned))
  }

  /** Checks 1 to 4 of a continuation: everything before `route_model()` is asked. */
  function BeginContinuation(s: Sessions, p: Payload, key: Option<HandoffKey>, cfg: Config,
                             now: real): (Sessions, Progress)
    requires s.Valid() && IsContinuation(p)
  {
    var requested := Requested(p.model);
    var baseline := if cfg.lock != "off" then cfg.lock else requested;
    match s.threads.Get(p.thread.previous.value)
    case None =>
      (s, Dispatch(if cfg.lock != "off" then p.(model := Named(baseline)) else p,
                   Decision(requested, baseline, None, baseline != requested, ThreadPinUnknown)))
    case Some(pin) =>
      if pin.longContext then
        (s, Pinned(p.(betas := EnsureLongContext(p.betas)), pin.model, None))
      else if IsToolResultOnly(p) then
        (s, Pinned(p, pin.model, None))
      else if key == None then
        (s, Classify(pin.model))
      else
        var after := s.AfterLookup(key.value, now, false);
        match s.Live(key.value, now)
        case Some(h) =>
          (after, Reject(pin.model, Decision(requested, h.model, h.decision.classification,
                                             h.model != requested, ThreadReclassified)))
        case None => (after, Classify(pin.model))
  }

  /** Check 5: the answer pins the turn, or a different model rejects it and stores the handoff. */
  function FinishContinuation(s: Sessions, p: Payload, key: Option<HandoffKey>, pinned: string,
                              answer: Answer, cfg: Config, now: real): (Sessions, Progress)
    requires s.Valid()
  {
    var d := answer.decision;
    if (d.classification == None && d.reason != SizeForcedLongContext)
       || SameModel(d.routed, pinned, cfg.aliases) then
      (s, Pinned(p.(betas := answer.betas), pinned, d.classification))
    else
      (if key == None then s else s.StoreHandoff(key.value, d.routed, d, now),
       Reject(pinned, d.(reason := ThreadReclassified)))
  }

  /** The long-context size floor: a decision when the request is near the window. */
  function SizeFloor(p: Payload, cfg: Config, m: Measure): Option<Decision> {
    if cfg.longThreshold == 0 || cfg.longTarget == "off"
       || Max(RoundHalfEven(m.estimate as real * m.ratio), m.floor) < cfg.longThreshold then None
    else Some(Decision(Requested(p.model), cfg.longTarget, None,
                       cfg.longTarget != Requested(p.model), SizeForcedLongContext))
  }

  predicate FloorFires(p: Payload, cfg: Config, m: Measure) {
    cfg.autoRouting && p.model.Named? && !IsBlank(p.model.name) && SizeFloor(p, cfg, m).Some?
  }

  function Max(a: int, b: int): int {
    if a >= b then a else b
  }

  /** The first non-empty of the last Thread model, the lock and the client's own model. */
  function ReplayModel(s: Sessions, session: Option<string>, cfg: Config, requested: string): string {
    var last := if session.Some? && session.value in s.lastModels.items then s.lastModels.items[session.value] else "";
    if last != "" then last else if cfg.lock != "off" && cfg.lock != "" then cfg.lock else requested
  }

  /** A replay: size floor, then the handoff, then the last Thread model, then `route_model()`. */
  function ReplayRoute(s: Sessions, p: Payload, session: Option<string>, key: Option<HandoffKey>,
                       cfg: Config, m: Measure, answer: Answer, now: real): (r: (Sessions, Payload, Decision, nat))
    requires s.Valid()
    ensures r.0.Valid()
  {
    var requested := Requested(p.model);
    var after := if key == None then s else s.AfterLookup(key.value, now, true);
    var handoff := if key == None then None else s.Live(key.value, now);
    if FloorFires(p, cfg, m) then
      var floor := SizeFloor(p, cfg, m).value;
      (after, p.(model := Named(cfg.longTarget), betas := EnsureLongContext(p.betas)),
       if handoff.Some? then floor.(reason := ThreadReclassifiedReplay) else floor, 0)
    else if handoff.Some? then
      var h := handoff.value;
      (after, p.(model := Named(h.model)),
       Decision(requested, h.model, h.decision.classification, h.model != requested, ThreadReclassifiedReplay), 0)
    else if IsToolResultOnly(p) then
      var model := ReplayModel(s, session, cfg, requested);
      (after, if model != requested then p.(model := Named(model)) else p,
       Decision(requested, model, None, model != requested, ThreadReplayPinned), 0)
    else
      (after, p.(model := answer.model, betas := answer.betas), answer.decision, answer.calls)
  }

  /** One request's routing state, rewritten in place as `ProxyRequestHandler` does. */
  class Handler {
    var payload: Payload
    var routing: Option<Decision>
    var reclassifiedFrom: Option<string>
    const sessions: SessionState

    constructor (payload: Payload, sessions: SessionState)
      ensures this.payload == payload && this.sessions == sessions
      ensures routing == None && reclassifiedFrom == None
    {
      this.payload, this.sessions, routing, reclassifiedFrom := payload, sessions, None, None;
    }

    /** The routing so far agrees with a step of the protocol. */
    ghost predicate Shows(progress: Progress, original: Payload)
      reads this
    {
      match progress
      case Dispatch(p, d) => payload == p && routing == Some(d) && reclassifiedFrom == None
      case Reject(pinned, d) => routing == Some(d) && reclassifiedFrom == Some(pinned)
      case Classify(_) => payload == original && reclassifiedFrom == None
    }

    method Pin(pinned: string, requested: string, classification: Option<string>)
      modifies this`payload, this`routing
      ensures payload == old(payload).(model := Named(pinned))
      ensures routing == Some(Decision(requested, pinned, classification, pinned != requested, ThreadPinned))
    {
      payload := payload.(model := Named(pinned));
      routing := Some(Decision(requested, pinned, classification, pinned != requested, ThreadPinned));
    }

    method RouteContinuation(key: Option<HandoffKey>, cfg: Config, answer: Answer, peekAt: real, storeAt: real)
      requires IsContinuation(payload) && sessions.Valid() && reclassifiedFrom == None
      modifies this, sessions
      ensures sessions.Valid()
      ensures var (s1, step) := BeginContinuation(old(sessions.View()), old(payload), key, cfg, peekAt);
              if step.Classify? then
                var (s2, last) := FinishContinuation(s1, old(payload), key, step.pinned, answer, cfg, storeAt);
                sessions.View() == s2 && Shows(last, old(payload))
              else sessions.View() == s1 && Shows(step, old(payload))
    {
      var requested := Requested(payload.model);
      var pin := sessions.threads.Get(payload.thread.previous.value);
      if pin == None {
        var baseline := requested;
        if cfg.lock != "off" {
          baseline := cfg.lock;
          payload := payload.(model := Named(baseline));
        }
        routing := Some(Decision(requested, baseline, None, baseline != requested, ThreadPinUnknown));
        return;
      }
      var pinned := pin.value.model;
      if pin.value.longContext {
        payload := payload.(betas := EnsureLongContext(payload.betas));
        Pin(pinned, requested, None);
        return;
      }
      if IsToolResultOnly(payload) {
        Pin(pinned, requested, None);
        return;
      }
      if key.Some? {
        var handoff := sessions.PeekHandoff(key.value, peekAt);
        if handoff.Some? {
          reclassifiedFrom := Some(pinned);
          routing := Some(Decision(requested, handoff.value.model, handoff.value.decision.classification,
                                   handoff.value.model != requested, ThreadReclassified));
          return;
        }
      }
      var decision := answer.decision;
      payload := payload.(model := answer.model, betas := answer.betas);
      if decision.classification == None && decision.reason != SizeForcedLongContext {
        Pin(pinned, requested, decision.classification);
        return;
      }
      if SameModel(decision.routed, pinned, cfg.aliases) {
        Pin(pinned, requested, decision.classification);
        return;
      }
      reclassifiedFrom := Some(pinned);
      if key.Some? {
        sessions.StoreHandoff(key.value, decision.routed, decision, storeAt);
      }
      routing := Some(decision.(reason := ThreadReclassified));
    }

    method TakeKeyed(key: Option<HandoffKey>, now: real) returns (h: Option<Handoff>)
      requires sessions.Valid()
      modifies sessions
      ensures sessions.Valid()
      ensures sessions.View() == if key == None then old(sessions.View())
                                 else old(sessions.View()).AfterLookup(key.value, now, true)
      ensures h == if key == None then None else old(sessions.View()).Live(key.value, now)
      ensures sessions.lastModels == old(sessions.lastModels)
    {
      h := None;
      if key.Some? {
        h := sessions.TakeHandoff(key.value, now);
      }
    }

    method ChooseReplayModel(session: Option<string>, cfg: Config, requested: string) returns (model: string)
      ensures model == ReplayModel(sessions.View(), session, cfg, requested)
    {
      var last := if session.Some? then sessions.lastModels.Get(session.value) else None;
      if last.Some? && last.value != "" {
        return last.value;
      }
      model := if cfg.lock != "off" && cfg.lock != "" then cfg.lock else requested;
    }

    method RouteReplay(session: Option<string>, key: Option<HandoffKey>, cfg: Config, m: Measure,
                       answer: Answer, now: real) returns (calls: nat)
      requires sessions.Valid()
      modifies this`payload, this`routing, sessions
      ensures sessions.Valid()
      ensures (sessions.View(), payload, routing, calls) ==
              var (s, p, d, n) := ReplayRoute(old(sessions.View()), old(payload), session, key, cfg, m, answer, now);
              (s, p, Some(d), n)
    {
      calls := 0;
      var requested := Requested(payload.model);
      var floor := None;
      if cfg.autoRouting && payload.model.Named? && !IsBlank(payload.model.name) {
        floor := SizeFloor(payload, cfg, m);
        if floor.Some? {
          payload := payload.(model := Named(cfg.longTarget), betas := EnsureLongContext(payload.betas));
        }
      }
      var handoff := TakeKeyed(key, now);
      if floor.Some? {
        routing := if handoff.Some? then Some(floor.value.(reason := ThreadReclassifiedReplay)) else floor;
        return;
      }
      if handoff.Some? {
        payload := payload.(model := Named(handoff.value.model));
        routing := Some(Decision(requested, handoff.value.model, handoff.value.decision.classification,
                                 handoff.value.model != requested, ThreadReclassifiedReplay));
        return;
      }
      if IsToolResultOnly(payload) {
        var chosen := ChooseReplayModel(session, cfg, requested);
        if chosen != requested {
          payload := payload.(model := Named(chosen));
        }
        routing := Some(Decision(requested, chosen, None, chosen != requested, ThreadReplayPinned));
        return;
      }
      payload := payload.(model := answer.model, betas := answer.betas);
      routing := Some(answer.decision);
      calls := answer.calls;
    }
  }
}
