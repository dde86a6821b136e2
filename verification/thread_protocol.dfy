/**
 The Thread protocol between client, proxy and upstream, over whole runs.

 Requests arrive, are classified, answered and recorded in any interleaving; the
 classifier, the payloads, the configuration and the upstream are arbitrary at every
 step.  Message ids are fresh: upstream never issues one twice.
 */
module ThreadProtocol {
  import opened Common
  import opened OrderedDict
  import opened SessionState
  import opened ThreadRouting

  // ---- The protocol as a state machine ---------------------------------------

  /** A continuation whose classification is outstanding. */
  datatype Waiting = Waiting(payload: Payload, session: Option<string>, key: Option<HandoffKey>,
                             pinned: string, previous: string)

  /** A request dispatched upstream; `parent` is the pinned message it continues. */
  datatype InFlight = InFlight(payload: Payload, session: Option<string>, parent: Option<string>)

  datatype Recorded = Recorded(model: string, parent: Option<string>)

  /** `log` remembers every recorded response, also after its pin has been evicted. */
  datatype World = World(
    sessions: Sessions,
    now: real,
    waiting: map<nat, Waiting>,
    inFlight: map<nat, InFlight>,
    log: map<string, Recorded>,
    next: nat)

  type Seconds = t: real | 0.0 <= t

  /** `Abandon` drops a continuation whose classification will not be answered. */
  datatype Step =
    | Arrive(payload: Payload, session: Option<string>, cfg: Config, measure: Measure, answer: Answer)
    | Classified(ticket: nat, cfg: Config, answer: Answer)
    | Respond(ticket: nat, id: string, text: Option<string>, limit: nat)
    | Fail(ticket: nat)
    | Abandon(ticket: nat)
    | Tick(elapsed: Seconds)

  /** What the client sees of a step. */
  datatype Outcome =
    | Sent(payload: Payload, decision: Decision, calls: nat)
    | Local400(pinned: string, decision: Decision, calls: nat)
    | Quiet

  function Dispatched(w: World, s: Sessions, p: Payload, session: Option<string>, parent: Option<string>): World {
    w.(sessions := s, inFlight := w.inFlight[w.next := InFlight(p, session, parent)], next := w.next + 1)
  }

  function ArriveContinuation(w: World, e: Step): (World, Outcome)
    requires w.sessions.Valid() && e.Arrive? && IsContinuation(e.payload)
  {
    var key, previous := KeyOf(e.session, e.payload), e.payload.thread.previous.value;
    var (s, step) := BeginContinuation(w.sessions, e.payload, key, e.cfg, w.now);
    match step
    case Dispatch(p, d) =>
      var parent := if w.sessions.threads.Get(previous).Some? then Some(previous) else None;
      (Dispatched(w, s, p, e.session, parent), Sent(p, d, 0))
    case Reject(pinned, d) => (w.(sessions := s), Local400(pinned, d, 0))
    case Classify(pinned) =>
      (w.(sessions := s, waiting := w.waiting[w.next := Waiting(e.payload, e.session, key, pinned, previous)],
          next := w.next + 1), Quiet)
  }

  function ArriveOther(w: World, e: Step): (r: (World, Outcome))
    requires w.sessions.Valid() && e.Arrive?
    ensures r.0.sessions.Valid()
  {
    if IsReplay(e.payload) then
      var (s, p, d, calls) := ReplayRoute(w.sessions, e.payload, e.session, KeyOf(e.session, e.payload),
                                          e.cfg, e.measure, e.answer, w.now);
      (Dispatched(w, s, p, e.session, None), Sent(p, d, calls))
    else
      var p := e.payload.(model := e.answer.model, betas := e.answer.betas);
      (Dispatched(w, w.sessions, p, e.session, None), Sent(p, e.answer.decision, e.answer.calls))
  }

  function FinishClassified(w: World, e: Step): (World, Outcome)
    requires w.sessions.Valid() && e.Classified? && e.ticket in w.waiting
  {
    var q := w.waiting[e.ticket];
    var v := w.(waiting := w.waiting - {e.ticket});
    var (s, step) := FinishContinuation(w.sessions, q.payload, q.key, q.pinned, e.answer, e.cfg, w.now);
    match step
    case Dispatch(p, d) => (Dispatched(v, s, p, q.session, Some(q.previous)), Sent(p, d, e.answer.calls))
    case Reject(pinned, d) => (v.(sessions := s), Local400(pinned, d, e.answer.calls))
    case Classify(_) => (v, Quiet)
  }

  /** A successful response: its id is recorded when the request carried a Thread. */
  function RecordResponse(w: World, e: Step): (r: World)
    requires w.sessions.Valid() && e.Respond? && e.ticket in w.inFlight
    ensures r.sessions.Valid()
  {
    var f := w.inFlight[e.ticket];
    var v := w.(inFlight := w.inFlight - {e.ticket});
    if f.payload.thread.NoThread? || f.payload.model.NotText? then v
    else
      var model := f.payload.model.name;
      var pin := PinFor(model, HasLongContext(f.payload.betas), e.text, e.limit);
      v.(sessions := w.sessions.RecordThread(e.id, pin, f.session),
         log := w.log[e.id := Recorded(model, f.parent)])
  }

  function Next(w: World, e: Step): (r: (World, Outcome))
    requires w.sessions.Valid()
    ensures r.0.sessions.Valid()
  {
    match e
    case Arrive(p, _, _, _, _) => if IsContinuation(p) then ArriveContinuation(w, e) else ArriveOther(w, e)
    case Classified(t, _, _) => if t in w.waiting then FinishClassified(w, e) else (w, Quiet)
    case Respond(t, _, _, _) => (if t in w.inFlight then RecordResponse(w, e) else w, Quiet)
    case Fail(t) => (w.(inFlight := w.inFlight - {t}), Quiet)
    case Abandon(t) => (w.(waiting := w.waiting - {t}), Quiet)
    case Tick(elapsed) => (w.(now := w.now + elapsed), Quiet)
  }

  function Run(w: World, es: seq<Step>): (r: World)
    requires w.sessions.Valid()
    ensures r.sessions.Valid()
    decreases |es|
  {
    if es == [] then w else Run(Next(w, es[0]).0, es[1..])
  }

  // ---- Safety: a Thread keeps its model --------------------------------------

  /** Every pin in the Thread map is the model of a recorded response. */
  ghost predicate PinsLogged(s: Sessions, log: map<string, Recorded>) {
    forall id :: id in s.threads.items ==> id in log && log[id].model == s.threads.items[id].model
  }

  /** Pins, outstanding work and the log agree on the model of every Thread. */
  ghost predicate Consistent(w: World) {
    && w.sessions.Valid()
    && PinsLogged(w.sessions, w.log)
    && WaitingAgrees(w.waiting, w.log)
    && InFlightAgrees(w.inFlight, w.log)
    && LogAgrees(w.log)
  }

  ghost predicate WaitingAgrees(waiting: map<nat, Waiting>, log: map<string, Recorded>) {
    forall t :: t in waiting ==> Continues(log, Some(waiting[t].previous), Named(waiting[t].pinned))
  }

  ghost predicate InFlightAgrees(inFlight: map<nat, InFlight>, log: map<string, Recorded>) {
    forall t :: t in inFlight ==> Continues(log, inFlight[t].parent, inFlight[t].payload.model)
  }

  ghost predicate LogAgrees(log: map<string, Recorded>) {
    forall id :: id in log ==> Continues(log, log[id].parent, Named(log[id].model))
  }

  /** A known parent carries the same model. */
  predicate Continues(log: map<string, Recorded>, parent: Option<string>, model: ModelField) {
    parent.Some? ==> parent.value in log && model == Named(log[parent.value].model)
  }

  predicate FreshId(w: World, e: Step) {
    e.Respond? ==> e.id !in w.log
  }

  predicate FreshIds(w: World, es: seq<Step>)
    requires w.sessions.Valid()
    decreases |es|
  {
    es == [] || (FreshId(w, es[0]) && FreshIds(Next(w, es[0]).0, es[1..]))
  }

  lemma LookupKeepsThreads(w: World, p: Payload, key: Option<HandoffKey>, cfg: Config)
    requires w.sessions.Valid() && IsContinuation(p)
    ensures BeginContinuation(w.sessions, p, key, cfg, w.now).0.threads == w.sessions.threads
    ensures StepKeepsPin(BeginContinuation(w.sessions, p, key, cfg, w.now).1,
                         w.sessions.threads.Get(p.thread.previous.value))
  {
  }

  /** What a continuation step says of the model agrees with the pin, if there is one. */
  predicate StepKeepsPin(step: Progress, pin: Option<ThreadPin>) {
    match step
    case Dispatch(q, _) => pin.Some? ==> q.model == Named(pin.value.model)
    case Reject(pinned, _) => pin.Some? && pinned == pin.value.model
    case Classify(pinned) => pin.Some? && pinned == pin.value.model
  }

  lemma RecordExtendsThreads(s: Sessions, id: string, pin: ThreadPin, session: Option<string>, q: string)
    requires s.Valid() && q in s.RecordThread(id, pin, session).threads.items && q != id
    ensures q in s.threads.items && s.RecordThread(id, pin, session).threads.items[q] == s.threads.items[q]
  {
    PutOrder(s.threads, MAX_ENTRIES, id, pin);
  }

  lemma RecordKeepsPinsLogged(s: Sessions, log: map<string, Recorded>, id: string, pin: ThreadPin,
                              session: Option<string>, parent: Option<string>)
    requires s.Valid() && PinsLogged(s, log)
    ensures PinsLogged(s.RecordThread(id, pin, session), log[id := Recorded(pin.model, parent)])
  {
    var r := s.RecordThread(id, pin, session);
    PutNewest(s.threads, MAX_ENTRIES, id, pin);
    forall q | q in r.threads.items && q != id
      ensures q in log && log[q].model == r.threads.items[q].model
    {
      RecordExtendsThreads(s, id, pin, session, q);
    }
  }

  /** New session state with the same pins, and one more request in flight that agrees with the log. */
  lemma DispatchKeepsConsistent(w: World, s: Sessions, p: Payload, session: Option<string>, parent: Option<string>)
    requires Consistent(w) && s.Valid() && s.threads == w.sessions.threads
    requires Continues(w.log, parent, p.model)
    ensures Consistent(Dispatched(w, s, p, session, parent))
  {
    assert PinsLogged(s, w.log);
  }

  lemma StateKeepsConsistent(w: World, s: Sessions)
    requires Consistent(w) && s.Valid() && s.threads == w.sessions.threads
    ensures Consistent(w.(sessions := s))
  {
    assert PinsLogged(s, w.log);
  }

  lemma ParkingKeepsConsistent(w: World, s: Sessions, q: Waiting)
    requires Consistent(w) && s.Valid() && s.threads == w.sessions.threads
    requires Continues(w.log, Some(q.previous), Named(q.pinned))
    ensures Consistent(w.(sessions := s, waiting := w.waiting[w.next := q], next := w.next + 1))
  {
    assert PinsLogged(s, w.log);
  }

  lemma ContinuationKeepsConsistent(w: World, e: Step)
    requires Consistent(w) && e.Arrive? && IsContinuation(e.payload)
    ensures Consistent(ArriveContinuation(w, e).0)
  {
    var key, previous := KeyOf(e.session, e.payload), e.payload.thread.previous.value;
    var (s, step) := BeginContinuation(w.sessions, e.payload, key, e.cfg, w.now);
    LookupKeepsThreads(w, e.payload, key, e.cfg);
    assert previous in w.sessions.threads.items ==>
      previous in w.log && w.log[previous].model == w.sessions.threads.items[previous].model;
    match step
    case Dispatch(p, _) =>
      var parent := if w.sessions.threads.Get(previous).Some? then Some(previous) else None;
      DispatchKeepsConsistent(w, s, p, e.session, parent);
    case Reject(_, _) => StateKeepsConsistent(w, s);
    case Classify(pinned) => ParkingKeepsConsistent(w, s, Waiting(e.payload, e.session, key, pinned, previous));
  }

  lemma ReplayKeepsThreads(w: World, e: Step)
    requires w.sessions.Valid() && e.Arrive?
    ensures var key := KeyOf(e.session, e.payload);
            ReplayRoute(w.sessions, e.payload, e.session, key, e.cfg, e.measure, e.answer, w.now).0.threads
            == w.sessions.threads
  {
  }

  lemma OtherKeepsConsistent(w: World, e: Step)
    requires Consistent(w) && e.Arrive?
    ensures Consistent(ArriveOther(w, e).0)
  {
    if IsReplay(e.payload) {
      var key := KeyOf(e.session, e.payload);
      var (s, p, _, _) := ReplayRoute(w.sessions, e.payload, e.session, key, e.cfg, e.measure, e.answer, w.now);
      ReplayKeepsThreads(w, e);
      DispatchKeepsConsistent(w, s, p, e.session, None);
    } else {
      var p := e.payload.(model := e.answer.model, betas := e.answer.betas);
      DispatchKeepsConsistent(w, w.sessions, p, e.session, None);
    }
  }

  lemma ClassifiedKeepsConsistent(w: World, e: Step)
    requires Consistent(w) && e.Classified? && e.ticket in w.waiting
    ensures Consistent(FinishClassified(w, e).0)
  {
    var v := FinishClassified(w, e).0;
    assert v.sessions.threads == w.sessions.threads && v.log == w.log;
    assert PinsLogged(v.sessions, v.log);
  }

  /** A response with a fresh id leaves everything else as it was. */
  lemma LogExtends(waiting: map<nat, Waiting>, inFlight: map<nat, InFlight>, log: map<string, Recorded>,
                   id: string, recorded: Recorded)
    requires id !in log && Continues(log, recorded.parent, Named(recorded.model))
    requires WaitingAgrees(waiting, log) && InFlightAgrees(inFlight, log) && LogAgrees(log)
    ensures WaitingAgrees(waiting, log[id := recorded])
    ensures InFlightAgrees(inFlight, log[id := recorded])
    ensures LogAgrees(log[id := recorded])
  {
  }

  lemma ResponseKeepsConsistent(w: World, e: Step)
    requires Consistent(w) && FreshId(w, e) && e.Respond? && e.ticket in w.inFlight
    ensures Consistent(RecordResponse(w, e))
  {
    var f := w.inFlight[e.ticket];
    var left := w.inFlight - {e.ticket};
    assert InFlightAgrees(left, w.log);
    if f.payload.thread.Thread? && f.payload.model.Named? {
      var model := f.payload.model.name;
      var pin := PinFor(model, HasLongContext(f.payload.betas), e.text, e.limit);
      LogExtends(w.waiting, left, w.log, e.id, Recorded(model, f.parent));
      RecordKeepsPinsLogged(w.sessions, w.log, e.id, pin, f.session, f.parent);
    }
  }

  lemma StepKeepsConsistent(w: World, e: Step)
    requires Consistent(w) && FreshId(w, e)
    ensures Consistent(Next(w, e).0)
  {
    match e
    case Arrive(p, _, _, _, _) =>
      if IsContinuation(p) {
        ContinuationKeepsConsistent(w, e);
      } else {
        OtherKeepsConsistent(w, e);
      }
    case Classified(t, _, _) => if t in w.waiting { ClassifiedKeepsConsistent(w, e); }
    case Respond(t, _, _, _) => if t in w.inFlight { ResponseKeepsConsistent(w, e); }
    case Fail(_) =>
    case Abandon(_) =>
    case Tick(_) =>
  }

  lemma {:induction false} RunKeepsConsistent(w: World, es: seq<Step>)
    requires Consistent(w) && FreshIds(w, es)
    ensures Consistent(Run(w, es))
    decreases |es|
  {
    if es != [] {
      StepKeepsConsistent(w, es[0]);
      RunKeepsConsistent(Next(w, es[0]).0, es[1..]);
    }
  }

  const START := World(FRESH, 0.0, map[], map[], map[], 0)

  /** Sent on the pinned model, rejected without being sent, or left to the classifier under that pin. */
  predicate PinnedOrHeld(w: World, v: World, out: Outcome, model: string) {
    match out
    case Sent(p, _, _) => p.model == Named(model)
    case Local400(pinned, _, _) => pinned == model && v.inFlight == w.inFlight
    case Quiet => v.inFlight == w.inFlight && w.next in v.waiting && v.waiting[w.next].pinned == model
  }

  /** Sent on the pinned model, or rejected without being sent. */
  predicate PinnedOrRejected(w: World, v: World, out: Outcome, model: string) {
    match out
    case Sent(p, _, _) => p.model == Named(model)
    case Local400(pinned, _, _) => pinned == model && v.inFlight == w.inFlight
    case Quiet => false
  }

  /**
   In every reachable state, a continuation of a pinned message is sent on exactly the
   pinned model, rejected locally without being sent, or left to the classifier.
   */
  lemma ContinuationKeepsPin(es: seq<Step>, e: Step)
    requires FreshIds(START, es) && e.Arrive? && IsContinuation(e.payload)
    requires e.payload.thread.previous.value in Run(START, es).sessions.threads.items
    ensures var w := Run(START, es);
            PinnedOrHeld(w, Next(w, e).0, Next(w, e).1, w.sessions.threads.items[e.payload.thread.previous.value].model)
  {
    var w := Run(START, es);
    RunKeepsConsistent(START, es);
    LookupKeepsThreads(w, e.payload, KeyOf(e.session, e.payload), e.cfg);
  }

  /**
   When the classifier answers, the parked continuation is sent on the model it was parked
   under, which is that of its recorded parent, or it is rejected.
   */
  lemma AnswerKeepsPin(es: seq<Step>, e: Step)
    requires FreshIds(START, es) && e.Classified? && e.ticket in Run(START, es).waiting
    ensures var w := Run(START, es);
            var q := w.waiting[e.ticket];
            && q.previous in w.log && w.log[q.previous].model == q.pinned
            && PinnedOrRejected(w, Next(w, e).0, Next(w, e).1, q.pinned)
  {
    var w := Run(START, es);
    RunKeepsConsistent(START, es);
    assert Continues(w.log, Some(w.waiting[e.ticket].previous), Named(w.waiting[e.ticket].pinned));
  }

  predicate IsChain(log: map<string, Recorded>, ids: seq<string>) {
    && (forall i :: 0 <= i < |ids| ==> ids[i] in log)
    && (forall i :: 0 < i < |ids| ==> log[ids[i]].parent == Some(ids[i - 1]))
  }

  /** The model is constant along every recorded Thread chain of every run. */
  lemma ChainKeepsModel(es: seq<Step>, ids: seq<string>)
    requires FreshIds(START, es) && ids != [] && IsChain(Run(START, es).log, ids)
    ensures forall i :: 0 <= i < |ids| ==> Run(START, es).log[ids[i]].model == Run(START, es).log[ids[0]].model
  {
    RunKeepsConsistent(START, es);
    LoggedChain(Run(START, es), ids);
  }

  lemma {:induction false} LoggedChain(w: World, ids: seq<string>)
    requires Consistent(w) && ids != [] && IsChain(w.log, ids)
    ensures forall i :: 0 <= i < |ids| ==> w.log[ids[i]].model == w.log[ids[0]].model
    decreases |ids|
  {
    var n := |ids| - 1;
    if n > 0 {
      LoggedChain(w, ids[..n]);
      assert ids[..n][n - 1] == ids[n - 1];
      assert Continues(w.log, w.log[ids[n]].parent, Named(w.log[ids[n]].model));
    }
  }

  /** Only a continuation gets the local 400: a replay and a first request are always sent. */
  lemma OnlyContinuationsAreRejected(w: World, e: Step)
    requires w.sessions.Valid() && e.Arrive? && !IsContinuation(e.payload)
    ensures Next(w, e).1.Sent?
  {
  }
}
