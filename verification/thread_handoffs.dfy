/**
 The handoff of a re-classified conversation over whole runs of the Thread protocol: what a
 replay is sent on, as a function of the history of the handoff store.
 */
module ThreadHandoffs {
  import opened Common
  import opened OrderedDict
  import opened SessionState
  import opened ThreadRouting
  import opened ThreadProtocol
  import opened ThreadDecisions

  predicate TakesHandoff(e: Step, key: HandoffKey) {
    e.Arrive? && !IsContinuation(e.payload) && IsReplay(e.payload) && KeyOf(e.session, e.payload) == Some(key)
  }

  /** The answer to a keyed turn names another model than its pin: a rejection, which stores a handoff. */
  predicate StoresHandoff(w: World, e: Step) {
    && e.Classified? && e.ticket in w.waiting && w.waiting[e.ticket].key.Some?
    && NamesAnother(e.answer.decision, w.waiting[e.ticket].pinned, e.cfg.aliases)
  }

  /** A continuation that gets as far as the handoff store. */
  predicate Peeks(s: Sessions, p: Payload) {
    && IsContinuation(p) && p.thread.previous.value in s.threads.items
    && !s.threads.items[p.thread.previous.value].longContext && !IsToolResultOnly(p)
  }

  // ---- The history of the handoff store in a run -----------------------------

  /** What a step does to the handoff store. */
  function HandoffEvents(w: World, e: Step): seq<Event>
    requires w.sessions.Valid()
  {
    match e
    case Arrive(p, session, _, _, _) =>
      var key := KeyOf(session, p);
      if key == None then []
      else if Peeks(w.sessions, p) then [Lookup(key.value, false, w.now)]
      else if !IsContinuation(p) && IsReplay(p) then [Lookup(key.value, true, w.now)]
      else []
    case Classified(t, _, answer) =>
      if !StoresHandoff(w, e) then []
      else [Store(w.waiting[t].key.value, answer.decision.routed, answer.decision, w.now)]
    case _ => []
  }

  function HandoffHistory(es: seq<Step>): seq<Event> {
    if es == [] then []
    else HandoffHistory(es[..|es| - 1]) + HandoffEvents(Run(START, es[..|es| - 1]), es[|es| - 1])
  }

  lemma {:induction false} RunLast(w: World, es: seq<Step>)
    requires w.sessions.Valid() && es != []
    ensures Run(w, es) == Next(Run(w, es[..|es| - 1]), es[|es| - 1]).0
    decreases |es|
  {
    if |es| > 1 {
      RunLast(Next(w, es[0]).0, es[1..]);
      assert es[1..][..|es[1..]| - 1] == es[..|es| - 1][1..];
    } else {
      assert es[..0] == [] && es[1..] == [];
    }
  }

  /** A lookup and a store touch nothing but the handoffs, and depend on nothing else. */
  lemma SameHandoffs(s: Sessions, r: Sessions, e: Event)
    requires s.Valid() && r.Valid() && s.handoffs == r.handoffs
    ensures Apply(s, e).handoffs == Apply(r, e).handoffs
  {
  }

  /** The time a step takes. */
  function Wait(e: Step): Seconds {
    if e.Tick? then e.elapsed else 0.0
  }

  lemma ArrivalApplies(w: World, e: Step)
    requires w.sessions.Valid() && e.Arrive? && IsContinuation(e.payload)
    ensures var events := HandoffEvents(w, e);
            && Next(w, e).0.now == w.now
            && (events == [] ==> Next(w, e).0.sessions.handoffs == w.sessions.handoffs)
            && (events != [] ==> Next(w, e).0.sessions.handoffs == Apply(w.sessions, events[0]).handoffs)
  {
  }

  lemma ReplayApplies(w: World, e: Step)
    requires w.sessions.Valid() && e.Arrive? && !IsContinuation(e.payload)
    ensures var events := HandoffEvents(w, e);
            && Next(w, e).0.now == w.now
            && (events == [] ==> Next(w, e).0.sessions.handoffs == w.sessions.handoffs)
            && (events != [] ==> Next(w, e).0.sessions.handoffs == Apply(w.sessions, events[0]).handoffs)
  {
  }

  lemma ClassifiedApplies(w: World, e: Step)
    requires w.sessions.Valid() && e.Classified?
    ensures var events := HandoffEvents(w, e);
            && Next(w, e).0.now == w.now
            && (events == [] ==> Next(w, e).0.sessions.handoffs == w.sessions.handoffs)
            && (events != [] ==> Next(w, e).0.sessions.handoffs == Apply(w.sessions, events[0]).handoffs)
  {
  }

  lemma StepApplies(w: World, e: Step)
    requires w.sessions.Valid()
    ensures var events := HandoffEvents(w, e);
            && |events| <= 1 && Next(w, e).0.now == w.now + Wait(e)
            && (events == [] ==> Next(w, e).0.sessions.handoffs == w.sessions.handoffs)
            && (events != [] ==> events[0].at == w.now
                                 && Next(w, e).0.sessions.handoffs == Apply(w.sessions, events[0]).handoffs)
  {
    match e
    case Arrive(p, _, _, _, _) =>
      if IsContinuation(p) {
        ArrivalApplies(w, e);
      } else {
        ReplayApplies(w, e);
      }
    case Classified(_, _, _) => ClassifiedApplies(w, e);
    case Respond(_, _, _, _) =>
    case Fail(_) =>
    case Abandon(_) =>
    case Tick(_) =>
  }

  /** The history of a run explains its handoff store. */
  lemma {:induction false} RunFollowsHistory(es: seq<Step>)
    ensures Run(START, es).sessions.handoffs == StoresAfter(HandoffHistory(es)).handoffs
    ensures ClockIsMonotone(HandoffHistory(es), Run(START, es).now)
  {
    if es != [] {
      var init, e := es[..|es| - 1], es[|es| - 1];
      var w, h := Run(START, init), HandoffHistory(init);
      RunFollowsHistory(init);
      RunLast(START, es);
      StepApplies(w, e);
      if HandoffEvents(w, e) == [] {
        assert h + [] == h;
        LaterClock(h, w.now, Next(w, e).0.now);
      } else {
        var event := HandoffEvents(w, e)[0];
        assert HandoffEvents(w, e) == [event];
        StoresOneMore(h, event, w.now);
        LaterClock(h + [event], w.now, Next(w, e).0.now);
        SameHandoffs(w.sessions, StoresAfter(h), event);
      }
    }
  }

  lemma LaterClock(h: seq<Event>, now: real, later: real)
    requires ClockIsMonotone(h, now) && now <= later
    ensures ClockIsMonotone(h, later)
  {
  }

  lemma StoresOneMore(h: seq<Event>, e: Event, now: real)
    requires ClockIsMonotone(h, now) && e.at == now
    ensures StoresAfter(h + [e]) == Apply(StoresAfter(h), e) && ClockIsMonotone(h + [e], now)
  {
    assert (h + [e])[..|h|] == h;
  }

  /** What the last rejection stored under a key, while it is held. */
  function HeldDecision(es: seq<Step>, key: HandoffKey): Option<Decision> {
    var h := HandoffHistory(es);
    if StillHeld(h, key, Run(START, es).now) then Some(h[LastStore(h, key)].decision) else None
  }

  /** A handoff names the model that the decision it was stored with routed to. */
  lemma {:induction false} StoresNameTheRoute(es: seq<Step>, i: nat)
    requires i < |HandoffHistory(es)| && HandoffHistory(es)[i].Store?
    ensures HandoffHistory(es)[i].model == HandoffHistory(es)[i].decision.routed
  {
    var init := es[..|es| - 1];
    if i < |HandoffHistory(init)| {
      StoresNameTheRoute(init, i);
    } else {
      StepApplies(Run(START, init), es[|es| - 1]);
    }
  }

  /** In every run, the live handoff of a key is what the last rejection under it stored. */
  lemma LiveIsHeld(es: seq<Step>, key: HandoffKey)
    ensures var w := Run(START, es);
            && (w.sessions.Live(key, w.now).Some? <==> HeldDecision(es, key).Some?)
            && (HeldDecision(es, key).Some? ==>
                  var d := HeldDecision(es, key).value;
                  && w.sessions.Live(key, w.now).value.model == d.routed
                  && w.sessions.Live(key, w.now).value.decision == d)
  {
    var w, h := Run(START, es), HandoffHistory(es);
    RunFollowsHistory(es);
    LookupIsExact(h, key, w.now);
    assert w.sessions.Live(key, w.now) == StoresAfter(h).Live(key, w.now);
    if StillHeld(h, key, w.now) {
      StoresNameTheRoute(es, LastStore(h, key));
    }
  }

  /**
   Re-classification converges, exactly.  In every run, a replay that the size floor spares is
   sent on the model of the last rejection stored under its key, without a classifier call,
   if that store is under 60 s old and neither taken nor evicted since; otherwise it is routed
   as a replay without a key is.
   */
  lemma ReplayFollowsHistory(es: seq<Step>, replay: Step, key: HandoffKey)
    requires TakesHandoff(replay, key) && !FloorFires(replay.payload, replay.cfg, replay.measure)
    ensures var w := Run(START, es);
            var out, held := Next(w, replay).1, HeldDecision(es, key);
            && out.Sent?
            && (held.Some? ==>
                  && out.payload.model == Named(held.value.routed) && out.calls == 0
                  && out.decision.reason == ThreadReclassifiedReplay
                  && out.decision.classification == held.value.classification)
            && (held == None ==> out == UnkeyedReplay(w, replay))
  {
    OnlyContinuationsAreRejected(Run(START, es), replay);
    LiveIsHeld(es, key);
  }

  function UnkeyedReplay(w: World, e: Step): Outcome
    requires w.sessions.Valid() && e.Arrive?
  {
    var (_, p, d, calls) := ReplayRoute(w.sessions, e.payload, e.session, None, e.cfg, e.measure, e.answer, w.now);
    Sent(p, d, calls)
  }

  /**
   A continuation that looks is rejected on arrival, without a classifier call, if and only if
   the handoff of its key is held.
   */
  lemma ResendFollowsHistory(es: seq<Step>, resend: Step, key: HandoffKey)
    requires resend.Arrive? && Peeks(Run(START, es).sessions, resend.payload)
    requires KeyOf(resend.session, resend.payload) == Some(key)
    ensures var w := Run(START, es);
            var out, held := Next(w, resend).1, HeldDecision(es, key);
            && (out.Local400? <==> held.Some?) && (out == Quiet <==> held == None)
            && (held.Some? ==> out.decision.routed == held.value.routed && out.calls == 0)
  {
    LiveIsHeld(es, key);
  }

  /** Either way the handoff is gone after the replay, and its Thread is pinned to the model it was sent on. */
  lemma ReplayTakesAndPins(w: World, replay: Step, key: HandoffKey, id: string, text: Option<string>, limit: nat)
    requires w.sessions.Valid() && TakesHandoff(replay, key)
    ensures var (v, out) := Next(w, replay);
            && key !in v.sessions.handoffs.items
            && out.Sent?
            && (out.payload.model.Named? ==>
                  var u := Next(v, Respond(w.next, id, text, limit)).0;
                  id in u.sessions.threads.items && Named(u.sessions.threads.items[id].model) == out.payload.model)
  {
    OnlyContinuationsAreRejected(w, replay);
  }

  /** Whatever upstream answers, the id of the answer is pinned to `model`. */
  ghost predicate EveryAnswerPins(w: World, ticket: nat, model: string)
    requires w.sessions.Valid()
  {
    forall id, text, limit ::
      var threads := Next(w, Respond(ticket, id, text, limit)).0.sessions.threads;
      id in threads.items && threads.items[id].model == model
  }

  lemma AnswersPin(w: World, replay: Step, key: HandoffKey, model: string)
    requires w.sessions.Valid() && TakesHandoff(replay, key)
    requires Next(w, replay).1.Sent? && Next(w, replay).1.payload.model == Named(model)
    ensures EveryAnswerPins(Next(w, replay).0, w.next, model)
  {
    forall id, text, limit
      ensures var threads := Next(Next(w, replay).0, Respond(w.next, id, text, limit)).0.sessions.threads;
              id in threads.items && threads.items[id].model == model
    {
      ReplayTakesAndPins(w, replay, key, id, text, limit);
    }
  }

  // ---- A sufficient condition, step by step ----------------------------------

  /** `h` is held for `key` and live, and `room` more stores will not push it out. */
  ghost predicate Holds(w: World, key: HandoffKey, h: Handoff, room: nat) {
    && w.sessions.Valid()
    && key.0.Some?
    && key in w.sessions.handoffs.items && w.sessions.handoffs.items[key] == h
    && w.now < h.expiresAt
    && |After(w.sessions.handoffs.order, key)| + room < MAX_ENTRIES
  }

  /** No step takes the handoff of `key` or stores another one under it. */
  predicate Undisturbed(w: World, es: seq<Step>, key: HandoffKey)
    requires w.sessions.Valid()
    decreases |es|
  {
    es == []
    || (!TakesHandoff(es[0], key) && !(StoresHandoff(w, es[0]) && w.waiting[es[0].ticket].key == Some(key))
        && Undisturbed(Next(w, es[0]).0, es[1..], key))
  }

  function Classifications(es: seq<Step>): nat {
    if es == [] then 0 else (if es[0].Classified? then 1 else 0) + Classifications(es[1..])
  }

  function Elapsed(es: seq<Step>): Seconds {
    if es == [] then 0.0 else Wait(es[0]) + Elapsed(es[1..])
  }

  lemma LookupKeepsOther(s: Sessions, key: HandoffKey, q: HandoffKey, now: real, take: bool)
    requires s.Valid() && q in s.handoffs.items
    requires key == q ==> !take && now < s.handoffs.items[q].expiresAt
    ensures var r := s.AfterLookup(key, now, take);
            && q in r.handoffs.items && r.handoffs.items[q] == s.handoffs.items[q]
            && |After(r.handoffs.order, q)| <= |After(s.handoffs.order, q)|
  {
    if key != q {
      DropAfter(s.handoffs, key, q);
      SubsetCardinality(After(s.handoffs.Drop(key).order, q), After(s.handoffs.order, q));
    }
  }

  lemma StoreKeepsOther(s: Sessions, key: HandoffKey, q: HandoffKey, model: string, d: Decision, now: real)
    requires s.Valid() && q in s.handoffs.items && q != key
    requires |After(s.handoffs.order, q)| + 1 < MAX_ENTRIES
    ensures var r := s.StoreHandoff(key, model, d, now);
            && q in r.handoffs.items && r.handoffs.items[q] == s.handoffs.items[q]
            && |After(r.handoffs.order, q)| <= |After(s.handoffs.order, q)| + 1
  {
    if key.0.Some? {
      var o := s.handoffs.order;
      InElements(o, q);
      if o[0] == q {
        DistinctCardinality(o[1..]);
      }
      PutAfter(s.handoffs, MAX_ENTRIES, key, Handoff(model, d, now + HANDOFF_TTL), q);
    }
  }

  lemma ContinuationHolds(w: World, e: Step, key: HandoffKey, h: Handoff, room: nat)
    requires e.Arrive? && IsContinuation(e.payload) && Holds(w, key, h, room)
    ensures Holds(ArriveContinuation(w, e).0, key, h, room)
  {
    var k := KeyOf(e.session, e.payload);
    var (s, step) := BeginContinuation(w.sessions, e.payload, k, e.cfg, w.now);
    if k.Some? {
      LookupKeepsOther(w.sessions, k.value, key, w.now, false);
    }
    assert s == w.sessions || (k.Some? && s == w.sessions.AfterLookup(k.value, w.now, false));
  }

  lemma ReplayHolds(w: World, e: Step, key: HandoffKey, h: Handoff, room: nat)
    requires e.Arrive? && !IsContinuation(e.payload) && !TakesHandoff(e, key) && Holds(w, key, h, room)
    ensures Holds(ArriveOther(w, e).0, key, h, room)
  {
    var k := KeyOf(e.session, e.payload);
    if IsReplay(e.payload) && k.Some? {
      LookupKeepsOther(w.sessions, k.value, key, w.now, true);
    }
  }

  /** A finished classification leaves the stores alone, or stores its own handoff. */
  lemma FinishSessions(w: World, e: Step)
    requires w.sessions.Valid() && e.Classified? && e.ticket in w.waiting
    ensures var v, key := FinishClassified(w, e).0, w.waiting[e.ticket].key;
            && v.now == w.now && v.waiting == w.waiting - {e.ticket}
            && var d := e.answer.decision;
               v.sessions == w.sessions
               || (StoresHandoff(w, e) && v.sessions == w.sessions.StoreHandoff(key.value, d.routed, d, w.now))
  {
  }

  lemma ClassifiedHolds(w: World, e: Step, key: HandoffKey, h: Handoff, room: nat)
    requires e.Classified? && e.ticket in w.waiting && Holds(w, key, h, room + 1)
    requires !(StoresHandoff(w, e) && w.waiting[e.ticket].key == Some(key))
    ensures Holds(FinishClassified(w, e).0, key, h, room)
  {
    var q := w.waiting[e.ticket];
    FinishSessions(w, e);
    if StoresHandoff(w, e) {
      StoreKeepsOther(w.sessions, q.key.value, key, e.answer.decision.routed, e.answer.decision, w.now);
    }
  }

  lemma StepHolds(w: World, e: Step, key: HandoffKey, h: Handoff, room: nat)
    requires w.sessions.Valid() && !TakesHandoff(e, key)
    requires !(StoresHandoff(w, e) && w.waiting[e.ticket].key == Some(key))
    requires Holds(w, key, h, if e.Classified? then room + 1 else room)
    requires e.Tick? ==> w.now + e.elapsed < h.expiresAt
    ensures Holds(Next(w, e).0, key, h, room)
  {
    match e
    case Arrive(p, _, _, _, _) =>
      if IsContinuation(p) {
        ContinuationHolds(w, e, key, h, room);
      } else {
        ReplayHolds(w, e, key, h, room);
      }
    case Classified(t, _, _) => if t in w.waiting { ClassifiedHolds(w, e, key, h, room); }
    case Respond(_, _, _, _) => assert Next(w, e).0.sessions.handoffs == w.sessions.handoffs;
    case Fail(_) =>
    case Abandon(_) =>
    case Tick(_) =>
  }

  /** No step of a run takes the handoff, and the store has room for those that are to come. */
  lemma FirstStepHolds(w: World, es: seq<Step>, key: HandoffKey, h: Handoff)
    requires es != [] && Holds(w, key, h, Classifications(es))
    requires Undisturbed(w, es, key) && w.now + Elapsed(es) < h.expiresAt
    ensures Holds(Next(w, es[0]).0, key, h, Classifications(es[1..]))
    ensures Undisturbed(Next(w, es[0]).0, es[1..], key)
  {
    StepHolds(w, es[0], key, h, Classifications(es[1..]));
  }

  lemma TimePasses(w: World, es: seq<Step>)
    requires es != [] && w.sessions.Valid()
    ensures Next(w, es[0]).0.now + Elapsed(es[1..]) == w.now + Elapsed(es)
  {
    StepApplies(w, es[0]);
  }

  lemma {:induction false} RunHolds(w: World, es: seq<Step>, key: HandoffKey, h: Handoff)
    requires Holds(w, key, h, Classifications(es))
    requires Undisturbed(w, es, key) && w.now + Elapsed(es) < h.expiresAt
    ensures Holds(Run(w, es), key, h, 0)
    decreases |es|
  {
    if es != [] {
      TimePasses(w, es);
      FirstStepHolds(w, es, key, h);
      RunHolds(Next(w, es[0]).0, es[1..], key, h);
    }
  }

  /** A replay with a held key is sent on the model of the handoff. */
  lemma ReplayUsesHandoff(w: World, replay: Step, key: HandoffKey, h: Handoff)
    requires Holds(w, key, h, 0) && TakesHandoff(replay, key)
    requires !FloorFires(replay.payload, replay.cfg, replay.measure)
    ensures var out := Next(w, replay).1;
            && out.Sent? && out.payload.model == Named(h.model) && out.calls == 0
            && out.decision.reason == ThreadReclassifiedReplay
  {
  }

  /** A parked continuation keeps the key it arrived with, and only sessions have keys. */
  lemma {:induction false} ParkedKeys(es: seq<Step>, t: nat)
    requires t in Run(START, es).waiting
    ensures var q := Run(START, es).waiting[t];
            q.key == KeyOf(q.session, q.payload) && (q.key.Some? ==> q.key.value.0.Some?)
  {
    RunLast(START, es);
    var init, e := es[..|es| - 1], es[|es| - 1];
    var w := Run(START, init);
    if t in w.waiting {
      ParkedKeys(init, t);
    }
    StepParks(w, e, t);
  }

  lemma StepParks(w: World, e: Step, t: nat)
    requires w.sessions.Valid() && t in Next(w, e).0.waiting
    ensures var q := Next(w, e).0.waiting[t];
            || (t in w.waiting && q == w.waiting[t])
            || (e.Arrive? && q.key == KeyOf(e.session, e.payload) && q.session == e.session && q.payload == e.payload)
  {
    match e
    case Arrive(p, _, _, _, _) => if IsContinuation(p) { ContinuationParks(w, e, t); }
    case Classified(_, _, _) => ClassifiedParks(w, e);
    case Respond(_, _, _, _) => assert Next(w, e).0.waiting == w.waiting;
    case Fail(_) =>
    case Abandon(_) =>
    case Tick(_) =>
  }

  lemma ContinuationParks(w: World, e: Step, t: nat)
    requires w.sessions.Valid() && e.Arrive? && IsContinuation(e.payload) && t in ArriveContinuation(w, e).0.waiting
    ensures var q := ArriveContinuation(w, e).0.waiting[t];
            || (t in w.waiting && q == w.waiting[t])
            || (q.key == KeyOf(e.session, e.payload) && q.session == e.session && q.payload == e.payload)
  {
  }

  lemma ClassifiedParks(w: World, e: Step)
    requires w.sessions.Valid() && e.Classified?
    ensures Next(w, e).0.waiting == w.waiting - {e.ticket}
  {
    if e.ticket in w.waiting {
      FinishSessions(w, e);
    }
  }

  lemma RejectionHolds(w: World, rejected: Step, key: HandoffKey, room: nat)
    requires w.sessions.Valid() && StoresHandoff(w, rejected)
    requires w.waiting[rejected.ticket].key == Some(key) && key.0.Some? && room < MAX_ENTRIES
    ensures var d := rejected.answer.decision;
            Holds(FinishClassified(w, rejected).0, key, Handoff(d.routed, d, w.now + HANDOFF_TTL), room)
  {
    var d := rejected.answer.decision;
    PutNewest(w.sessions.handoffs, MAX_ENTRIES, key, Handoff(d.routed, d, w.now + HANDOFF_TTL));
  }

  /** The replay of a parked continuation: the same session, and the same final message. */
  predicate Replays(replay: Step, parked: Waiting) {
    && replay.Arrive? && replay.session == parked.session
    && !IsContinuation(replay.payload) && IsReplay(replay.payload)
    && parked.payload.messages != [] && replay.payload.messages != []
    && parked.payload.messages[|parked.payload.messages| - 1] == replay.payload.messages[|replay.payload.messages| - 1]
  }

  /** `replay` goes out on `model` without a classifier call, and so will its Thread. */
  ghost predicate SentAndPinned(u: World, replay: Step, model: string)
    requires u.sessions.Valid()
  {
    var (v, out) := Next(u, replay);
    && out.Sent? && out.payload.model == Named(model) && out.calls == 0
    && EveryAnswerPins(v, u.next, model)
  }

  lemma HeldIsSentAndPinned(u: World, replay: Step, key: HandoffKey, h: Handoff)
    requires Holds(u, key, h, 0) && TakesHandoff(replay, key)
    requires !FloorFires(replay.payload, replay.cfg, replay.measure)
    ensures SentAndPinned(u, replay, h.model)
  {
    ReplayUsesHandoff(u, replay, key, h);
    AnswersPin(u, replay, key, h.model);
  }

  lemma ReplayTakesParked(parked: Waiting, replay: Step)
    requires parked.key.Some? && parked.key == KeyOf(parked.session, parked.payload)
    requires Replays(replay, parked)
    ensures TakesHandoff(replay, parked.key.value)
  {
    KeySurvivesReplay(parked.session, parked.payload, replay.payload);
  }

  /**
   In step terms: when a classified continuation is rejected, the handoff it stores survives
   every interleaving of other requests in which no replay takes it, no other rejection stores
   under its key, the clock stays within 60 s and fewer than the store's capacity of
   classifications end.  A replay that ends in the same message is then sent on exactly the
   stored model without a classifier call, and its Thread is pinned to it.
   */
  lemma ReclassificationConverges(before: seq<Step>, rejected: Step, es: seq<Step>, replay: Step)
    requires var w := Run(START, before);
             && StoresHandoff(w, rejected) && Replays(replay, w.waiting[rejected.ticket])
             && Undisturbed(Next(w, rejected).0, es, w.waiting[rejected.ticket].key.value)
    requires Elapsed(es) < 60.0 && Classifications(es) < MAX_ENTRIES
    requires !FloorFires(replay.payload, replay.cfg, replay.measure)
    ensures SentAndPinned(Run(Next(Run(START, before), rejected).0, es), replay, rejected.answer.decision.routed)
  {
    var w := Run(START, before);
    var key, d := w.waiting[rejected.ticket].key.value, rejected.answer.decision;
    var h := Handoff(d.routed, d, w.now + HANDOFF_TTL);
    ParkedKeys(before, rejected.ticket);
    ReplayTakesParked(w.waiting[rejected.ticket], replay);
    RejectionHolds(w, rejected, key, Classifications(es));
    RunHolds(Next(w, rejected).0, es, key, h);
    HeldIsSentAndPinned(Run(Next(w, rejected).0, es), replay, key, h);
  }

  /** A resend while the handoff is held is rejected again, asks no classifier and changes nothing at all. */
  lemma ResendIsRejectedAgain(w: World, resend: Step, key: HandoffKey, h: Handoff)
    requires Holds(w, key, h, 0)
    requires resend.Arrive? && IsContinuation(resend.payload) && KeyOf(resend.session, resend.payload) == Some(key)
    requires resend.payload.thread.previous.value in w.sessions.threads.items
    requires !w.sessions.threads.items[resend.payload.thread.previous.value].longContext
    ensures var (v, out) := Next(w, resend);
            out.Local400? && out.decision.routed == h.model && out.calls == 0 && v == w
  {
    TextIsNotToolResult(resend.payload);
  }

  /**
   When the size floor wins over the handoff, the new Thread is pinned as a long-context
   one, and every later continuation of it is sent on the floor's model: no second 400.
   */
  lemma FloorEndsTheCycle(w: World, replay: Step, id: string, text: Option<string>, limit: nat, next: Step)
    requires w.sessions.Valid()
    requires replay.Arrive? && !IsContinuation(replay.payload) && IsReplay(replay.payload)
    requires FloorFires(replay.payload, replay.cfg, replay.measure)
    requires next.Arrive? && IsContinuation(next.payload) && next.payload.thread.previous == Some(id)
    ensures var u := Next(Next(w, replay).0, Respond(w.next, id, text, limit)).0;
            var out := Next(u, next).1;
            out.Sent? && out.payload.model == Named(replay.cfg.longTarget) && HasLongContext(out.payload.betas)
  {
    var v := Next(w, replay).0;
    assert HasLongContext(v.inFlight[w.next].payload.betas);
  }
}
