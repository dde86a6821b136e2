/**
 The Thread map over whole runs of the protocol: which message ids are pinned, and to what,
 as a function of the responses recorded.
 */
module ThreadPins {
  import opened Common
  import opened OrderedDict
  import opened SessionState
  import opened ThreadRouting
  import opened ThreadProtocol
  import opened ThreadHandoffs

  /** A response that is recorded: the request it answers carries a Thread and names its model. */
  predicate IsRecorded(w: World, e: Step) {
    && e.Respond? && e.ticket in w.inFlight
    && w.inFlight[e.ticket].payload.thread.Thread? && w.inFlight[e.ticket].payload.model.Named?
  }

  /** What a step writes into the Thread map. */
  function Recording(w: World, e: Step): seq<Write<string, ThreadPin>> {
    if !IsRecorded(w, e) then []
    else
      var p := w.inFlight[e.ticket].payload;
      [Write(e.id, PinFor(p.model.name, HasLongContext(p.betas), e.text, e.limit))]
  }

  /** Everything a run writes into the Thread map, in order. */
  function Recordings(es: seq<Step>): seq<Write<string, ThreadPin>> {
    if es == [] then []
    else Recordings(es[..|es| - 1]) + Recording(Run(START, es[..|es| - 1]), es[|es| - 1])
  }

  lemma ContinuationRecordsNothing(w: World, e: Step)
    requires w.sessions.Valid() && e.Arrive? && IsContinuation(e.payload)
    ensures ArriveContinuation(w, e).0.sessions.threads == w.sessions.threads
    ensures ArriveContinuation(w, e).0.sessions.lastModels == w.sessions.lastModels
  {
    LookupKeepsThreads(w, e.payload, KeyOf(e.session, e.payload), e.cfg);
  }

  lemma ReplayRecordsNothing(w: World, e: Step)
    requires w.sessions.Valid() && e.Arrive? && !IsContinuation(e.payload)
    ensures ArriveOther(w, e).0.sessions.threads == w.sessions.threads
    ensures ArriveOther(w, e).0.sessions.lastModels == w.sessions.lastModels
  {
    ReplayKeepsThreads(w, e);
  }

  lemma ClassifiedRecordsNothing(w: World, e: Step)
    requires w.sessions.Valid() && e.Classified?
    ensures Next(w, e).0.sessions.threads == w.sessions.threads
    ensures Next(w, e).0.sessions.lastModels == w.sessions.lastModels
  {
  }

  lemma ResponseRecords(w: World, e: Step)
    requires w.sessions.Valid() && e.Respond?
    ensures var r := Recording(w, e);
            Next(w, e).0.sessions.threads
            == if r == [] then w.sessions.threads else w.sessions.threads.Put(MAX_ENTRIES, r[0].key, r[0].value)
  {
  }

  lemma StepRecords(w: World, e: Step)
    requires w.sessions.Valid()
    ensures var r := Recording(w, e);
            && |r| <= 1
            && Next(w, e).0.sessions.threads
               == if r == [] then w.sessions.threads else w.sessions.threads.Put(MAX_ENTRIES, r[0].key, r[0].value)
  {
    match e
    case Arrive(p, _, _, _, _) =>
      if IsContinuation(p) {
        ContinuationRecordsNothing(w, e);
      } else {
        ReplayRecordsNothing(w, e);
      }
    case Classified(_, _, _) => ClassifiedRecordsNothing(w, e);
    case Respond(_, _, _, _) => ResponseRecords(w, e);
    case Fail(_) =>
    case Abandon(_) =>
    case Tick(_) =>
  }

  lemma ReplayOneMore<V>(h: seq<Write<string, V>>, w: Write<string, V>)
    ensures Replay(MAX_ENTRIES, h + [w]) == Replay(MAX_ENTRIES, h).Put(MAX_ENTRIES, w.key, w.value)
  {
    assert (h + [w])[..|h|] == h;
  }

  lemma {:induction false} RunRecords(es: seq<Step>)
    ensures Run(START, es).sessions.threads == Replay(MAX_ENTRIES, Recordings(es))
  {
    if es != [] {
      var init, e := es[..|es| - 1], es[|es| - 1];
      var w, h := Run(START, init), Recordings(init);
      RunRecords(init);
      RunLast(START, es);
      StepRecords(w, e);
      if Recording(w, e) == [] {
        assert h + [] == h;
      } else {
        assert Recording(w, e) == [Recording(w, e)[0]];
        ReplayOneMore(h, Recording(w, e)[0]);
      }
    }
  }

  /**
   In every run a message id is pinned if and only if its response was recorded and fewer than
   the map's capacity of other ids have been recorded since; the pin is that of its last record.
   */
  lemma PinnedExactly(es: seq<Step>, threads: Dict<string, ThreadPin>, h: seq<Write<string, ThreadPin>>, id: string)
    requires threads == Run(START, es).sessions.threads && h == Recordings(es)
    ensures HeldWhileRecent(MAX_ENTRIES, h, threads, id)
  {
    RunRecords(es);
    HoldsMostRecent(MAX_ENTRIES, h, threads, id);
  }

  // ---- The last Thread model of a session ------------------------------------

  /** What a step writes into the last Thread models. */
  function ModelRecording(w: World, e: Step): seq<Write<string, string>> {
    if !IsRecorded(w, e) || w.inFlight[e.ticket].session == None then []
    else [Write(w.inFlight[e.ticket].session.value, w.inFlight[e.ticket].payload.model.name)]
  }

  function ModelRecordings(es: seq<Step>): seq<Write<string, string>> {
    if es == [] then []
    else ModelRecordings(es[..|es| - 1]) + ModelRecording(Run(START, es[..|es| - 1]), es[|es| - 1])
  }

  lemma ResponseRecordsModel(w: World, e: Step)
    requires w.sessions.Valid() && e.Respond?
    ensures var r := ModelRecording(w, e);
            Next(w, e).0.sessions.lastModels
            == if r == [] then w.sessions.lastModels else w.sessions.lastModels.Put(MAX_ENTRIES, r[0].key, r[0].value)
  {
  }

  lemma StepRecordsModel(w: World, e: Step)
    requires w.sessions.Valid()
    ensures var r := ModelRecording(w, e);
            && |r| <= 1
            && Next(w, e).0.sessions.lastModels
               == if r == [] then w.sessions.lastModels
                  else w.sessions.lastModels.Put(MAX_ENTRIES, r[0].key, r[0].value)
  {
    match e
    case Arrive(p, _, _, _, _) =>
      if IsContinuation(p) {
        ContinuationRecordsNothing(w, e);
      } else {
        ReplayRecordsNothing(w, e);
      }
    case Classified(_, _, _) => ClassifiedRecordsNothing(w, e);
    case Respond(_, _, _, _) => ResponseRecordsModel(w, e);
    case Fail(_) =>
    case Abandon(_) =>
    case Tick(_) =>
  }

  lemma {:induction false} RunRecordsModels(es: seq<Step>)
    ensures Run(START, es).sessions.lastModels == Replay(MAX_ENTRIES, ModelRecordings(es))
  {
    if es != [] {
      var init, e := es[..|es| - 1], es[|es| - 1];
      var w, h := Run(START, init), ModelRecordings(init);
      RunRecordsModels(init);
      RunLast(START, es);
      StepRecordsModel(w, e);
      if ModelRecording(w, e) == [] {
        assert h + [] == h;
      } else {
        assert ModelRecording(w, e) == [ModelRecording(w, e)[0]];
        ReplayOneMore(h, ModelRecording(w, e)[0]);
      }
    }
  }

  /**
   In every run the last Thread model of a session, which a replay of tool results goes to, is
   that of the last response recorded for it, while fewer than the capacity of other sessions
   have had one recorded since.
   */
  lemma LastModelExactly(es: seq<Step>, models: Dict<string, string>, h: seq<Write<string, string>>, session: string)
    requires models == Run(START, es).sessions.lastModels && h == ModelRecordings(es)
    ensures HeldWhileRecent(MAX_ENTRIES, h, models, session)
  {
    RunRecordsModels(es);
    HoldsMostRecent(MAX_ENTRIES, h, models, session);
  }
}
