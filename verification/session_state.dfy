/**
 Per-session routing state of `anthrouter/session_state.py`: the Thread map, the
 last Thread model per session and the single-use handoff store, all bounded.
 */
module SessionState {
  import opened Common
  import opened OrderedDict

  const MAX_ENTRIES := 10000
  const HANDOFF_TTL := 60.0

  datatype ThreadPin = ThreadPin(model: string, longContext: bool, responseText: Option<string>)

  /** The part of a routing decision that routing itself reads back. */
  datatype Decision = Decision(
    requested: string,
    routed: string,
    classification: Option<string>,
    applied: bool,
    reason: Reason)

  /** `reason_code`: those that Thread routing gives, and every other by its name. */
  datatype Reason =
    | ThreadPinned | ThreadPinUnknown | ThreadReclassified | ThreadReclassifiedReplay
    | ThreadReplayPinned | SizeForcedLongContext | OtherReason(name: string)

  datatype Handoff = Handoff(model: string, decision: Decision, expiresAt: real)

  /** Session key and SHA-256 of the final user text; the session key may be absent. */
  type HandoffKey = (Option<string>, string)

  /** The stores as a value. */
  datatype Sessions = Sessions(
    threads: Dict<string, ThreadPin>,
    lastModels: Dict<string, string>,
    handoffs: Dict<HandoffKey, Handoff>)
  {
    ghost predicate Valid() {
      && threads.Valid() && |threads.order| <= MAX_ENTRIES
      && lastModels.Valid() && |lastModels.order| <= MAX_ENTRIES
      && handoffs.Valid() && |handoffs.order| <= MAX_ENTRIES
    }

    function RecordThread(id: string, pin: ThreadPin, session: Option<string>): (r: Sessions)
      requires Valid()
      ensures r.Valid()
      ensures r.threads.Get(id) == Some(pin) && r.handoffs == handoffs
    {
      PutOrder(threads, MAX_ENTRIES, id, pin);
      var withPin := this.(threads := threads.Put(MAX_ENTRIES, id, pin));
      match session
      case None => withPin
      case Some(s) =>
        PutOrder(lastModels, MAX_ENTRIES, s, pin.model);
        withPin.(lastModels := lastModels.Put(MAX_ENTRIES, s, pin.model))
    }

    function StoreHandoff(key: HandoffKey, model: string, decision: Decision, now: real): (r: Sessions)
      requires Valid()
      ensures r.Valid()
    {
      if key.0 == None then this
      else
        var entry := Handoff(model, decision, now + HANDOFF_TTL);
        PutOrder(handoffs, MAX_ENTRIES, key, entry);
        this.(handoffs := handoffs.Put(MAX_ENTRIES, key, entry))
    }

    /** The handoff a reader at `now` may use: present and not expired. */
    function Live(key: HandoffKey, now: real): (r: Option<Handoff>) {
      if key.0 != None && key in handoffs.items && now < handoffs.items[key].expiresAt
      then Some(handoffs.items[key]) else None
    }

    /** The stores after one lookup: an expired entry is dropped, a taken one as well. */
    function AfterLookup(key: HandoffKey, now: real, take: bool): (r: Sessions)
      requires Valid()
      ensures r.Valid()
    {
      DropValid(handoffs, key);
      if key.0 == None || key !in handoffs.items then this
      else if take || Live(key, now) == None then this.(handoffs := handoffs.Drop(key))
      else this
    }
  }

  const TRUNCATION_MARKER := "\n...[truncated]...\n"

  /** Python's `text[-n:]`: a zero or negative `n` counts from the front instead. */
  function LastChars(text: string, n: int): (r: string)
    ensures 0 < n <= |text| ==> |r| == n && r == text[|text| - n..]
  {
    if n > |text| then text
    else if n > 0 then text[|text| - n..]
    else if -n <= |text| then text[-n..]
    else []
  }

  /** Head and tail of an over-long response, 30% and 70% of the limit. */
  function TruncatePriorResponse(text: string, limit: nat): (r: string) {
    if |text| <= limit then text
    else
      var head := limit * 3 / 10;
      text[..head] + TRUNCATION_MARKER + LastChars(text, limit - head - |TRUNCATION_MARKER|)
  }

  /** The smallest limit that the configuration accepts. */
  const MIN_RESPONSE_LIMIT: nat := 50

  /**
   The truncated text keeps to a limit exactly when the limit leaves room for the marker and
   at least one tail character, as every limit that can be configured does; it is then the head
   of the text, the marker, and as much of its tail as fits.
   */
  lemma TruncationBound(text: string, limit: nat)
    requires |text| > limit
    ensures TruncatePriorResponse(text, |text|) == text
    ensures limit >= 28 <==> |TruncatePriorResponse(text, limit)| <= limit
    ensures limit >= 28 ==>
      && |TruncatePriorResponse(text, limit)| == limit
      && TruncatePriorResponse(text, limit)
         == text[..limit * 3 / 10] + "\n...[truncated]...\n" + text[|text| - (limit - limit * 3 / 10 - 19)..]
    ensures limit >= MIN_RESPONSE_LIMIT ==> |TruncatePriorResponse(text, limit)| == limit
  {
    var head := limit * 3 / 10;
    var tail := limit - head - |TRUNCATION_MARKER|;
    assert |TRUNCATION_MARKER| == 19;
    assert tail >= 1 <==> limit >= 28;
  }

  function PinFor(model: string, longContext: bool, responseText: Option<string>, limit: nat): ThreadPin {
    ThreadPin(model, longContext,
              if responseText.Some? && responseText.value != ""
              then Some(TruncatePriorResponse(responseText.value, limit)) else None)
  }

  /** A pin holds the model and the flag it was recorded with, and the text if there is any, truncated if need be. */
  lemma PinMeans(model: string, longContext: bool, text: string, limit: nat)
    ensures PinFor(model, longContext, None, limit) == ThreadPin(model, longContext, None)
    ensures PinFor(model, longContext, Some(""), limit) == ThreadPin(model, longContext, None)
    ensures text != "" && |text| <= limit ==>
              PinFor(model, longContext, Some(text), limit) == ThreadPin(model, longContext, Some(text))
    ensures text != "" && |text| > limit ==>
              PinFor(model, longContext, Some(text), limit)
              == ThreadPin(model, longContext, Some(TruncatePriorResponse(text, limit)))
  {
  }

  class SessionState {
    var threads: Dict<string, ThreadPin>
    var lastModels: Dict<string, string>
    var handoffs: Dict<HandoffKey, Handoff>

    ghost function View(): Sessions
      reads this
    {
      Sessions(threads, lastModels, handoffs)
    }

    ghost predicate Valid()
      reads this
    {
      View().Valid()
    }

    constructor ()
      ensures Valid() && View() == Sessions(Empty(), Empty(), Empty())
    {
      threads, lastModels, handoffs := Empty(), Empty(), Empty();
    }

    method RecordThread(id: string, model: string, longContext: bool, session: Option<string>,
                        responseText: Option<string>, limit: nat)
      requires Valid()
      modifies this
      ensures Valid()
      ensures View() == old(View()).RecordThread(id, PinFor(model, longContext, responseText, limit), session)
    {
      var text := None;
      if responseText.Some? && responseText.value != "" {
        text := Some(TruncatePriorResponse(responseText.value, limit));
      }
      threads := PutEntry(threads, id, ThreadPin(model, longContext, text));
      if session.Some? {
        lastModels := PutEntry(lastModels, session.value, model);
      }
    }

    method StoreHandoff(key: HandoffKey, model: string, decision: Decision, now: real)
      requires Valid()
      modifies this`handoffs
      ensures Valid()
      ensures View() == old(View()).StoreHandoff(key, model, decision, now)
    {
      if key.0 == None {
        return;
      }
      handoffs := PutEntry(handoffs, key, Handoff(model, decision, now + HANDOFF_TTL));
    }

    method PeekHandoff(key: HandoffKey, now: real) returns (h: Option<Handoff>)
      requires Valid()
      modifies this`handoffs
      ensures Valid()
      ensures h == old(View()).Live(key, now)
      ensures View() == old(View()).AfterLookup(key, now, false)
    {
      h := LiveHandoff(key, now, false);
    }

    method TakeHandoff(key: HandoffKey, now: real) returns (h: Option<Handoff>)
      requires Valid()
      modifies this`handoffs
      ensures Valid()
      ensures h == old(View()).Live(key, now)
      ensures View() == old(View()).AfterLookup(key, now, true)
    {
      h := LiveHandoff(key, now, true);
    }

    method LiveHandoff(key: HandoffKey, now: real, take: bool) returns (h: Option<Handoff>)
      requires Valid()
      modifies this`handoffs
      ensures Valid()
      ensures h == old(View()).Live(key, now)
      ensures View() == old(View()).AfterLookup(key, now, take)
    {
      if key.0 == None {
        return None;
      }
      var entry := handoffs.Get(key);
      if entry == None {
        return None;
      }
      DropValid(handoffs, key);
      if now >= entry.value.expiresAt {
        handoffs := handoffs.Drop(key);
        return None;
      }
      if take {
        handoffs := handoffs.Drop(key);
      }
      return entry;
    }
  }

  /** `SessionState._put`: evict the oldest entry of a full store, assign, move to the end. */
  method PutEntry<K(==), V>(store: Dict<K, V>, k: K, v: V) returns (r: Dict<K, V>)
    requires store.Valid()
    ensures r == store.Put(MAX_ENTRIES, k, v) && r.Valid()
    ensures |store.order| <= MAX_ENTRIES ==> |r.order| <= MAX_ENTRIES
  {
    PutOrder(store, MAX_ENTRIES, k, v);
    r := store;
    if k !in r.items && |r.order| >= MAX_ENTRIES {
      r := r.PopOldest();
    }
    r := r.Assign(k, v);
    r := r.MoveToEnd(k);
  }

  // ---- The handoff store refines the history of its events -------------------

  /** Everything that can happen to the handoff store, each at a clock reading. */
  datatype Event =
    | Store(key: HandoffKey, model: string, decision: Decision, at: real)
    | Lookup(key: HandoffKey, take: bool, at: real)

  const FRESH := Sessions(Empty(), Empty(), Empty())

  function Apply(s: Sessions, e: Event): (r: Sessions)
    requires s.Valid()
    ensures r.Valid()
  {
    match e
    case Store(k, m, d, t) => s.StoreHandoff(k, m, d, t)
    case Lookup(k, take, t) => s.AfterLookup(k, t, take)
  }

  function StoresAfter(h: seq<Event>): (r: Sessions)
    ensures r.Valid()
  {
    if h == [] then FRESH else Apply(StoresAfter(h[..|h| - 1]), h[|h| - 1])
  }

  predicate ClockIsMonotone(h: seq<Event>, now: real) {
    h == [] || (h[|h| - 1].at <= now && ClockIsMonotone(h[..|h| - 1], h[|h| - 1].at))
  }

  /** The latest store of `key`, or -1. */
  function LastStore(h: seq<Event>, key: HandoffKey): (i: int)
    ensures -1 <= i < |h|
    ensures i >= 0 ==> h[i].Store? && h[i].key == key
  {
    if h == [] then -1
    else if h[|h| - 1].Store? && h[|h| - 1].key == key then |h| - 1
    else LastStore(h[..|h| - 1], key)
  }

  /** Whether a replay looked `key` up, in order to take it, at index `from` or later. */
  predicate TakenSince(h: seq<Event>, from: nat, key: HandoffKey) {
    from < |h| &&
    var e := h[|h| - 1];
    (e.Lookup? && e.take && e.key == key) || TakenSince(h[..|h| - 1], from, key)
  }

  /** The last store of `key` in `h` is 60 s old or older at `at`. */
  predicate RunOut(h: seq<Event>, key: HandoffKey, at: real) {
    LastStore(h, key) >= 0 && at >= h[LastStore(h, key)].at + HANDOFF_TTL
  }

  /** What `e`, after `h`, does to the keys that are behind another one. */
  function BehindNext(h: seq<Event>, behind: set<HandoffKey>, e: Event): set<HandoffKey> {
    match e
    case Store(k, _, _, _) => if k.0 == None then behind else behind + {k}
    case Lookup(k, take, at) => if take || RunOut(h, k, at) then behind - {k} else behind
  }

  /** The keys stored at index `from` or later that no lookup has removed since. */
  function Behind(h: seq<Event>, from: nat): set<HandoffKey> {
    if from >= |h| then {}
    else BehindNext(h[..|h| - 1], Behind(h[..|h| - 1], from), h[|h| - 1])
  }

  /** Storing `e` leaves no room for a key that has `behind` behind it. */
  predicate Pushes(behind: set<HandoffKey>, e: Event) {
    e.Store? && e.key.0 != None && |behind + {e.key}| >= MAX_ENTRIES
  }

  /** Whether what was stored before `from` was ever left without room: by stores and lookups alone. */
  predicate PushedOut(h: seq<Event>, from: nat) {
    from < |h| && (Pushes(Behind(h[..|h| - 1], from), h[|h| - 1]) || PushedOut(h[..|h| - 1], from))
  }

  /** The keys stored at index `from` or later. */
  function StoredSince(h: seq<Event>, from: nat): set<HandoffKey> {
    if from >= |h| then {}
    else StoredSince(h[..|h| - 1], from) + if h[|h| - 1].Store? then {h[|h| - 1].key} else {}
  }

  /** The last store of `key` is under 60 s old at `now`, was not taken, and has not been pushed out. */
  predicate StillHeld(h: seq<Event>, key: HandoffKey, now: real) {
    var i := LastStore(h, key);
    && i >= 0 && key.0 != None
    && now < h[i].at + HANDOFF_TTL
    && !TakenSince(h, i + 1, key)
    && !PushedOut(h, i + 1)
  }

  /** What became of the latest store of a key. */
  datatype Past =
    | Never
    | Stored(entry: Handoff, at: real, taken: bool, pushed: bool, behind: set<HandoffKey>)

  function PastOf(h: seq<Event>, key: HandoffKey): Past {
    var i := LastStore(h, key);
    if i < 0 then Never
    else Stored(Handoff(h[i].model, h[i].decision, h[i].at + HANDOFF_TTL), h[i].at,
                TakenSince(h, i + 1, key), PushedOut(h, i + 1), Behind(h, i + 1))
  }

  /** The store holds the entry if it is live and nothing removed it; an entry it holds is the last one stored. */
  ghost predicate Matches(p: Past, d: Dict<HandoffKey, Handoff>, key: HandoffKey, now: real) {
    && (p.Stored? && key.0 != None && now < p.at + HANDOFF_TTL && !p.taken && !p.pushed ==> key in d.items)
    && (key in d.items ==>
          && p.Stored? && key.0 != None && d.items[key] == p.entry
          && !p.taken && !p.pushed && After(d.order, key) == p.behind)
  }

  /** What `h` says about `key` agrees with the store; `run` gives the state after a history. */
  ghost predicate Explains(run: seq<Event> -> Sessions, h: seq<Event>, key: HandoffKey, now: real) {
    Matches(PastOf(h, key), run(h).handoffs, key, now)
  }

  /** `run` is `StoresAfter`, as far as `h`. */
  ghost predicate Follows(run: seq<Event> -> Sessions, h: seq<Event>) {
    && run(h).Valid()
    && if h == [] then run(h) == FRESH
       else Follows(run, h[..|h| - 1]) && run(h) == Apply(run(h[..|h| - 1]), h[|h| - 1])
  }

  lemma {:induction false} StoresFollow(h: seq<Event>)
    ensures Follows(StoresAfter, h)
  {
    if h != [] {
      StoresFollow(h[..|h| - 1]);
    }
  }

  lemma LastStoreAfter(g: seq<Event>, e: Event, key: HandoffKey)
    ensures LastStore(g + [e], key) == if e.Store? && e.key == key then |g| else LastStore(g, key)
  {
    assert (g + [e])[..|g|] == g;
  }

  lemma TakenAfter(g: seq<Event>, e: Event, from: nat, key: HandoffKey)
    requires from <= |g|
    ensures TakenSince(g + [e], from, key) == ((e.Lookup? && e.take && e.key == key) || TakenSince(g, from, key))
  {
    assert (g + [e])[..|g|] == g;
  }

  lemma BehindAfter(g: seq<Event>, e: Event, from: nat)
    requires from <= |g|
    ensures Behind(g + [e], from) == BehindNext(g, Behind(g, from), e)
    ensures PushedOut(g + [e], from) == (Pushes(Behind(g, from), e) || PushedOut(g, from))
  {
    assert (g + [e])[..|g|] == g;
  }

  lemma FollowsStep(run: seq<Event> -> Sessions, g: seq<Event>, e: Event)
    requires Follows(run, g + [e])
    ensures run(g).Valid() && run(g + [e]) == Apply(run(g), e)
  {
    assert (g + [e])[..|g|] == g;
  }

  /** What an event that does not store `key` adds to its history. */
  lemma PastAfter(g: seq<Event>, e: Event, key: HandoffKey)
    requires !(e.Store? && e.key == key)
    ensures var p := PastOf(g, key);
            PastOf(g + [e], key) ==
            if p == Never then Never
            else p.(taken := p.taken || (e.Lookup? && e.take && e.key == key),
                    pushed := p.pushed || Pushes(p.behind, e),
                    behind := BehindNext(g, p.behind, e))
  {
    LastStoreAfter(g, e, key);
    var i := LastStore(g, key);
    if i >= 0 {
      assert (g + [e])[i] == g[i];
      TakenAfter(g, e, i + 1, key);
      BehindAfter(g, e, i + 1);
    }
  }

  lemma OwnStoreHistory(g: seq<Event>, e: Event)
    requires e.Store?
    ensures PastOf(g + [e], e.key) == Stored(Handoff(e.model, e.decision, e.at + HANDOFF_TTL), e.at, false, false, {})
  {
    LastStoreAfter(g, e, e.key);
  }

  lemma MatchesOwnStore(s: Sessions, key: HandoffKey, model: string, d: Decision, at: real, now: real)
    requires s.Valid() && (key.0 == None ==> key !in s.handoffs.items)
    ensures Matches(Stored(Handoff(model, d, at + HANDOFF_TTL), at, false, false, {}),
                    s.StoreHandoff(key, model, d, at).handoffs, key, now)
  {
    if key.0 != None {
      var entry := Handoff(model, d, at + HANDOFF_TTL);
      PutOrder(s.handoffs, MAX_ENTRIES, key, entry);
      PutNewest(s.handoffs, MAX_ENTRIES, key, entry);
    }
  }

  /** A key is pushed out by another one exactly when that one and those behind it fill the store. */
  lemma FullBehind(cap: nat, d: Dict<HandoffKey, Handoff>, other: HandoffKey, key: HandoffKey)
    requires cap >= 1 && d.Valid() && |d.order| <= cap && key in d.items && other != key
    ensures d.WouldEvict(cap, other) && d.order[0] == key <==> |After(d.order, key) + {other}| >= cap
  {
    var order, behind := d.order, After(d.order, key);
    InElements(order, key);
    AfterIsSmall(order, key);
    DistinctCardinality(order);
    if d.WouldEvict(cap, other) && order[0] == key {
      AllBehindFirst(order, other);
    } else if |behind + {other}| >= cap {
      AddedToFull(behind, other, cap);
      FirstHasAllBehind(order, key);
    }
  }

  lemma AllBehindFirst(order: seq<HandoffKey>, other: HandoffKey)
    requires order != [] && NoDuplicates(order) && other !in Elements(order)
    ensures |After(order, order[0]) + {other}| == |order|
  {
    DistinctCardinality(order[1..]);
    assert other !in Elements(order[1..]);
  }

  lemma AddedToFull(behind: set<HandoffKey>, other: HandoffKey, cap: nat)
    requires |behind| < cap <= |behind + {other}|
    ensures other !in behind && |behind| == cap - 1
  {
    assert other in behind ==> behind + {other} == behind;
  }

  lemma StoreKeepsUnlessFull(s: Sessions, e: Event, key: HandoffKey)
    requires s.Valid() && e.Store? && e.key != key && key in s.handoffs.items
    ensures key in s.StoreHandoff(e.key, e.model, e.decision, e.at).handoffs.items
            <==> !Pushes(After(s.handoffs.order, key), e)
  {
    if e.key.0 != None {
      var entry := Handoff(e.model, e.decision, e.at + HANDOFF_TTL);
      FullBehind(MAX_ENTRIES, s.handoffs, e.key, key);
      if Pushes(After(s.handoffs.order, key), e) {
        PutEvicts(s.handoffs, MAX_ENTRIES, e.key, entry);
      } else {
        PutAfter(s.handoffs, MAX_ENTRIES, e.key, entry, key);
      }
    }
  }

  lemma MatchesOtherStore(p: Past, s: Sessions, e: Event, key: HandoffKey, before: real, now: real)
    requires s.Valid() && Matches(p, s.handoffs, key, before) && before <= now && e.Store? && e.key != key
    ensures Matches(if p.Stored?
                    then p.(pushed := p.pushed || Pushes(p.behind, e),
                            behind := if e.key.0 == None then p.behind else p.behind + {e.key})
                    else p,
                    s.StoreHandoff(e.key, e.model, e.decision, e.at).handoffs, key, now)
  {
    if e.key.0 != None {
      var entry := Handoff(e.model, e.decision, e.at + HANDOFF_TTL);
      PutOrder(s.handoffs, MAX_ENTRIES, e.key, entry);
      if key in s.handoffs.items {
        FullBehind(MAX_ENTRIES, s.handoffs, e.key, key);
        if Pushes(p.behind, e) {
          PutEvicts(s.handoffs, MAX_ENTRIES, e.key, entry);
        } else {
          PutAfter(s.handoffs, MAX_ENTRIES, e.key, entry, key);
        }
      }
    }
  }

  lemma ExplainsStore(run: seq<Event> -> Sessions, g: seq<Event>, e: Event, key: HandoffKey, before: real, now: real)
    requires Follows(run, g + [e]) && Explains(run, g, key, before) && e.Store? && before <= e.at <= now
    ensures Explains(run, g + [e], key, now)
  {
    FollowsStep(run, g, e);
    if e.key == key {
      OwnStoreHistory(g, e);
      MatchesOwnStore(run(g), key, e.model, e.decision, e.at, now);
    } else {
      PastAfter(g, e, key);
      MatchesOtherStore(PastOf(g, key), run(g), e, key, before, now);
    }
  }

  lemma MatchesOwnLookup(p: Past, s: Sessions, g: seq<Event>, e: Event, key: HandoffKey, before: real, now: real)
    requires s.Valid() && Matches(p, s.handoffs, key, before) && e.Lookup? && e.key == key && before <= e.at <= now
    requires p.Stored? ==> p.entry.expiresAt == p.at + HANDOFF_TTL && key !in p.behind
    ensures Matches(if p.Stored? then p.(taken := p.taken || e.take, behind := BehindNext(g, p.behind, e)) else p,
                    s.AfterLookup(key, e.at, e.take).handoffs, key, now)
  {
    assert p.Stored? ==> BehindNext(g, p.behind, e) == p.behind;
  }

  /** The lookup drops `other` exactly when the history says so. */
  lemma MatchesOtherLookup(p: Past, s: Sessions, g: seq<Event>, e: Event, key: HandoffKey, before: real, now: real)
    requires s.Valid() && Matches(p, s.handoffs, key, before) && before <= e.at <= now
    requires e.Lookup? && e.key != key && Matches(PastOf(g, e.key), s.handoffs, e.key, before)
    ensures Matches(if p.Stored? then p.(behind := BehindNext(g, p.behind, e)) else p,
                    s.AfterLookup(e.key, e.at, e.take).handoffs, key, now)
  {
    if key in s.handoffs.items {
      if e.key in s.handoffs.items {
        DropAfter(s.handoffs, e.key, key);
      } else {
        InElements(s.handoffs.order, key);
        AfterInElements(s.handoffs.order, key);
        assert p.behind - {e.key} == p.behind;
      }
    }
  }

  lemma {:induction false} NeverBehindItself(h: seq<Event>, from: nat, key: HandoffKey)
    requires from > LastStore(h, key)
    ensures key !in Behind(h, from)
  {
    if from < |h| {
      NeverBehindItself(h[..|h| - 1], from, key);
    }
  }

  lemma ExplainsLookup(run: seq<Event> -> Sessions, g: seq<Event>, e: Event, key: HandoffKey, before: real, now: real)
    requires Follows(run, g + [e]) && Explains(run, g, key, before) && e.Lookup? && before <= e.at <= now
    requires Explains(run, g, e.key, before)
    ensures Explains(run, g + [e], key, now)
  {
    FollowsStep(run, g, e);
    PastAfter(g, e, key);
    if e.key == key {
      if LastStore(g, key) >= 0 {
        NeverBehindItself(g, LastStore(g, key) + 1, key);
      }
      MatchesOwnLookup(PastOf(g, key), run(g), g, e, key, before, now);
    } else {
      MatchesOtherLookup(PastOf(g, key), run(g), g, e, key, before, now);
    }
  }

  lemma {:induction false} HistoryExplainsStore(run: seq<Event> -> Sessions, h: seq<Event>, key: HandoffKey, now: real)
    requires Follows(run, h) && ClockIsMonotone(h, now)
    ensures Explains(run, h, key, now)
  {
    if h != [] {
      var g, e := h[..|h| - 1], h[|h| - 1];
      assert h == g + [e];
      HistoryExplainsStore(run, g, key, e.at);
      if e.Store? {
        ExplainsStore(run, g, e, key, e.at, now);
      } else {
        HistoryExplainsStore(run, g, e.key, e.at);
        ExplainsLookup(run, g, e, key, e.at, now);
      }
    }
  }

  lemma LookupFinds(run: seq<Event> -> Sessions, h: seq<Event>, key: HandoffKey, now: real)
    requires Follows(run, h) && ClockIsMonotone(h, now)
    ensures run(h).Live(key, now).Some? <==> StillHeld(h, key, now)
    ensures StillHeld(h, key, now) ==>
              var e := h[LastStore(h, key)];
              run(h).Live(key, now) == Some(Handoff(e.model, e.decision, e.at + HANDOFF_TTL))
  {
    HistoryExplainsStore(run, h, key, now);
    LiveIsMatched(PastOf(h, key), run(h), key, now);
  }

  /**
   A lookup returns a handoff exactly when its last store is under 60 s old, no replay has
   looked it up since, and the keys stored since have never left it without room; it returns
   what was stored.  All of this is read off the history of stores and lookups.  So each store
   is taken at most once, and a peek never extends its life.
   */
  lemma LookupIsExact(h: seq<Event>, key: HandoffKey, now: real)
    requires ClockIsMonotone(h, now)
    ensures StoresAfter(h).Live(key, now).Some? <==> StillHeld(h, key, now)
    ensures StillHeld(h, key, now) ==>
              var e := h[LastStore(h, key)];
              StoresAfter(h).Live(key, now) == Some(Handoff(e.model, e.decision, e.at + HANDOFF_TTL))
  {
    StoresFollow(h);
    LookupFinds(StoresAfter, h, key, now);
  }

  lemma LiveIsMatched(p: Past, s: Sessions, key: HandoffKey, now: real)
    requires Matches(p, s.handoffs, key, now) && (p.Stored? ==> p.entry.expiresAt == p.at + HANDOFF_TTL)
    ensures s.Live(key, now).Some? <==>
              p.Stored? && key.0 != None && now < p.at + HANDOFF_TTL && !p.taken && !p.pushed
    ensures s.Live(key, now).Some? ==> s.Live(key, now).value == p.entry
  {
  }

  lemma HeldMatches(h: seq<Event>, d: Dict<HandoffKey, Handoff>, key: HandoffKey, now: real)
    requires Matches(PastOf(h, key), d, key, now) && key in d.items
    ensures LastStore(h, key) >= 0 && After(d.order, key) == Behind(h, LastStore(h, key) + 1)
  {
  }

  /** What is behind a held key in the store is what the history says. */
  lemma HeldBehind(h: seq<Event>, s: Sessions, key: HandoffKey, now: real)
    requires ClockIsMonotone(h, now) && s == StoresAfter(h) && key in s.handoffs.items
    ensures LastStore(h, key) >= 0 && After(s.handoffs.order, key) == Behind(h, LastStore(h, key) + 1)
  {
    StoresFollow(h);
    HistoryExplainsStore(StoresAfter, h, key, now);
    HeldMatches(h, s.handoffs, key, now);
  }

  /**
   A store pushes a held key out if and only if it and the keys stored since that one, less
   those that lookups have removed, fill the store.
   */
  lemma EvictionIsExact(h: seq<Event>, s: Sessions, e: Event, key: HandoffKey)
    requires ClockIsMonotone(h, e.at) && s == StoresAfter(h) && key in s.handoffs.items
    requires e.Store? && e.key != key
    ensures LastStore(h, key) >= 0
    ensures key !in Apply(s, e).handoffs.items <==> Pushes(Behind(h, LastStore(h, key) + 1), e)
  {
    HeldBehind(h, s, key, e.at);
    StoreKeepsUnlessFull(s, e, key);
  }

  lemma {:induction false} BehindWereStored(h: seq<Event>, from: nat)
    ensures Behind(h, from) <= StoredSince(h, from)
  {
    if from < |h| {
      BehindWereStored(h[..|h| - 1], from);
    }
  }

  /** Pushing a key out takes at least `MAX_ENTRIES` other keys stored since. */
  lemma {:induction false} EvictionTakesStores(h: seq<Event>, from: nat)
    ensures PushedOut(h, from) ==> |StoredSince(h, from)| >= MAX_ENTRIES
  {
    if from < |h| {
      var g, e := h[..|h| - 1], h[|h| - 1];
      EvictionTakesStores(g, from);
      SubsetCardinality(StoredSince(g, from), StoredSince(h, from));
      if Pushes(Behind(g, from), e) {
        BehindWereStored(g, from);
        SubsetCardinality(Behind(g, from) + {e.key}, StoredSince(h, from));
      }
    }
  }
}
