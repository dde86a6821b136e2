/**
 The volatility tracker (`anthrouter/prompt_volatility.py`): which system blocks change from
 turn to turn, counted with bounded memory.
 */
module PromptVolatility {
  import opened Common
  import opened OrderedDict
  import opened Json

  const MAX_DISTINCT: nat := 256

  /** The hash of a block, shortened to its first characters. */
  type Hasher = Json -> string

  /** The values seen at one position, until there are too many to keep. */
  datatype Seen = Seeing(values: set<string>) | Saturated

  datatype Session = Session(requests: nat, blocks: map<nat, Seen>)

  const FRESH := Session(0, map[])

  // ---- One request -----------------------------------------------------------

  function AddValue(blocks: map<nat, Seen>, index: nat, digest: string): map<nat, Seen> {
    if index in blocks && blocks[index].Saturated? then blocks
    else
      var values := (if index in blocks then blocks[index].values else {}) + {digest};
      blocks[index := if |values| >= MAX_DISTINCT then Saturated else Seeing(values)]
  }

  function AddValues(blocks: map<nat, Seen>, digests: seq<string>): map<nat, Seen> {
    if digests == [] then blocks
    else AddValue(AddValues(blocks, digests[..|digests| - 1]), |digests| - 1, digests[|digests| - 1])
  }

  function AfterRequest(s: Session, digests: seq<string>): Session {
    Session(s.requests + 1, AddValues(s.blocks, digests))
  }

  function Distinct(s: Session, index: nat): nat {
    if index !in s.blocks then 0
    else match s.blocks[index] case Saturated => MAX_DISTINCT case Seeing(values) => |values|
  }

  /** `last_cache_control_index`: -1 without a breakpoint. */
  function LastBreakpoint(system: seq<Json>): (r: int)
    ensures -1 <= r < |system|
  {
    if system == [] then -1
    else if Truthy(Field(system[|system| - 1], "cache_control")) then |system| - 1
    else LastBreakpoint(system[..|system| - 1])
  }

  function Digests(hash: Hasher, system: seq<Json>): (r: seq<string>)
    ensures |r| == |system|
  {
    seq(|system|, i requires 0 <= i < |system| => hash(system[i]))
  }

  datatype Flag = Flag(index: nat, distinct: nat, requests: nat)

  /** More than the threshold's share of the requests brought a new value. */
  predicate OverThreshold(distinct: nat, requests: nat, threshold: real)
    requires requests > 0
  {
    distinct as real / requests as real > threshold
  }

  predicate IsFlagged(s: Session, threshold: real, index: nat)
    requires s.requests > 0
  {
    index in s.blocks && OverThreshold(Distinct(s, index), s.requests, threshold)
  }

  /** The flags of the first `n` positions. */
  function Flags(s: Session, threshold: real, n: nat): seq<Flag>
    requires s.requests > 0
  {
    if n == 0 then []
    else
      var flag := Flag(n - 1, Distinct(s, n - 1), s.requests);
      Flags(s, threshold, n - 1) + if IsFlagged(s, threshold, n - 1) then [flag] else []
  }

  // ---- The tracker -----------------------------------------------------------

  /** The sessions after an observation: the observed one is the most recent. */
  function Observed(sessions: Dict<string, Session>, cap: nat, id: string, digests: seq<string>): Dict<string, Session>
    requires sessions.Valid() && cap >= 1
  {
    sessions.Put(cap, id, AfterRequest(Known(sessions, id), digests))
  }

  function Known(sessions: Dict<string, Session>, id: string): Session {
    if id in sessions.items then sessions.items[id] else FRESH
  }

  class PromptVolatilityTracker {
    const minSamples: nat
    const threshold: real
    const maxSessions: nat
    var sessions: Dict<string, Session>

    ghost predicate Valid()
      reads this
    {
      maxSessions >= 1 && sessions.Valid() && |sessions.order| <= maxSessions
    }

    constructor (minSamples: nat, threshold: real, maxSessions: nat)
      requires maxSessions >= 1
      ensures Valid() && sessions == Empty()
      ensures this.minSamples == minSamples && this.threshold == threshold && this.maxSessions == maxSessions
    {
      this.minSamples, this.threshold, this.maxSessions := minSamples, threshold, maxSessions;
      sessions := Empty();
    }

    method Observe(hash: Hasher, id: string, system: seq<Json>) returns (flagged: seq<Flag>)
      requires Valid()
      modifies this`sessions
      ensures Valid()
      ensures if id == "" || system == [] then sessions == old(sessions) && flagged == []
              else
                var after := AfterRequest(Known(old(sessions), id), Digests(hash, system));
                && sessions == Observed(old(sessions), maxSessions, id, Digests(hash, system))
                && flagged == if after.requests < minSamples then []
                              else Flags(after, threshold, LastBreakpoint(system) + 1)
    {
      if id == "" || system == [] {
        return [];
      }
      var cutoff, digests := LastBreakpoint(system), Digests(hash, system);
      var state := Known(sessions, id);
      var blocks := RecordValues(state.blocks, digests);
      state := Session(state.requests + 1, blocks);
      sessions := Store(sessions, maxSessions, id, state);
      if state.requests < minSamples {
        return [];
      }
      flagged := FlagBlocks(state, |digests|, cutoff);
    }

    method FlagBlocks(state: Session, n: nat, cutoff: int) returns (flagged: seq<Flag>)
      requires state.requests > 0 && -1 <= cutoff < n
      ensures flagged == Flags(state, threshold, cutoff + 1)
    {
      flagged := [];
      for index := 0 to n
        invariant flagged == Flags(state, threshold, if index <= cutoff + 1 then index else cutoff + 1)
      {
        if index > cutoff || index !in state.blocks {
          continue;
        }
        var distinct := match state.blocks[index] case Saturated => MAX_DISTINCT case Seeing(values) => |values|;
        if distinct as real / state.requests as real > threshold {
          flagged := flagged + [Flag(index, distinct, state.requests)];
        }
      }
    }

    method Forget(id: string)
      requires Valid()
      modifies this`sessions
      ensures Valid() && sessions == old(sessions).Drop(id)
    {
      DropValid(sessions, id);
      sessions := sessions.Drop(id);
    }
  }

  /** Insert when new, evict the oldest beyond the limit, and move to the end. */
  method Store(sessions: Dict<string, Session>, cap: nat, id: string, state: Session) returns (r: Dict<string, Session>)
    requires sessions.Valid() && cap >= 1 && |sessions.order| <= cap
    ensures r == sessions.Put(cap, id, state) && r.Valid() && |r.order| <= cap
  {
    PutOrder(sessions, cap, id, state);
    r := sessions.Assign(id, state);
    if |r.order| > cap {
      InsertThenEvict(sessions, cap, id, state);
      r := Dict(r.order[1..], r.items - {r.order[0]});
    }
    r := r.MoveToEnd(id);
  }

  lemma InsertThenEvict(sessions: Dict<string, Session>, cap: nat, id: string, state: Session)
    requires sessions.Valid() && cap >= 1 && |sessions.order| == cap && id !in sessions.items
    ensures (sessions.order + [id])[1..] == sessions.order[1..] + [id]
    ensures sessions.items[id := state] - {sessions.order[0]} == (sessions.items - {sessions.order[0]})[id := state]
  {
    InElements(sessions.order, sessions.order[0]);
  }

  method RecordValues(start: map<nat, Seen>, digests: seq<string>) returns (blocks: map<nat, Seen>)
    ensures blocks == AddValues(start, digests)
  {
    blocks := start;
    for index := 0 to |digests|
      invariant blocks == AddValues(start, digests[..index])
    {
      assert digests[..index + 1][..index] == digests[..index];
      if index in blocks && blocks[index].Saturated? {
        continue;
      }
      var values := if index in blocks then blocks[index].values else {};
      values := values + {digests[index]};
      blocks := blocks[index := if |values| >= MAX_DISTINCT then Saturated else Seeing(values)];
    }
    assert digests[..|digests|] == digests;
  }

  // ---- Against the unbounded definition --------------------------------------

  /** Every value that requests ever had at a position. */
  function Values(history: seq<seq<string>>, index: nat): set<string> {
    if history == [] then {}
    else
      var last := history[|history| - 1];
      Values(history[..|history| - 1], index) + if index < |last| then {last[index]} else {}
  }

  function StateOf(history: seq<seq<string>>): Session {
    if history == [] then FRESH else AfterRequest(StateOf(history[..|history| - 1]), history[|history| - 1])
  }

  /** What is kept of a position once all its values are `values`. */
  function Bounded(values: set<string>): Option<Seen> {
    if values == {} then None
    else if |values| >= MAX_DISTINCT then Some(Saturated)
    else Some(Seeing(values))
  }

  function At(blocks: map<nat, Seen>, index: nat): Option<Seen> {
    if index in blocks then Some(blocks[index]) else None
  }

  lemma AddValueIsBounded(blocks: map<nat, Seen>, index: nat, digest: string, values: set<string>)
    requires At(blocks, index) == Bounded(values)
    ensures At(AddValue(blocks, index, digest), index) == Bounded(values + {digest})
  {
    SubsetCardinality(values, values + {digest});
    assert {} + {digest} == {digest};
  }

  lemma {:induction false} AddValuesIsBounded(blocks: map<nat, Seen>, digests: seq<string>, index: nat,
                                              values: set<string>)
    requires At(blocks, index) == Bounded(values)
    ensures At(AddValues(blocks, digests), index)
         == Bounded(values + if index < |digests| then {digests[index]} else {})
  {
    if digests == [] {
      assert values + {} == values;
    } else {
      var last := |digests| - 1;
      AddValuesIsBounded(blocks, digests[..last], index, values);
      if index == last {
        assert values + {} == values;
        AddValueIsBounded(AddValues(blocks, digests[..last]), last, digests[last], values);
      }
    }
  }

  lemma {:induction false} StateIsBounded(history: seq<seq<string>>, index: nat)
    ensures StateOf(history).requests == |history|
    ensures At(StateOf(history).blocks, index) == Bounded(Values(history, index))
  {
    if history != [] {
      var init := history[..|history| - 1];
      StateIsBounded(init, index);
      AddValuesIsBounded(StateOf(init).blocks, history[|history| - 1], index, Values(init, index));
    }
  }

  predicate HasBreakpoint(block: Json) {
    block.Obj? && "cache_control" in block.fields && Truthy(block.fields["cache_control"])
  }

  /** Blocks are watched up to the last one that carries a cache breakpoint. */
  lemma {:induction false} LastBreakpointMeans(system: seq<Json>, i: int)
    ensures LastBreakpoint(system) == i <==>
              && -1 <= i < |system| && (i >= 0 ==> HasBreakpoint(system[i]))
              && forall j :: i < j < |system| ==> !HasBreakpoint(system[j])
  {
    if system != [] {
      LastBreakpointMeans(system[..|system| - 1], LastBreakpoint(system[..|system| - 1]));
    }
  }

  /** The reported count is the true one up to the cap. */
  lemma DistinctIsCapped(history: seq<seq<string>>, index: nat)
    ensures var actual := |Values(history, index)|;
            Distinct(StateOf(history), index) == if actual < MAX_DISTINCT then actual else MAX_DISTINCT
  {
    StateIsBounded(history, index);
  }

  /** What a tracker without bounds would flag. */
  predicate TrulyFlagged(history: seq<seq<string>>, threshold: real, index: nat)
    requires history != []
  {
    Values(history, index) != {} && OverThreshold(|Values(history, index)|, |history|, threshold)
  }

  lemma RatioGrows(a: nat, b: nat, requests: nat, threshold: real)
    requires requests > 0 && a <= b
    ensures OverThreshold(a, requests, threshold) ==> OverThreshold(b, requests, threshold)
    ensures OverThreshold(a, requests, threshold) <==> a as real > threshold * requests as real
  {
    var n := requests as real;
    assert a as real / n * n == a as real;
    assert b as real / n >= a as real / n;
  }

  /**
   Everything flagged would be flagged without bounds; the two disagree exactly when there
   are more values than are counted and the threshold lies between the two ratios.
   */
  lemma FlagsRefineTheTruth(history: seq<seq<string>>, threshold: real, index: nat)
    requires history != []
    ensures StateOf(history).requests > 0
    ensures IsFlagged(StateOf(history), threshold, index) ==> TrulyFlagged(history, threshold, index)
    ensures IsFlagged(StateOf(history), threshold, index) != TrulyFlagged(history, threshold, index) <==>
              && |Values(history, index)| > MAX_DISTINCT
              && !OverThreshold(MAX_DISTINCT, |history|, threshold)
              && OverThreshold(|Values(history, index)|, |history|, threshold)
  {
    StateIsBounded(history, index);
    DistinctIsCapped(history, index);
    var distinct, actual := Distinct(StateOf(history), index), |Values(history, index)|;
    RatioGrows(distinct, actual, |history|, threshold);
  }

  /** At the default threshold they agree for 511 requests whatever the values are, and need not at 512. */
  lemma AgreeForFiveHundredAndEleven(history: seq<seq<string>>, index: nat)
    requires history != [] && |history| <= 511
    ensures StateOf(history).requests > 0
    ensures IsFlagged(StateOf(history), 0.5, index) <==> TrulyFlagged(history, 0.5, index)
    ensures !OverThreshold(MAX_DISTINCT, 512, 0.5) && OverThreshold(MAX_DISTINCT + 1, 512, 0.5)
  {
    FlagsRefineTheTruth(history, 0.5, index);
    RatioGrows(MAX_DISTINCT, MAX_DISTINCT, |history|, 0.5);
  }

  /** The flags are those of the positions before the breakpoint, in order. */
  lemma {:induction false} FlagsAreTheFlagged(s: Session, threshold: real, n: nat, index: nat)
    requires s.requests > 0
    ensures Flag(index, Distinct(s, index), s.requests) in Flags(s, threshold, n)
            <==> index < n && IsFlagged(s, threshold, index)
    ensures forall flag :: flag in Flags(s, threshold, n) ==> flag.index < n
  {
    if n > 0 {
      FlagsAreTheFlagged(s, threshold, n - 1, index);
    }
  }

  // ---- Runs of the tracker ---------------------------------------------------

  datatype Op = Observe(id: string, digests: seq<string>) | Forget(id: string)

  function Track(cap: nat, ops: seq<Op>): (d: Dict<string, Session>)
    requires cap >= 1
    ensures d.Valid()
  {
    if ops == [] then Empty()
    else
      var before := Track(cap, ops[..|ops| - 1]);
      match ops[|ops| - 1]
      case Observe(id, digests) =>
        PutOrder(before, cap, id, AfterRequest(Known(before, id), digests));
        Observed(before, cap, id, digests)
      case Forget(id) =>
        DropValid(before, id);
        before.Drop(id)
  }

  /** The requests of a session since the tracker last had nothing of it. */
  function Since(cap: nat, ops: seq<Op>, id: string): seq<seq<string>>
    requires cap >= 1
  {
    if ops == [] || id !in Track(cap, ops).items then []
    else
      var before := Since(cap, ops[..|ops| - 1], id);
      match ops[|ops| - 1]
      case Observe(other, digests) => if other == id then before + [digests] else before
      case Forget(_) => before
  }

  lemma PutKeepsOthers(d: Dict<string, Session>, cap: nat, k: string, v: Session, q: string)
    requires d.Valid() && cap >= 1 && q != k
    ensures q in d.Put(cap, k, v).items ==> q in d.items && d.Put(cap, k, v).items[q] == d.items[q]
    ensures k in d.Put(cap, k, v).items && d.Put(cap, k, v).items[k] == v
  {
    PutOrder(d, cap, k, v);
  }

  /** A tracked session's state is that of its whole history since it was last untracked. */
  lemma {:induction false} TracksWholeHistory(cap: nat, ops: seq<Op>, id: string)
    requires cap >= 1
    ensures Known(Track(cap, ops), id) == StateOf(Since(cap, ops, id))
  {
    if ops != [] && id in Track(cap, ops).items {
      var init, before := ops[..|ops| - 1], Track(cap, ops[..|ops| - 1]);
      TracksWholeHistory(cap, init, id);
      match ops[|ops| - 1]
      case Observe(other, digests) =>
        var state := AfterRequest(Known(before, other), digests);
        if other == id {
          PutOrder(before, cap, id, state);
          var history := Since(cap, init, id);
          assert (history + [digests])[..|history|] == history;
        } else {
          PutKeepsOthers(before, cap, other, state, id);
        }
      case Forget(other) =>
    }
  }

  predicate OnlyObserves(ops: seq<Op>) {
    ops == [] || (ops[|ops| - 1].Observe? && OnlyObserves(ops[..|ops| - 1]))
  }

  /** The observations as writes of the store. */
  function Writes(cap: nat, ops: seq<Op>): (h: seq<Write<string, Session>>)
    requires cap >= 1
    requires OnlyObserves(ops)
    ensures |h| == |ops|
  {
    if ops == [] then []
    else
      var init, last := ops[..|ops| - 1], ops[|ops| - 1];
      Writes(cap, init) + [Write(last.id, AfterRequest(Known(Track(cap, init), last.id), last.digests))]
  }

  lemma {:induction false} TrackIsReplay(cap: nat, ops: seq<Op>)
    requires cap >= 1 && OnlyObserves(ops)
    ensures Track(cap, ops) == Replay(cap, Writes(cap, ops))
  {
    if ops != [] {
      var init := ops[..|ops| - 1];
      TrackIsReplay(cap, init);
      assert Writes(cap, ops)[..|ops| - 1] == Writes(cap, init);
    }
  }

  lemma {:induction false} WritesAreObservations(cap: nat, ops: seq<Op>, i: nat)
    requires cap >= 1 && OnlyObserves(ops) && i < |ops|
    ensures ops[i].Observe? && Writes(cap, ops)[i].key == ops[i].id
  {
    if i < |ops| - 1 {
      WritesAreObservations(cap, ops[..|ops| - 1], i);
    }
  }

  /** The index of the last request of a session, or -1. */
  function LastObserved(ops: seq<Op>, id: string): (i: int)
    ensures -1 <= i < |ops|
  {
    if ops == [] then -1
    else if ops[|ops| - 1].id == id then |ops| - 1
    else LastObserved(ops[..|ops| - 1], id)
  }

  /** The sessions with a request from `from` on. */
  function SessionsSince(ops: seq<Op>, from: nat): set<string> {
    set i | from <= i < |ops| :: ops[i].id
  }

  lemma {:induction false} LastWriteIsLastObserved(cap: nat, ops: seq<Op>, id: string)
    requires cap >= 1 && OnlyObserves(ops)
    ensures LastWrite(Writes(cap, ops), id) == LastObserved(ops, id)
  {
    if ops != [] {
      LastWriteIsLastObserved(cap, ops[..|ops| - 1], id);
      assert Writes(cap, ops)[..|ops| - 1] == Writes(cap, ops[..|ops| - 1]);
    }
  }

  lemma KeysAreSessions(cap: nat, ops: seq<Op>, from: nat)
    requires cap >= 1 && OnlyObserves(ops) && from <= |ops|
    ensures KeysSince(Writes(cap, ops), from) == SessionsSince(ops, from)
  {
    var h := Writes(cap, ops);
    forall i | from <= i < |ops| ensures h[i].key == ops[i].id {
      WritesAreObservations(cap, ops, i);
    }
    SameKeys(h, ops, from);
  }

  lemma SameKeys(h: seq<Write<string, Session>>, ops: seq<Op>, from: nat)
    requires |h| == |ops| && from <= |ops| && forall i :: from <= i < |ops| ==> h[i].key == ops[i].id
    ensures KeysSince(h, from) == SessionsSince(ops, from)
  {
    forall k | k in SessionsSince(ops, from) ensures k in KeysSince(h, from) {
      var i :| from <= i < |ops| && ops[i].id == k;
      assert h[i].key == k;
    }
  }

  lemma RecentOnly(cap: nat, h: seq<Write<string, Session>>, d: Dict<string, Session>, id: string,
                   last: int, since: set<string>)
    requires HeldWhileRecent(cap, h, d, id) && last == LastWrite(h, id) && since == KeysSince(h, last + 1)
    ensures id in d.items <==> last >= 0 && |since| < cap
  {
  }

  lemma ObservedAsWritten(cap: nat, ops: seq<Op>, id: string, last: int, since: set<string>)
    requires cap >= 1 && OnlyObserves(ops) && last == LastObserved(ops, id) && since == SessionsSince(ops, last + 1)
    ensures last == LastWrite(Writes(cap, ops), id) && since == KeysSince(Writes(cap, ops), last + 1)
  {
    LastWriteIsLastObserved(cap, ops, id);
    KeysAreSessions(cap, ops, last + 1);
  }

  /**
   Without `forget`, a session is tracked if and only if it has had a request and fewer than
   `cap` other sessions have had one since.
   */
  lemma KeepsTheMostRecentSessions(cap: nat, ops: seq<Op>, tracked: Dict<string, Session>, id: string, last: int)
    requires cap >= 1 && OnlyObserves(ops) && tracked == Track(cap, ops) && last == LastObserved(ops, id)
    ensures id in tracked.items <==> last >= 0 && |SessionsSince(ops, last + 1)| < cap
  {
    TrackIsReplay(cap, ops);
    HoldsMostRecent(cap, Writes(cap, ops), tracked, id);
    ObservedAsWritten(cap, ops, id, last, SessionsSince(ops, last + 1));
    RecentOnly(cap, Writes(cap, ops), tracked, id, last, SessionsSince(ops, last + 1));
  }
}
