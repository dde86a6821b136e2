/**
 The caveman rewriter and its cache (`anthrouter/caveman_rewrite.py`).

 A system prompt is rewritten once by model-proposed edits and the result is remembered.
 Keys stand for SHA-256 digests of prompt and mode, taken as injective, with a string
 prompt and a block list kept distinct.  Calls are sequential.
 */
module CavemanRewriter {
  import opened Common
  import opened OrderedDict
  import opened CavemanEdits
  import opened CavemanConfinement
  import opened CavemanStructure

  /** A block of a `system` list; `rest` stands for every key of a text block but its text. */
  datatype SystemBlock = TextBlock(text: string, rest: string) | OtherBlock(raw: string)
  datatype System = Plain(text: string) | Blocks(blocks: seq<SystemBlock>) | NoText

  type Key = (System, string)

  datatype Reply = Busy | TimedOut | Failed | Answer(ops: Option<seq<Op>>)
  datatype Outcome =
    | CacheHit | Rewritten | Unchanged | NoGuidance
    | Rejected | RejectedCached | RefusedBusy | TimeoutError | CallError
  datatype Result = Result(system: System, outcome: Outcome, edits: nat)

  const REJECT_TTL := 600.0
  const MAX_REJECTS := 4096

  /** Which texts have communication sections, and what a set of edits makes of a text. */
  datatype Editor = Editor(guided: string -> bool, apply: (string, seq<Op>) -> Option<(string, nat)>)

  function EditorFor(v: Vocabulary): Editor {
    Editor(t => CommSections(t, v) != [], (t, ops) => Edited(t, v, ops))
  }

  /** An accepted set of edits reports how many ops it had. */
  ghost predicate Lawful(e: Editor) {
    forall t, ops :: e.apply(t, ops).Some? ==> e.apply(t, ops).value.1 == |ops|
  }

  lemma EditorIsLawful(v: Vocabulary)
    ensures Lawful(EditorFor(v))
  {
  }

  // ---- Text slots ------------------------------------------------------------

  function SlotCount(s: System): nat {
    match s
    case Plain(_) => 1
    case Blocks(bs) => |bs|
    case NoText => 0
  }

  function TextAt(s: System, i: nat): Option<string> {
    match s
    case Plain(t) => if i == 0 then Some(t) else None
    case Blocks(bs) => if i < |bs| && bs[i].TextBlock? then Some(bs[i].text) else None
    case NoText => None
  }

  function WithText(s: System, i: nat, t: string): (r: System)
    requires TextAt(s, i).Some?
    ensures SlotCount(r) == SlotCount(s) && TextAt(r, i) == Some(t)
    ensures forall j: nat :: j != i ==> TextAt(r, j) == TextAt(s, j)
  {
    match s
    case Plain(_) => Plain(t)
    case Blocks(bs) => Blocks(bs[i := bs[i].(text := t)])
  }

  /** A slot the editor may touch: it has a communication section. */
  predicate Guided(s: System, e: Editor, i: nat) {
    TextAt(s, i).Some? && e.guided(TextAt(s, i).value)
  }

  predicate Holds(s: System, i: nat, find: string) {
    TextAt(s, i).Some? && FindFrom(TextAt(s, i).value, find, 0) >= 0
  }

  function Holders(s: System, find: string, n: nat): seq<nat> {
    if n == 0 then [] else Holders(s, find, n - 1) + if Holds(s, n - 1, find) then [n - 1] else []
  }

  /** The slot an op belongs to: the only one that holds its text, if that one is guided. */
  function Owner(s: System, e: Editor, op: Op): Option<nat> {
    if op.Malformed? || op.find == "" then None
    else
      var holders := Holders(s, op.find, SlotCount(s));
      if |holders| == 1 && Guided(s, e, holders[0]) then Some(holders[0]) else None
  }

  predicate AllOwned(s: System, e: Editor, ops: seq<Op>) {
    forall i :: 0 <= i < |ops| ==> Owner(s, e, ops[i]).Some?
  }

  function OpsFor(s: System, e: Editor, ops: seq<Op>, slot: nat): seq<Op> {
    if ops == [] then []
    else
      OpsFor(s, e, ops[..|ops| - 1], slot)
      + if Owner(s, e, ops[|ops| - 1]) == Some(slot) then [ops[|ops| - 1]] else []
  }

  /** The text slots of `s` and `q` are in the same places. */
  predicate SameSlots(s: System, q: System) {
    match s
    case Plain(_) => q.Plain?
    case NoText => q.NoText?
    case Blocks(bs) =>
      q.Blocks? && |q.blocks| == |bs| && forall i :: 0 <= i < |bs| ==> bs[i].TextBlock? == q.blocks[i].TextBlock?
  }

  /** Slot `i` edited by its own ops. */
  function EditSlot(s: System, e: Editor, ops: seq<Op>, i: nat, done: (System, nat)): (r: Option<(System, nat)>)
    requires SameSlots(s, done.0)
    ensures r.Some? ==> SameSlots(s, r.value.0)
  {
    if ops == [] || TextAt(s, i) == None then Some(done)
    else
      match e.apply(TextAt(s, i).value, ops)
      case None => None
      case Some((t, k)) => Some((WithText(done.0, i, t), done.1 + k))
  }

  /** The first `n` slots edited, with the number of edits; `None` when one is rejected. */
  function EditSlots(s: System, e: Editor, ops: seq<Op>, n: nat): (r: Option<(System, nat)>)
    ensures r.Some? ==> SameSlots(s, r.value.0)
  {
    if n == 0 then Some((s, 0))
    else
      match EditSlots(s, e, ops, n - 1)
      case None => None
      case Some(done) => EditSlot(s, e, OpsFor(s, e, ops, n - 1), n - 1, done)
  }

  // ---- What a rewrite may change ---------------------------------------------

  /** `t'` comes from `t` by one accepted set of edits. */
  ghost predicate EditOf(e: Editor, t: string, t': string) {
    t' == t || exists ops :: e.apply(t, ops).Some? && e.apply(t, ops).value.0 == t'
  }

  /** Blocks, their other keys and non-text blocks are kept; each text is an edit of its original. */
  ghost predicate Confined(e: Editor, p: System, q: System) {
    match p
    case Plain(t) => q.Plain? && EditOf(e, t, q.text)
    case NoText => q == p
    case Blocks(bs) =>
      q.Blocks? && |q.blocks| == |bs|
      && forall i :: 0 <= i < |bs| ==> ConfinedBlock(e, bs[i], q.blocks[i])
  }

  ghost predicate ConfinedBlock(e: Editor, b: SystemBlock, c: SystemBlock) {
    if b.TextBlock? then c.TextBlock? && c.rest == b.rest && EditOf(e, b.text, c.text) else c == b
  }

  lemma ConfinedToItself(e: Editor, s: System)
    ensures Confined(e, s, s)
  {
  }

  lemma ConfinedStep(e: Editor, s: System, done: System, i: nat, ops: seq<Op>)
    requires Confined(e, s, done) && TextAt(s, i).Some?
    requires e.apply(TextAt(s, i).value, ops).Some?
    ensures TextAt(done, i).Some?
    ensures Confined(e, s, WithText(done, i, e.apply(TextAt(s, i).value, ops).value.0))
  {
    if s.Blocks? {
      assert ConfinedBlock(e, s.blocks[i], done.blocks[i]);
    }
  }

  lemma {:induction false} EditsAreConfined(s: System, e: Editor, ops: seq<Op>, n: nat)
    requires EditSlots(s, e, ops, n).Some?
    ensures Confined(e, s, EditSlots(s, e, ops, n).value.0)
    ensures n <= SlotCount(s) ==> forall j: nat :: j >= n ==> TextAt(EditSlots(s, e, ops, n).value.0, j) == TextAt(s, j)
  {
    if n == 0 {
      ConfinedToItself(e, s);
    } else {
      EditsAreConfined(s, e, ops, n - 1);
      var mine := OpsFor(s, e, ops, n - 1);
      if mine != [] && TextAt(s, n - 1).Some? {
        ConfinedStep(e, s, EditSlots(s, e, ops, n - 1).value.0, n - 1, mine);
      }
    }
  }

  /** Every protected interval of `t` is in `t'` byte for byte, moved by its shift. */
  ghost predicate BytesPlaced(v: Vocabulary, t: string, t': string, spans: seq<Span>) {
    forall a: nat, b: nat :: Protected(t, v, a, b) ==> Slice(t', a + Shift(spans, a), b - a) == t[a..b]
  }

  /** No protected interval moves past another. */
  ghost predicate OrderKept(v: Vocabulary, t: string, spans: seq<Span>) {
    forall a: nat, b: nat, c: nat, d: nat :: Protected(t, v, a, b) && Protected(t, v, c, d) && b <= c ==>
      b + Shift(spans, a) <= c + Shift(spans, c)
  }

  ghost predicate KeepsProtected(v: Vocabulary, t: string, t': string) {
    exists spans :: BytesPlaced(v, t, t', spans) && OrderKept(v, t, spans)
  }

  lemma EditPlacesBytes(v: Vocabulary, t: string, ops: seq<Op>)
    requires Edited(t, v, ops).Some?
    ensures BytesPlaced(v, t, Edited(t, v, ops).value.0, SpansOf(t, v, ops))
  {
    forall a: nat, b: nat | Protected(t, v, a, b)
      ensures Slice(Edited(t, v, ops).value.0, a + Shift(SpansOf(t, v, ops), a), b - a) == t[a..b]
    {
      ProtectedBytesSurvive(t, v, ops, a, b);
    }
  }

  lemma EditKeepsOrder(v: Vocabulary, t: string, ops: seq<Op>)
    requires Edited(t, v, ops).Some?
    ensures OrderKept(v, t, SpansOf(t, v, ops))
  {
    forall a: nat, b: nat, c: nat, d: nat | Protected(t, v, a, b) && Protected(t, v, c, d) && b <= c
      ensures b + Shift(SpansOf(t, v, ops), a) <= c + Shift(SpansOf(t, v, ops), c)
    {
      ProtectedOrderSurvives(t, v, ops, a, b, c, d);
    }
  }

  lemma NoEditPlaces(v: Vocabulary, t: string)
    ensures BytesPlaced(v, t, t, []) && OrderKept(v, t, [])
  {
    forall p: nat ensures Shift([], p) == 0 {
    }
  }

  /** A confined text keeps every protected interval, byte for byte and in order. */
  lemma ConfinedKeepsProtected(v: Vocabulary, t: string, t': string)
    requires EditOf(EditorFor(v), t, t')
    ensures KeepsProtected(v, t, t')
  {
    if t' == t {
      NoEditPlaces(v, t);
    } else {
      var ops :| EditorFor(v).apply(t, ops).Some? && EditorFor(v).apply(t, ops).value.0 == t';
      EditPlacesBytes(v, t, ops);
      EditKeepsOrder(v, t, ops);
    }
  }

  // ---- The cache as a value --------------------------------------------------

  datatype State = State(cache: map<Key, System>, rejects: Dict<Key, real>)

  function ComputeOnce(cache: map<Key, System>, e: Editor, s: System, mode: string, reply: Reply)
    : (map<Key, System>, Result)
  {
    if !exists i :: 0 <= i < SlotCount(s) && Guided(s, e, i) then (cache[(s, mode) := s], Result(s, NoGuidance, 0))
    else
      match reply
      case Busy => (cache, Result(s, RefusedBusy, 0))
      case TimedOut => (cache, Result(s, TimeoutError, 0))
      case Failed => (cache, Result(s, CallError, 0))
      case Answer(None) => (cache, Result(s, Rejected, 0))
      case Answer(Some(ops)) =>
        if !AllOwned(s, e, ops) then (cache, Result(s, Rejected, 0))
        else
          match EditSlots(s, e, ops, SlotCount(s))
          case None => (cache, Result(s, Rejected, 0))
          case Some((s', n)) =>
            var stored := cache[(s, mode) := s'];
            (if n > 0 then stored[(s', mode) := s'] else stored,
             Result(s', if n > 0 then Rewritten else Unchanged, n))
  }

  predicate RecentlyRejected(st: State, key: Key, now: real) {
    key in st.rejects.items && now < st.rejects.items[key]
  }

  function ForgetReject(d: Dict<Key, real>, key: Key): (r: Dict<Key, real>)
    requires d.Valid()
    ensures r.Valid()
  {
    DropValid(d, key);
    if key in d.items then d.Drop(key) else d
  }

  /** Remember a rejection; the oldest one goes when there are too many. */
  function AddReject(d: Dict<Key, real>, key: Key, expiry: real): (r: Dict<Key, real>)
    requires d.Valid()
    ensures r.Valid()
  {
    AssignValid(d, key, expiry);
    var e := d.Assign(key, expiry);
    if |e.order| > MAX_REJECTS then e.PopOldest() else e
  }

  lemma AssignValid<K, V>(d: Dict<K, V>, k: K, v: V)
    requires d.Valid()
    ensures d.Assign(k, v).Valid() && d.Assign(k, v).order != []
  {
    InElements(d.order, k);
    if k !in d.items {
      AppendKeepsDistinct(d.order, k);
      ElementsAppend(d.order, k);
    }
  }

  lemma {:induction false} ElementsAppend<K>(s: seq<K>, k: K)
    ensures Elements(s + [k]) == Elements(s) + {k}
  {
    if s != [] {
      ElementsAppend(s[1..], k);
      assert (s + [k])[1..] == s[1..] + [k];
    }
  }

  /** One call of `rewrite`: `checkAt` and `rejectAt` are its clock readings. */
  function RewriteOnce(st: State, e: Editor, s: System, mode: string, reply: Reply,
                   checkAt: real, rejectAt: real): (r: (State, Result))
    requires st.rejects.Valid()
    ensures r.0.rejects.Valid()
  {
    var key := (s, mode);
    if key in st.cache then (st, Result(st.cache[key], CacheHit, 0))
    else if RecentlyRejected(st, key, checkAt) then (st, Result(s, RejectedCached, 0))
    else
      var rejects := ForgetReject(st.rejects, key);
      var (cache, result) := ComputeOnce(st.cache, e, s, mode, reply);
      var after := if result.outcome == Rejected then AddReject(rejects, key, rejectAt + REJECT_TTL) else rejects;
      (State(cache, after), result)
  }

  lemma {:induction false} HoldersInRange(s: System, find: string, n: nat)
    ensures forall k :: k in Holders(s, find, n) ==> k < n
  {
    if n > 0 {
      HoldersInRange(s, find, n - 1);
    }
  }

  lemma OwnerInRange(s: System, e: Editor, op: Op)
    ensures Owner(s, e, op).Some? ==> Owner(s, e, op).value < SlotCount(s)
  {
    if Owner(s, e, op).Some? {
      HoldersInRange(s, op.find, SlotCount(s));
    }
  }

  /** Each slot has its own list of ops, in order. */
  predicate Filed(s: System, e: Editor, ops: seq<Op>, lists: seq<seq<Op>>) {
    |lists| == SlotCount(s) && forall j :: 0 <= j < SlotCount(s) ==> lists[j] == OpsFor(s, e, ops, j)
  }

  lemma OneMoreOp(s: System, e: Editor, ops: seq<Op>, i: nat, lists: seq<seq<Op>>, owner: nat)
    requires i < |ops| && Owner(s, e, ops[i]) == Some(owner) && Filed(s, e, ops[..i], lists)
    ensures owner < |lists| && Filed(s, e, ops[..i + 1], lists[owner := lists[owner] + [ops[i]]])
  {
    OwnerInRange(s, e, ops[i]);
    assert ops[..i + 1][..i] == ops[..i];
  }

  lemma {:induction false} RejectionIsFinal(s: System, e: Editor, ops: seq<Op>, n: nat)
    requires n <= SlotCount(s) && EditSlots(s, e, ops, n) == None
    ensures EditSlots(s, e, ops, SlotCount(s)) == None
    decreases SlotCount(s) - n
  {
    if n < SlotCount(s) {
      RejectionIsFinal(s, e, ops, n + 1);
    }
  }

  lemma EditSlotsStep(s: System, e: Editor, ops: seq<Op>, i: nat)
    requires EditSlots(s, e, ops, i).Some?
    ensures EditSlots(s, e, ops, i + 1) == EditSlot(s, e, OpsFor(s, e, ops, i), i, EditSlots(s, e, ops, i).value)
  {
  }

  lemma AppliedSlot(s: System, e: Editor, ops: seq<Op>, i: nat, done: (System, nat), applied: Option<(string, nat)>)
    requires SameSlots(s, done.0) && ops != [] && TextAt(s, i).Some? && applied == e.apply(TextAt(s, i).value, ops)
    ensures applied == None ==> EditSlot(s, e, ops, i, done) == None
    ensures applied.Some? ==>
              EditSlot(s, e, ops, i, done) == Some((WithText(done.0, i, applied.value.0), done.1 + applied.value.1))
  {
  }

  // ---- The rewriter object ---------------------------------------------------

  class Rewriter {
    const vocabulary: Vocabulary
    var cache: map<Key, System>
    var rejects: Dict<Key, real>

    constructor (vocabulary: Vocabulary)
      ensures this.vocabulary == vocabulary && cache == map[] && rejects == Empty() && Valid()
    {
      this.vocabulary, cache, rejects := vocabulary, map[], Empty();
    }

    function Edits(): Editor { EditorFor(vocabulary) }

    ghost predicate Valid()
      reads this
    {
      rejects.Valid()
    }

    method Rewrite(s: System, mode: string, reply: Reply, checkAt: real, rejectAt: real) returns (r: Result)
      requires Valid()
      modifies this
      ensures Valid()
      ensures (State(cache, rejects), r)
           == RewriteOnce(old(State(cache, rejects)), Edits(), s, mode, reply, checkAt, rejectAt)
    {
      var key := (s, mode);
      if key in cache {
        return Result(cache[key], CacheHit, 0);
      }
      if key in rejects.items {
        if checkAt < rejects.items[key] {
          return Result(s, RejectedCached, 0);
        }
        DropValid(rejects, key);
        rejects := rejects.Drop(key);
      }
      r := Compute(s, mode, reply);
      if r.outcome == Rejected {
        AssignValid(rejects, key, rejectAt + REJECT_TTL);
        rejects := rejects.Assign(key, rejectAt + REJECT_TTL);
        if |rejects.order| > MAX_REJECTS {
          rejects := rejects.PopOldest();
        }
      }
    }

    method Compute(s: System, mode: string, reply: Reply) returns (r: Result)
      modifies this`cache
      ensures (cache, r) == ComputeOnce(old(cache), Edits(), s, mode, reply)
    {
      var guided := AnyGuided(s);
      if !guided {
        cache := cache[(s, mode) := s];
        return Result(s, NoGuidance, 0);
      }
      match reply
      case Busy => return Result(s, RefusedBusy, 0);
      case TimedOut => return Result(s, TimeoutError, 0);
      case Failed => return Result(s, CallError, 0);
      case Answer(None) => return Result(s, Rejected, 0);
      case Answer(Some(ops)) =>
        var perBlock := Distribute(s, ops);
        if perBlock == None {
          return Result(s, Rejected, 0);
        }
        var edited := EditAll(s, ops, perBlock.value);
        if edited == None {
          return Result(s, Rejected, 0);
        }
        var (s', n) := edited.value;
        cache := cache[(s, mode) := s'];
        if n > 0 {
          cache := cache[(s', mode) := s'];
        }
        return Result(s', if n > 0 then Rewritten else Unchanged, n);
    }

    method AnyGuided(s: System) returns (found: bool)
      ensures found <==> exists i :: 0 <= i < SlotCount(s) && Guided(s, Edits(), i)
    {
      for i := 0 to SlotCount(s)
        invariant forall j :: 0 <= j < i ==> !Guided(s, Edits(), j)
      {
        if Guided(s, Edits(), i) {
          return true;
        }
      }
      return false;
    }

    /** The ops of each slot, or `None` when one has no owner. */
    method Distribute(s: System, ops: seq<Op>) returns (perBlock: Option<seq<seq<Op>>>)
      ensures perBlock.Some? <==> AllOwned(s, Edits(), ops)
      ensures perBlock.Some? ==> Filed(s, Edits(), ops, perBlock.value)
    {
      var lists: seq<seq<Op>> := seq(SlotCount(s), _ => []);
      for i := 0 to |ops|
        invariant forall k :: 0 <= k < i ==> Owner(s, Edits(), ops[k]).Some?
        invariant Filed(s, Edits(), ops[..i], lists)
      {
        var owner := Owner(s, Edits(), ops[i]);
        if owner == None {
          return None;
        }
        OneMoreOp(s, Edits(), ops, i, lists, owner.value);
        lists := lists[owner.value := lists[owner.value] + [ops[i]]];
      }
      assert ops[..|ops|] == ops;
      return Some(lists);
    }

    method EditAll(s: System, ops: seq<Op>, perBlock: seq<seq<Op>>) returns (r: Option<(System, nat)>)
      requires Filed(s, Edits(), ops, perBlock)
      ensures r == EditSlots(s, Edits(), ops, SlotCount(s))
    {
      var newSystem, total := s, 0;
      for i := 0 to SlotCount(s)
        invariant EditSlots(s, Edits(), ops, i) == Some((newSystem, total))
      {
        EditSlotsStep(s, Edits(), ops, i);
        var applied := EditOne(s, perBlock[i], i, newSystem, total);
        if applied == None {
          RejectionIsFinal(s, Edits(), ops, i + 1);
          return None;
        }
        newSystem, total := applied.value.0, applied.value.1;
      }
      return Some((newSystem, total));
    }

    method EditOne(s: System, ops: seq<Op>, i: nat, done: System, total: nat) returns (r: Option<(System, nat)>)
      requires SameSlots(s, done)
      ensures r == EditSlot(s, Edits(), ops, i, (done, total))
    {
      if ops == [] || TextAt(s, i) == None {
        return Some((done, total));
      }
      var applied := Apply(TextAt(s, i).value, ops);
      AppliedSlot(s, Edits(), ops, i, (done, total), applied);
      if applied == None {
        return None;
      }
      return Some((WithText(done, i, applied.value.0), total + applied.value.1));
    }

    method Apply(text: string, ops: seq<Op>) returns (r: Option<(string, nat)>)
      ensures r == Edits().apply(text, ops)
    {
      r := ApplyEdits(text, vocabulary, Some(ops));
    }
  }

  // ---- The cache over every sequence of calls --------------------------------

  /** Every entry is confined to its prompt, and its value is cached as a fixed point. */
  ghost predicate CacheInvariant(e: Editor, cache: map<Key, System>) {
    forall key :: key in cache ==>
      && Confined(e, key.0, cache[key])
      && (cache[key], key.1) in cache
      && cache[(cache[key], key.1)] == cache[key]
  }

  predicate IsFailure(o: Outcome) {
    o in {Rejected, RejectedCached, RefusedBusy, TimeoutError, CallError}
  }

  lemma ComputeKeepsInvariant(cache: map<Key, System>, e: Editor, s: System, mode: string, reply: Reply)
    requires Lawful(e) && CacheInvariant(e, cache) && (s, mode) !in cache
    ensures CacheInvariant(e, ComputeOnce(cache, e, s, mode, reply).0)
    ensures Confined(e, s, ComputeOnce(cache, e, s, mode, reply).1.system)
  {
    ConfinedToItself(e, s);
    StoreKeepsInvariant(cache, e, s, s, mode);
    if reply.Answer? && reply.ops.Some? {
      match EditSlots(s, e, reply.ops.value, SlotCount(s))
      case None =>
      case Some((s', n)) =>
        EditsAreConfined(s, e, reply.ops.value, SlotCount(s));
        StoreKeepsInvariant(cache, e, s, s', mode);
        if n == 0 {
          NoEditsNoChange(s, e, reply.ops.value, SlotCount(s));
        }
    }
  }

  lemma StoreKeepsInvariant(cache: map<Key, System>, e: Editor, s: System, s': System, mode: string)
    requires CacheInvariant(e, cache) && (s, mode) !in cache && Confined(e, s, s')
    ensures CacheInvariant(e, cache[(s, mode) := s'][(s', mode) := s'])
    ensures s == s' ==> CacheInvariant(e, cache[(s, mode) := s])
  {
    ConfinedToItself(e, s');
    assert s == s' ==> cache[(s, mode) := s'][(s', mode) := s'] == cache[(s, mode) := s];
  }

  lemma {:induction false} NoEditsNoChange(s: System, e: Editor, ops: seq<Op>, n: nat)
    requires Lawful(e) && EditSlots(s, e, ops, n).Some? && EditSlots(s, e, ops, n).value.1 == 0
    ensures EditSlots(s, e, ops, n).value.0 == s
  {
    if n > 0 {
      NoEditsNoChange(s, e, ops, n - 1);
    }
  }

  /**
   Every call keeps the invariant; every failure dispatches the prompt itself and leaves the
   cache alone; what is dispatched is always confined to the prompt.
   */
  lemma RewriteKeepsInvariant(st: State, e: Editor, s: System, mode: string, reply: Reply, checkAt: real,
                              rejectAt: real)
    requires Lawful(e) && st.rejects.Valid() && CacheInvariant(e, st.cache)
    ensures var (st', r) := RewriteOnce(st, e, s, mode, reply, checkAt, rejectAt);
            && CacheInvariant(e, st'.cache)
            && Confined(e, s, r.system)
            && (IsFailure(r.outcome) ==> r.system == s && st'.cache == st.cache)
            && (!IsFailure(r.outcome) ==> (s, mode) in st'.cache && st'.cache[(s, mode)] == r.system)
  {
    ConfinedToItself(e, s);
    if (s, mode) !in st.cache && !RecentlyRejected(st, (s, mode), checkAt) {
      ComputeKeepsInvariant(st.cache, e, s, mode, reply);
    }
  }

  /** One call of a run. */
  datatype Call = Call(system: System, mode: string, reply: Reply, checkAt: real, rejectAt: real)

  function Run(st: State, e: Editor, calls: seq<Call>): (r: State)
    requires st.rejects.Valid()
    ensures r.rejects.Valid()
  {
    if calls == [] then st
    else
      var c := calls[|calls| - 1];
      RewriteOnce(Run(st, e, calls[..|calls| - 1]), e, c.system, c.mode, c.reply, c.checkAt, c.rejectAt).0
  }

  const COLD := State(map[], Empty())

  lemma {:induction false} RunKeepsInvariant(e: Editor, calls: seq<Call>)
    requires Lawful(e)
    ensures CacheInvariant(e, Run(COLD, e, calls).cache)
  {
    if calls != [] {
      var c := calls[|calls| - 1];
      RunKeepsInvariant(e, calls[..|calls| - 1]);
      RewriteKeepsInvariant(Run(COLD, e, calls[..|calls| - 1]), e, c.system, c.mode, c.reply, c.checkAt, c.rejectAt);
    }
  }

  /**
   A rewritten prompt is a fixed point: after any run, sending what a successful call
   dispatched is a cache hit that dispatches it again, with no model call.
   */
  lemma RewriteIsIdempotent(e: Editor, calls: seq<Call>, c: Call, reply: Reply, checkAt: real, rejectAt: real)
    requires Lawful(e)
    ensures var st := Run(COLD, e, calls);
            var (st', r) := RewriteOnce(st, e, c.system, c.mode, c.reply, c.checkAt, c.rejectAt);
            !IsFailure(r.outcome) ==>
              RewriteOnce(st', e, r.system, c.mode, reply, checkAt, rejectAt) == (st', Result(r.system, CacheHit, 0))
  {
    RunKeepsInvariant(e, calls);
    RewriteKeepsInvariant(Run(COLD, e, calls), e, c.system, c.mode, c.reply, c.checkAt, c.rejectAt);
  }

  /** Slot by slot, `q` has the protected bytes of `p` in order; everything that is not text is `p`'s. */
  ghost predicate KeepsEverySlot(v: Vocabulary, p: System, q: System) {
    && SameSlots(p, q)
    && (forall i: nat :: TextAt(p, i).Some? ==>
          TextAt(q, i).Some? && KeepsProtected(v, TextAt(p, i).value, TextAt(q, i).value))
    && (p.Blocks? ==> forall i :: 0 <= i < |p.blocks| ==>
          if p.blocks[i].TextBlock? then q.blocks[i].rest == p.blocks[i].rest else q.blocks[i] == p.blocks[i])
  }

  lemma ConfinedKeepsEverySlot(v: Vocabulary, p: System, q: System)
    requires Confined(EditorFor(v), p, q)
    ensures KeepsEverySlot(v, p, q)
  {
    if p.Blocks? {
      assert forall i :: 0 <= i < |p.blocks| ==> ConfinedBlock(EditorFor(v), p.blocks[i], q.blocks[i]);
    }
    forall i: nat | TextAt(p, i).Some?
      ensures TextAt(q, i).Some? && KeepsProtected(v, TextAt(p, i).value, TextAt(q, i).value)
    {
      ConfinedKeepsProtected(v, TextAt(p, i).value, TextAt(q, i).value);
    }
  }

  /**
   Whatever the model answered in any run, every cached prompt and every dispatched one holds
   the protected bytes of the original in order: all but the communication sections, the
   ruleset sections and the headings.
   */
  lemma EveryAnswerKeepsProtected(v: Vocabulary, calls: seq<Call>, c: Call)
    ensures var st := Run(COLD, EditorFor(v), calls);
            && (forall key :: key in st.cache ==> KeepsEverySlot(v, key.0, st.cache[key]))
            && var sent := RewriteOnce(st, EditorFor(v), c.system, c.mode, c.reply, c.checkAt, c.rejectAt).1.system;
               KeepsEverySlot(v, c.system, sent)
  {
    var e, st := EditorFor(v), Run(COLD, EditorFor(v), calls);
    EditorIsLawful(v);
    RunKeepsInvariant(e, calls);
    forall key | key in st.cache ensures KeepsEverySlot(v, key.0, st.cache[key]) {
      ConfinedKeepsEverySlot(v, key.0, st.cache[key]);
    }
    RewriteKeepsInvariant(st, e, c.system, c.mode, c.reply, c.checkAt, c.rejectAt);
    ConfinedKeepsEverySlot(v, c.system, RewriteOnce(st, e, c.system, c.mode, c.reply, c.checkAt, c.rejectAt).1.system);
  }

  // ---- Byte stability --------------------------------------------------------

  /** The call computes an answer: nothing is cached for its prompt and no rejection is remembered. */
  predicate Computes(st: State, e: Editor, c: Call) {
    && (c.system, c.mode) !in st.cache && !RecentlyRejected(st, (c.system, c.mode), c.checkAt)
    && exists i :: 0 <= i < SlotCount(c.system) && Guided(c.system, e, i)
  }

  /** The ops answered are all owned and turn the prompt of the call into `q`. */
  predicate RewritesInto(e: Editor, c: Call, q: System) {
    && c.reply.Answer? && c.reply.ops.Some? && AllOwned(c.system, e, c.reply.ops.value)
    && var edited := EditSlots(c.system, e, c.reply.ops.value, SlotCount(c.system));
       edited.Some? && edited.value.0 == q && edited.value.1 > 0
  }

  /**
   Byte stability has one exception: a call changes what is cached for another prompt
   exactly when it rewrites its own into that very prompt, which had been rewritten itself.
   */
  lemma CachedAnswersAreStable(st: State, e: Editor, c: Call, key: Key)
    requires st.rejects.Valid() && key in st.cache
    ensures var st' := RewriteOnce(st, e, c.system, c.mode, c.reply, c.checkAt, c.rejectAt).0;
            key in st'.cache
            && (st'.cache[key] != st.cache[key]
                <==> Computes(st, e, c) && RewritesInto(e, c, key.0) && key.1 == c.mode && st.cache[key] != key.0)
  {
  }

  /** What is cached for a prompt is that prompt, unless a call of the run asked for it. */
  ghost predicate OnlyAskedDiffer(cache: map<Key, System>, calls: seq<Call>) {
    forall key :: key in cache && cache[key] != key.0 ==>
      exists i :: 0 <= i < |calls| && (calls[i].system, calls[i].mode) == key
  }

  lemma CallKeepsAsked(st: State, e: Editor, calls: seq<Call>, c: Call)
    requires st.rejects.Valid() && OnlyAskedDiffer(st.cache, calls)
    ensures OnlyAskedDiffer(RewriteOnce(st, e, c.system, c.mode, c.reply, c.checkAt, c.rejectAt).0.cache, calls + [c])
  {
    var st' := RewriteOnce(st, e, c.system, c.mode, c.reply, c.checkAt, c.rejectAt).0;
    forall key | key in st'.cache && st'.cache[key] != key.0
      ensures exists i :: 0 <= i < |calls + [c]| && ((calls + [c])[i].system, (calls + [c])[i].mode) == key
    {
      if key == (c.system, c.mode) {
        assert (calls + [c])[|calls|] == c;
      } else {
        var i :| 0 <= i < |calls| && (calls[i].system, calls[i].mode) == key;
        assert (calls + [c])[i] == calls[i];
      }
    }
  }

  lemma {:induction false} RunKeepsAsked(e: Editor, calls: seq<Call>)
    ensures OnlyAskedDiffer(Run(COLD, e, calls).cache, calls)
  {
    if calls != [] {
      var init := calls[..|calls| - 1];
      RunKeepsAsked(e, init);
      CallKeepsAsked(Run(COLD, e, init), e, init, calls[|calls| - 1]);
      SplitLast(calls);
    }
  }

  /** No prompt of the run is an edit of another one in the same mode. */
  ghost predicate NoPromptIsAnEdit(e: Editor, calls: seq<Call>) {
    forall i, j :: 0 <= i < |calls| && 0 <= j < |calls| && calls[i].mode == calls[j].mode
                   && calls[i].system != calls[j].system ==>
      !Confined(e, calls[i].system, calls[j].system)
  }

  lemma RewrittenIsConfined(e: Editor, c: Call, q: System)
    requires RewritesInto(e, c, q)
    ensures Confined(e, c.system, q)
  {
    EditsAreConfined(c.system, e, c.reply.ops.value, SlotCount(c.system));
  }

  lemma NextCallIsStable(e: Editor, calls: seq<Call>, n: nat, key: Key)
    requires n < |calls| && NoPromptIsAnEdit(e, calls) && key in Run(COLD, e, calls[..n]).cache
    ensures key in Run(COLD, e, calls[..n + 1]).cache
    ensures Run(COLD, e, calls[..n + 1]).cache[key] == Run(COLD, e, calls[..n]).cache[key]
  {
    var st, c := Run(COLD, e, calls[..n]), calls[n];
    assert calls[..n + 1][..n] == calls[..n];
    CachedAnswersAreStable(st, e, c, key);
    RunKeepsAsked(e, calls[..n]);
    if Computes(st, e, c) && RewritesInto(e, c, key.0) && key.1 == c.mode && st.cache[key] != key.0 {
      var i :| 0 <= i < n && (calls[..n][i].system, calls[..n][i].mode) == key;
      assert calls[..n][i] == calls[i];
      RewrittenIsConfined(e, c, key.0);
      assert false;
    }
  }

  /** When no prompt of a run is an edit of another, every cached answer stays as it was first stored. */
  lemma {:induction false} RunIsStable(e: Editor, calls: seq<Call>, n: nat, key: Key)
    requires n <= |calls| && NoPromptIsAnEdit(e, calls) && key in Run(COLD, e, calls[..n]).cache
    ensures key in Run(COLD, e, calls).cache && Run(COLD, e, calls).cache[key] == Run(COLD, e, calls[..n]).cache[key]
    decreases |calls| - n
  {
    if n < |calls| {
      NextCallIsStable(e, calls, n, key);
      RunIsStable(e, calls, n + 1, key);
    } else {
      assert calls[..n] == calls;
    }
  }

  // ---- The exception is real -------------------------------------------------

  lemma PlainSlots(e: Editor, t: string, op: Op, r: string)
    requires e.guided(t) && e.apply(t, [op]) == Some((r, 1)) && op.Op? && op.find != "" && FindFrom(t, op.find, 0) >= 0
    ensures Guided(Plain(t), e, 0) && AllOwned(Plain(t), e, [op])
    ensures EditSlots(Plain(t), e, [op], 1) == Some((Plain(r), 1))
  {
    var s := Plain(t);
    assert Holders(s, op.find, 0) == [] && Holders(s, op.find, 1) == [0];
    assert Owner(s, e, op) == Some(0);
    assert [op][..0] == [];
    assert OpsFor(s, e, [op], 0) == [op];
    assert EditSlots(s, e, [op], 0) == Some((s, 0));
  }

  /** A string prompt that nothing is known of, rewritten by one op. */
  lemma PlainRewritten(st: State, e: Editor, c: Call, t: string, op: Op, r: string)
    requires st.rejects == Empty() && c.system == Plain(t) && c.reply == Answer(Some([op]))
    requires (Plain(t), c.mode) !in st.cache
    requires e.guided(t) && e.apply(t, [op]) == Some((r, 1)) && op.Op? && op.find != "" && FindFrom(t, op.find, 0) >= 0
    ensures RewriteOnce(st, e, c.system, c.mode, c.reply, c.checkAt, c.rejectAt).0
         == State(st.cache[(Plain(t), c.mode) := Plain(r)][(Plain(r), c.mode) := Plain(r)], Empty())
  {
    PlainSlots(e, t, op, r);
  }

  function SmallCall(h: string, x: string, y: string, mode: string): Call {
    Call(Plain(h + ("\n" + x)), mode, Answer(Some([Op("\n" + x, "\n" + y)])), 0.0, 0.0)
  }

  lemma SmallRewritten(v: Vocabulary, st: State, h: string, x: string, y: string, mode: string)
    requires st.rejects == Empty() && SmallPrompt(v, h, x) && (Plain(h + ("\n" + x)), mode) !in st.cache
    ensures var c := SmallCall(h, x, y, mode);
            var was, put := Plain(h + ("\n" + x)), Plain(h + ("\n" + y));
            RewriteOnce(st, EditorFor(v), c.system, c.mode, c.reply, c.checkAt, c.rejectAt).0
            == State(st.cache[(was, mode) := put][(put, mode) := put], Empty())
  {
    var t, op := h + ("\n" + x), Op("\n" + x, "\n" + y);
    SmallEdit(v, h, x, "\n" + y);
    SmallSections(v, h, x);
    SmallSpan(v, h, x, "\n" + y);
    PlainRewritten(st, EditorFor(v), SmallCall(h, x, y, mode), t, op, h + ("\n" + y));
  }

  /** Rewrite a prompt, then rewrite another one into it: the answer cached for the first is lost. */
  lemma CachedAnswerChanges(v: Vocabulary, h: string, x: string, y: string, z: string, mode: string)
    requires SmallPrompt(v, h, x) && SmallPrompt(v, h, z)
    requires x != y && y != z && x != z
    ensures var e, key := EditorFor(v), (Plain(h + ("\n" + x)), mode);
            var calls := [SmallCall(h, x, y, mode), SmallCall(h, z, x, mode)];
            && key in Run(COLD, e, calls[..1]).cache && key in Run(COLD, e, calls).cache
            && Run(COLD, e, calls[..1]).cache[key] == Plain(h + ("\n" + y))
            && Run(COLD, e, calls).cache[key] == key.0
  {
    var e, a, b := EditorFor(v), SmallCall(h, x, y, mode), SmallCall(h, z, x, mode);
    assert [a, b][..1] == [a] && [a][..0] == [];
    assert Run(COLD, e, []) == COLD;
    LinesDiffer(h, x, y);
    LinesDiffer(h, y, z);
    LinesDiffer(h, x, z);
    SmallRewritten(v, COLD, h, x, y, mode);
    SmallRewritten(v, Run(COLD, e, [a]), h, z, x, mode);
  }

  lemma LinesDiffer(h: string, x: string, y: string)
    requires x != y
    ensures h + ("\n" + x) != h + ("\n" + y)
  {
    assert (h + ("\n" + x))[|h| + 1..] == x && (h + ("\n" + y))[|h| + 1..] == y;
  }

  /** Such runs exist: byte stability is false of the code. */
  lemma AnswersAreNotAlwaysStable(v: Vocabulary, mode: string)
    requires v.comm("Tone") && !v.ruleset("Tone")
    ensures exists calls: seq<Call>, key :: Unstable(EditorFor(v), calls, key)
  {
    SimpleHeading("Tone");
    SomeUnstableRun(v, ['#', ' '] + "Tone", "ab", "zz", "xb", mode);
  }

  /** What was cached for `key` before the last call of the run is not what is cached after it. */
  ghost predicate Unstable(e: Editor, calls: seq<Call>, key: Key) {
    && calls != [] && key in Run(COLD, e, calls[..|calls| - 1]).cache && key in Run(COLD, e, calls).cache
    && Run(COLD, e, calls[..|calls| - 1]).cache[key] != Run(COLD, e, calls).cache[key]
  }

  lemma SomeUnstableRun(v: Vocabulary, h: string, x: string, y: string, z: string, mode: string)
    requires SmallPrompt(v, h, x) && SmallPrompt(v, h, z)
    requires x != y && y != z && x != z
    ensures exists calls: seq<Call>, key :: Unstable(EditorFor(v), calls, key)
  {
    CachedAnswerChanges(v, h, x, y, z, mode);
    LinesDiffer(h, x, y);
    assert Unstable(EditorFor(v), [SmallCall(h, x, y, mode), SmallCall(h, z, x, mode)], (Plain(h + ("\n" + x)), mode));
  }
}
