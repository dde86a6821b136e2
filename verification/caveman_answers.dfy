/**
 What the caveman rewriter answers (`anthrouter/caveman_rewrite.py`), said of the prompt, the
 reply and what is cached: which op goes to which block, what each block becomes, and how long
 a rejection is remembered.
 */
module CavemanAnswers {
  import opened Common
  import opened OrderedDict
  import opened CavemanEdits
  import opened CavemanRewriter
  import opened CavemanSections

  // ---- Ops and their blocks --------------------------------------------------

  ghost predicate HoldsText(s: System, i: nat, find: string) {
    TextAt(s, i).Some? && exists p: nat :: IsAt(TextAt(s, i).value, find, p)
  }

  lemma HoldsMeans(s: System, i: nat, find: string)
    ensures Holds(s, i, find) <==> HoldsText(s, i, find)
    ensures HoldsText(s, i, find) ==> i < SlotCount(s)
  {
    if TextAt(s, i).Some? {
      var t := TextAt(s, i).value;
      forall p: nat ensures OccursAt(t, find, p) <==> IsAt(t, find, p) {
        OccursMeans(t, find, p);
      }
      if FindFrom(t, find, 0) >= 0 {
        assert OccursAt(t, find, FindFrom(t, find, 0));
      }
    }
  }

  /** The op's text is in no block but `i`, and that one has a communication section. */
  ghost predicate Owns(s: System, e: Editor, i: nat, op: Op) {
    && op.Op? && op.find != "" && HoldsText(s, i, op.find) && e.guided(TextAt(s, i).value)
    && forall j: nat :: HoldsText(s, j, op.find) ==> j == i
  }

  lemma {:induction false} NoHolders(s: System, find: string, n: nat)
    ensures Holders(s, find, n) == [] <==> forall j :: 0 <= j < n ==> !Holds(s, j, find)
  {
    if n > 0 {
      NoHolders(s, find, n - 1);
    }
  }

  /** `k` is the only block among the first `n` that holds the text. */
  predicate OnlyHolder(s: System, find: string, n: nat, k: nat) {
    k < n && Holds(s, k, find) && forall j :: 0 <= j < n && Holds(s, j, find) ==> j == k
  }

  lemma {:induction false} OneHolder(s: System, find: string, n: nat, k: nat)
    ensures Holders(s, find, n) == [k] <==> OnlyHolder(s, find, n, k)
  {
    if n > 0 {
      OneHolder(s, find, n - 1, k);
      if Holds(s, n - 1, find) {
        NoHolders(s, find, n - 1);
        JustTheLast(Holders(s, find, n - 1), n - 1, k);
      } else {
        assert Holders(s, find, n - 1) + [] == Holders(s, find, n - 1);
      }
    }
  }

  lemma JustTheLast(before: seq<nat>, last: nat, k: nat)
    ensures before + [last] == [k] <==> before == [] && last == k
  {
    if before + [last] == [k] {
      assert |before| + 1 == 1 && (before + [last])[0] == last;
    }
  }

  lemma OwnerMeans(s: System, e: Editor, op: Op, i: nat)
    ensures Owner(s, e, op) == Some(i) <==> Owns(s, e, i, op)
  {
    if op.Op? && op.find != "" {
      OneHolder(s, op.find, SlotCount(s), i);
      forall j: nat ensures Holds(s, j, op.find) <==> HoldsText(s, j, op.find) {
        HoldsMeans(s, j, op.find);
      }
      if Owns(s, e, i, op) {
        HoldsMeans(s, i, op.find);
      }
      var holders := Holders(s, op.find, SlotCount(s));
      if |holders| == 1 {
        assert holders == [holders[0]];
      }
    }
  }

  function BelongsTo(s: System, e: Editor, i: nat): Op -> bool {
    (op: Op) => Owner(s, e, op) == Some(i)
  }

  /** A block is edited by exactly the ops that belong to it, in order. */
  lemma {:induction false} OpsArePicked(s: System, e: Editor, ops: seq<Op>, i: nat)
    ensures Picks(ops, OpsFor(s, e, ops, i), BelongsTo(s, e, i), Itself)
  {
    if ops == [] {
      PicksNothing<Op, Op>(BelongsTo(s, e, i), Itself);
    } else {
      var init, last := ops[..|ops| - 1], ops[|ops| - 1];
      OpsArePicked(s, e, init, i);
      PicksLast(init, OpsFor(s, e, init, i), BelongsTo(s, e, i), Itself, last);
      SplitLast(ops);
      assert OpsFor(s, e, init, i) + [] == OpsFor(s, e, init, i);
    }
  }

  // ---- What the blocks become ------------------------------------------------

  /** What a block reads after its own ops; `None` when they are not accepted. */
  function NewText(s: System, e: Editor, ops: seq<Op>, i: nat): Option<string>
    requires TextAt(s, i).Some?
  {
    var own, text := OpsFor(s, e, ops, i), TextAt(s, i).value;
    if own == [] then Some(text)
    else match e.apply(text, own) case None => None case Some((t, _)) => Some(t)
  }

  predicate Fails(s: System, e: Editor, ops: seq<Op>, i: nat) {
    TextAt(s, i).Some? && NewText(s, e, ops, i) == None
  }

  /** The first `n` blocks have their new texts, the others their old ones. */
  ghost predicate Becomes(s: System, e: Editor, ops: seq<Op>, n: nat, r: System) {
    forall i: nat :: TextAt(r, i) == if i < n && TextAt(s, i).Some? then NewText(s, e, ops, i) else TextAt(s, i)
  }

  lemma StaysAsItIs(s: System, e: Editor, ops: seq<Op>, n: nat, r: System)
    requires Becomes(s, e, ops, n, r) && (TextAt(s, n) == None || OpsFor(s, e, ops, n) == [])
    ensures Becomes(s, e, ops, n + 1, r)
  {
  }

  lemma IsReplaced(s: System, e: Editor, ops: seq<Op>, n: nat, r: System, t: string)
    requires Becomes(s, e, ops, n, r) && TextAt(s, n).Some? && NewText(s, e, ops, n) == Some(t)
    ensures TextAt(r, n).Some? && Becomes(s, e, ops, n + 1, WithText(r, n, t))
  {
  }

  lemma OneMoreSlot(s: System, e: Editor, ops: seq<Op>, n: nat)
    requires EditSlots(s, e, ops, n).Some? && Becomes(s, e, ops, n, EditSlots(s, e, ops, n).value.0)
    ensures EditSlots(s, e, ops, n + 1) == None <==> Fails(s, e, ops, n)
    ensures EditSlots(s, e, ops, n + 1).Some? ==> Becomes(s, e, ops, n + 1, EditSlots(s, e, ops, n + 1).value.0)
  {
    var done := EditSlots(s, e, ops, n).value;
    var own := OpsFor(s, e, ops, n);
    EditSlotsStep(s, e, ops, n);
    if TextAt(s, n) == None || own == [] {
      StaysAsItIs(s, e, ops, n, done.0);
    } else {
      var applied := e.apply(TextAt(s, n).value, own);
      AppliedSlot(s, e, own, n, done, applied);
      if applied.Some? {
        IsReplaced(s, e, ops, n, done.0, applied.value.0);
      }
    }
  }

  lemma {:induction false} SlotsBecome(s: System, e: Editor, ops: seq<Op>, n: nat)
    ensures EditSlots(s, e, ops, n) == None <==> exists i :: 0 <= i < n && Fails(s, e, ops, i)
    ensures EditSlots(s, e, ops, n).Some? ==> Becomes(s, e, ops, n, EditSlots(s, e, ops, n).value.0)
  {
    if n > 0 {
      SlotsBecome(s, e, ops, n - 1);
      if EditSlots(s, e, ops, n - 1).Some? {
        OneMoreSlot(s, e, ops, n - 1);
      }
    }
  }

  // ---- How many edits --------------------------------------------------------

  function TotalOps(s: System, e: Editor, ops: seq<Op>, n: nat): nat {
    if n == 0 then 0 else TotalOps(s, e, ops, n - 1) + |OpsFor(s, e, ops, n - 1)|
  }

  lemma {:induction false} OneMoreInTotal(s: System, e: Editor, ops: seq<Op>, op: Op, n: nat)
    ensures TotalOps(s, e, ops + [op], n)
         == TotalOps(s, e, ops, n) + if Owner(s, e, op).Some? && Owner(s, e, op).value < n then 1 else 0
  {
    assert (ops + [op])[..|ops|] == ops;
    if n > 0 {
      OneMoreInTotal(s, e, ops, op, n - 1);
    }
  }

  lemma {:induction false} EveryOpIsCounted(s: System, e: Editor, ops: seq<Op>)
    requires AllOwned(s, e, ops)
    ensures TotalOps(s, e, ops, SlotCount(s)) == |ops|
  {
    if ops == [] {
      NoOpsInTotal(s, e, SlotCount(s));
    } else {
      var init, last := ops[..|ops| - 1], ops[|ops| - 1];
      EveryOpIsCounted(s, e, init);
      OneMoreInTotal(s, e, init, last, SlotCount(s));
      OwnerInRange(s, e, last);
      SplitLast(ops);
    }
  }

  lemma {:induction false} NoOpsInTotal(s: System, e: Editor, n: nat)
    ensures TotalOps(s, e, [], n) == 0
  {
    if n > 0 {
      NoOpsInTotal(s, e, n - 1);
    }
  }

  lemma OwnerHasText(s: System, e: Editor, ops: seq<Op>, i: nat)
    ensures OpsFor(s, e, ops, i) != [] ==> TextAt(s, i).Some?
  {
    if OpsFor(s, e, ops, i) != [] {
      SomeOpBelongs(s, e, ops, i);
      var k :| 0 <= k < |ops| && Owner(s, e, ops[k]) == Some(i);
      OwnerMeans(s, e, ops[k], i);
    }
  }

  lemma {:induction false} SomeOpBelongs(s: System, e: Editor, ops: seq<Op>, i: nat)
    requires OpsFor(s, e, ops, i) != []
    ensures exists k :: 0 <= k < |ops| && Owner(s, e, ops[k]) == Some(i)
  {
    var last := |ops| - 1;
    if Owner(s, e, ops[last]) != Some(i) {
      SomeOpBelongs(s, e, ops[..last], i);
      var k :| 0 <= k < last && Owner(s, e, ops[..last][k]) == Some(i);
      assert Owner(s, e, ops[k]) == Some(i);
    }
  }

  lemma {:induction false} EditsAreCounted(s: System, e: Editor, ops: seq<Op>, n: nat)
    requires Lawful(e) && EditSlots(s, e, ops, n).Some?
    ensures EditSlots(s, e, ops, n).value.1 == TotalOps(s, e, ops, n)
  {
    if n > 0 {
      EditsAreCounted(s, e, ops, n - 1);
      var done, own := EditSlots(s, e, ops, n - 1).value, OpsFor(s, e, ops, n - 1);
      EditSlotsStep(s, e, ops, n - 1);
      OwnerHasText(s, e, ops, n - 1);
      if own != [] {
        AppliedSlot(s, e, own, n - 1, done, e.apply(TextAt(s, n - 1).value, own));
      }
    }
  }

  // ---- The answer ------------------------------------------------------------

  ghost predicate HasBlock(s: System, e: Editor, op: Op) {
    exists i: nat :: Owns(s, e, i, op)
  }

  /** Every op has a block of its own, and every block accepts its ops. */
  ghost predicate Accepts(s: System, e: Editor, ops: seq<Op>) {
    && (forall k :: 0 <= k < |ops| ==> HasBlock(s, e, ops[k]))
    && (forall i: nat :: !Fails(s, e, ops, i))
  }

  /** `r` is the prompt with every block edited by its ops; whatever is not text is `s`'s. */
  ghost predicate IsEdited(e: Editor, s: System, ops: seq<Op>, r: System) {
    && Confined(e, s, r)
    && forall i: nat :: TextAt(r, i) == if TextAt(s, i).Some? then NewText(s, e, ops, i) else None
  }

  lemma HasBlockMeans(s: System, e: Editor, op: Op)
    ensures Owner(s, e, op).Some? <==> HasBlock(s, e, op)
  {
    if Owner(s, e, op).Some? {
      OwnerMeans(s, e, op, Owner(s, e, op).value);
    }
    if i: nat :| Owns(s, e, i, op) {
      OwnerMeans(s, e, op, i);
    }
  }

  lemma AllOwnedMeans(s: System, e: Editor, ops: seq<Op>)
    ensures AllOwned(s, e, ops) <==> forall k :: 0 <= k < |ops| ==> HasBlock(s, e, ops[k])
  {
    forall k | 0 <= k < |ops| ensures Owner(s, e, ops[k]).Some? <==> HasBlock(s, e, ops[k]) {
      HasBlockMeans(s, e, ops[k]);
    }
  }

  lemma NoSlotFails(s: System, e: Editor, ops: seq<Op>)
    ensures EditSlots(s, e, ops, SlotCount(s)).Some? <==> forall i: nat :: !Fails(s, e, ops, i)
  {
    SlotsBecome(s, e, ops, SlotCount(s));
  }

  lemma EditedSlots(s: System, e: Editor, ops: seq<Op>, r: System, n: nat)
    requires Lawful(e) && AllOwned(s, e, ops) && EditSlots(s, e, ops, SlotCount(s)) == Some((r, n))
    ensures IsEdited(e, s, ops, r) && n == |ops|
  {
    SlotsBecome(s, e, ops, SlotCount(s));
    EditsAreCounted(s, e, ops, SlotCount(s));
    EveryOpIsCounted(s, e, ops);
    EditsAreConfined(s, e, ops, SlotCount(s));
  }

  lemma AcceptedIsEdited(s: System, e: Editor, ops: seq<Op>)
    requires Lawful(e)
    ensures Accepts(s, e, ops) <==> AllOwned(s, e, ops) && EditSlots(s, e, ops, SlotCount(s)).Some?
    ensures Accepts(s, e, ops) ==>
              var (r, n) := EditSlots(s, e, ops, SlotCount(s)).value; IsEdited(e, s, ops, r) && n == |ops|
  {
    AllOwnedMeans(s, e, ops);
    NoSlotFails(s, e, ops);
    if AllOwned(s, e, ops) && EditSlots(s, e, ops, SlotCount(s)).Some? {
      var (r, n) := EditSlots(s, e, ops, SlotCount(s)).value;
      EditedSlots(s, e, ops, r, n);
    }
  }

  /** Nothing is known of the prompt: it is not cached, and no rejection is still remembered. */
  predicate IsNew(st: State, c: Call) {
    var key := (c.system, c.mode);
    key !in st.cache && (key in st.rejects.items ==> st.rejects.items[key] <= c.checkAt)
  }

  ghost predicate HasGuidance(s: System, e: Editor) {
    exists i: nat :: TextAt(s, i).Some? && e.guided(TextAt(s, i).value)
  }

  lemma GuidanceMeans(s: System, e: Editor)
    ensures (exists i :: 0 <= i < SlotCount(s) && Guided(s, e, i)) <==> HasGuidance(s, e)
  {
    if i: nat :| TextAt(s, i).Some? && e.guided(TextAt(s, i).value) {
      assert 0 <= i < SlotCount(s) && Guided(s, e, i);
    }
  }

  /**
   A prompt that nothing is known of and that has a communication section is rewritten exactly
   when the reply is a list of ops that are all accepted: to the prompt with every block edited
   by its own ops, which is cached for it and for itself.  Any other reply leaves prompt and
   cache alone.
   */
  lemma AnswerIsDecided(st: State, e: Editor, c: Call)
    requires Lawful(e) && st.rejects.Valid() && IsNew(st, c) && HasGuidance(c.system, e)
    ensures var (st', r) := RewriteOnce(st, e, c.system, c.mode, c.reply, c.checkAt, c.rejectAt);
            if c.reply.Answer? && c.reply.ops.Some? && Accepts(c.system, e, c.reply.ops.value) then
              var ops := c.reply.ops.value;
              && IsEdited(e, c.system, ops, r.system) && r.edits == |ops|
              && r.outcome == (if ops == [] then Unchanged else Rewritten)
              && st'.cache == st.cache[(c.system, c.mode) := r.system][(r.system, c.mode) := r.system]
            else
              && r.system == c.system && r.edits == 0 && st'.cache == st.cache
              && r.outcome == (match c.reply case Busy => RefusedBusy case TimedOut => TimeoutError
                                             case Failed => CallError case Answer(_) => Rejected)
  {
    GuidanceMeans(c.system, e);
    if c.reply.Answer? && c.reply.ops.Some? {
      var ops := c.reply.ops.value;
      AcceptedIsEdited(c.system, e, ops);
      if Accepts(c.system, e, ops) && ops == [] {
        NoEditsNoChange(c.system, e, ops, SlotCount(c.system));
        StoredTwice(st.cache, (c.system, c.mode), c.system);
      }
    }
  }

  lemma StoredTwice(cache: map<Key, System>, key: Key, s: System)
    ensures cache[key := s][key := s] == cache[key := s]
  {
  }

  /** A prompt that is known: the cached answer, or a rejection that is remembered; nothing changes. */
  lemma KnownIsAnswered(st: State, e: Editor, c: Call)
    requires st.rejects.Valid() && !IsNew(st, c)
    ensures var key := (c.system, c.mode);
            RewriteOnce(st, e, c.system, c.mode, c.reply, c.checkAt, c.rejectAt)
            == (st, if key in st.cache then Result(st.cache[key], CacheHit, 0) else Result(c.system, RejectedCached, 0))
  {
  }

  /** A prompt without a communication section is its own answer, and no model is asked. */
  lemma NoGuidanceIsCached(st: State, e: Editor, c: Call)
    requires st.rejects.Valid() && IsNew(st, c) && !HasGuidance(c.system, e)
    ensures var (st', r) := RewriteOnce(st, e, c.system, c.mode, c.reply, c.checkAt, c.rejectAt);
            r == Result(c.system, NoGuidance, 0) && st'.cache == st.cache[(c.system, c.mode) := c.system]
  {
    GuidanceMeans(c.system, e);
  }

  /** A rejection spares the same prompt a model call for ten minutes, and not longer. */
  lemma RejectionIsRemembered(st: State, e: Editor, c: Call, again: Call)
    requires st.rejects.Valid() && IsNew(st, c) && again.system == c.system && again.mode == c.mode
    requires RewriteOnce(st, e, c.system, c.mode, c.reply, c.checkAt, c.rejectAt).1.outcome == Rejected
    ensures var st' := RewriteOnce(st, e, c.system, c.mode, c.reply, c.checkAt, c.rejectAt).0;
            var r := RewriteOnce(st', e, again.system, again.mode, again.reply, again.checkAt, again.rejectAt).1;
            r.outcome == RejectedCached <==> again.checkAt < c.rejectAt + 600.0
  {
    var key := (c.system, c.mode);
    LastRejectStays(ForgetReject(st.rejects, key), key, c.rejectAt + 600.0);
  }

  lemma LastRejectStays(d: Dict<Key, real>, key: Key, expiry: real)
    requires d.Valid() && key !in d.items
    ensures key in AddReject(d, key, expiry).items && AddReject(d, key, expiry).items[key] == expiry
  {
    InElements(d.order, key);
    AssignValid(d, key, expiry);
  }

  /**
   No more than 4096 rejections are remembered: a new one takes the place of the oldest exactly
   when there are that many, and all others stay.
   */
  lemma OldestRejectionGoes(d: Dict<Key, real>, key: Key, expiry: real)
    requires d.Valid() && key !in d.items
    ensures var now := AddReject(d, key, expiry);
            && now.order == (if |d.order| < 4096 then d.order else d.order[1..]) + [key]
            && now.items == (if |d.order| < 4096 then d.items else d.items - {d.order[0]})[key := expiry]
  {
    InElements(d.order, key);
    AssignValid(d, key, expiry);
    if |d.order| >= 4096 {
      assert (d.order + [key])[1..] == d.order[1..] + [key];
      assert d.items[key := expiry] - {d.order[0]} == (d.items - {d.order[0]})[key := expiry] by {
        InElements(d.order, d.order[0]);
      }
    }
  }

  /** The blocks of a prompt that have a text: a string is one, a list has those of its text blocks. */
  lemma SlotsMean(s: System, i: nat)
    ensures match s
            case Plain(t) => SlotCount(s) == 1 && (i == 0 ==> TextAt(s, i) == Some(t))
            case NoText => SlotCount(s) == 0
            case Blocks(blocks) =>
              && SlotCount(s) == |blocks|
              && (i < |blocks| ==>
                    TextAt(s, i) == match blocks[i] case TextBlock(t, _) => Some(t) case OtherBlock(_) => None)
    ensures i >= SlotCount(s) ==> TextAt(s, i) == None
  {
  }
}
