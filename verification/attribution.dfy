/**
 Removing the attribution reminder from user messages (`anthrouter/request_text.py`).  The
 pattern that finds the reminder is an arbitrary function; what is proved holds of any.
 */
module Attribution {
  import opened Common
  import opened Text
  import opened Json

  /** `_ATTRIBUTION_REMINDER_RE.subn('', text)`: the text without its matches, and how many there were. */
  type Pattern = string -> (string, nat)

  // ---- Blocks ----------------------------------------------------------------

  /** The text that is scanned. */
  function BlockText(block: Json): Option<string> {
    if Field(block, "type") == Str("text") && Field(block, "text").Str? then Some(Field(block, "text").s) else None
  }

  predicate IsBlankBlock(block: Json) {
    BlockText(block).Some? && IsBlank(BlockText(block).value)
  }

  predicate AllBlankBlocks(blocks: seq<Json>) {
    blocks == [] || (IsBlankBlock(blocks[|blocks| - 1]) && AllBlankBlocks(blocks[..|blocks| - 1]))
  }

  predicate Matches(find: Pattern, block: Json) {
    BlockText(block).Some? && find(BlockText(block).value).1 > 0
  }

  /** A block that holds only the reminder. */
  predicate OnlyReminder(find: Pattern, block: Json) {
    Matches(find, block) && IsBlank(find(BlockText(block).value).0)
  }

  function WithText(block: Json, text: string): Json
    requires block.Obj?
  {
    Obj(block.fields["text" := Str(text)])
  }

  function WithControl(block: Json, control: Json): Json
    requires block.Obj?
  {
    Obj(block.fields["cache_control" := control])
  }

  /** A dropped block's breakpoint has somewhere to go. */
  predicate CanMove(blocks: seq<Json>) {
    blocks != [] && blocks[|blocks| - 1].Obj? && !HasField(blocks[|blocks| - 1], "cache_control")
  }

  datatype Stripped = Stripped(blocks: seq<Json>, removed: nat)

  /** What becomes of one block behind the blocks kept so far. */
  function StripBlock(find: Pattern, s: Stripped, block: Json): Stripped {
    if !Matches(find, block) then Stripped(s.blocks + [block], s.removed)
    else
      var (text, n) := find(BlockText(block).value);
      var control := Field(block, "cache_control");
      if !IsBlank(text) then Stripped(s.blocks + [WithText(block, text)], s.removed + n)
      else if control == Null then Stripped(s.blocks, s.removed + n)
      else if !CanMove(s.blocks) then Stripped(s.blocks + [block], s.removed)
      else
        var last := |s.blocks| - 1;
        Stripped(s.blocks[..last] + [WithControl(s.blocks[last], control)], s.removed + n)
  }

  function StripBlocks(find: Pattern, blocks: seq<Json>): Stripped {
    if blocks == [] then Stripped([], 0)
    else StripBlock(find, StripBlocks(find, blocks[..|blocks| - 1]), blocks[|blocks| - 1])
  }

  function StripContent(find: Pattern, content: Json): (Json, nat) {
    match content
    case Str(text) =>
      var (left, n) := find(text);
      if n == 0 || IsBlank(left) then (content, 0) else (Str(left), n)
    case Arr(items) =>
      var s := StripBlocks(find, items);
      if s.removed == 0 || AllBlankBlocks(s.blocks) then (content, 0) else (Arr(s.blocks), s.removed)
    case _ => (content, 0)
  }

  predicate IsUserMessage(m: Json) {
    Field(m, "role") == Str("user")
  }

  function StripMessage(find: Pattern, m: Json): (Json, nat) {
    if !IsUserMessage(m) then (m, 0)
    else
      var (content, n) := StripContent(find, Field(m, "content"));
      if n == 0 then (m, 0) else (Obj(m.fields["content" := content]), n)
  }

  function StripMessages(find: Pattern, messages: seq<Json>): (r: seq<Json>)
    ensures |r| == |messages|
  {
    if messages == [] then []
    else StripMessages(find, messages[..|messages| - 1]) + [StripMessage(find, messages[|messages| - 1]).0]
  }

  function RemovedFrom(find: Pattern, messages: seq<Json>): nat {
    if messages == [] then 0
    else RemovedFrom(find, messages[..|messages| - 1]) + StripMessage(find, messages[|messages| - 1]).1
  }

  // ---- The loops -------------------------------------------------------------

  /** `_strip_attribution_content` */
  method StripAttributionContent(find: Pattern, content: Json) returns (r: Json, removed: nat)
    ensures (r, removed) == StripContent(find, content)
  {
    if content.Str? {
      var (left, n) := find(content.s);
      if n == 0 || IsBlank(left) {
        return content, 0;
      }
      return Str(left), n;
    }
    if !content.Arr? {
      return content, 0;
    }
    var blocks: seq<Json>;
    blocks, removed := StripItems(find, content.items);
    if removed == 0 || AllBlankBlocks(blocks) {
      return content, 0;
    }
    r := Arr(blocks);
  }

  method StripItems(find: Pattern, items: seq<Json>) returns (blocks: seq<Json>, removed: nat)
    ensures Stripped(blocks, removed) == StripBlocks(find, items)
  {
    removed, blocks := 0, [];
    for i := 0 to |items|
      invariant Stripped(blocks, removed) == StripBlocks(find, items[..i])
    {
      assert items[..i + 1][..i] == items[..i];
      var block := items[i];
      var text := BlockText(block);
      if text == None {
        blocks := blocks + [block];
        continue;
      }
      var (left, n) := find(text.value);
      if n == 0 {
        blocks := blocks + [block];
        continue;
      }
      if !IsBlank(left) {
        blocks, removed := blocks + [WithText(block, left)], removed + n;
        continue;
      }
      var control := Field(block, "cache_control");
      if control != Null {
        if blocks == [] || !blocks[|blocks| - 1].Obj? || HasField(blocks[|blocks| - 1], "cache_control") {
          blocks := blocks + [block];
          continue;
        }
        blocks := blocks[..|blocks| - 1] + [WithControl(blocks[|blocks| - 1], control)];
      }
      removed := removed + n;
    }
    assert items[..|items|] == items;
  }

  lemma OneMoreMessage(find: Pattern, messages: seq<Json>, i: nat)
    requires i < |messages|
    ensures StripMessages(find, messages[..i + 1])
         == StripMessages(find, messages[..i]) + [StripMessage(find, messages[i]).0]
    ensures RemovedFrom(find, messages[..i + 1]) == RemovedFrom(find, messages[..i]) + StripMessage(find, messages[i]).1
  {
    assert messages[..i + 1][..i] == messages[..i];
  }

  /** `strip_attribution_reminders` */
  method StripAttributionReminders(find: Pattern, messages: seq<Json>) returns (r: seq<Json>, removed: nat)
    ensures r == StripMessages(find, messages) && removed == RemovedFrom(find, messages)
  {
    removed := 0;
    var result: seq<Json> := [];
    for i := 0 to |messages|
      invariant result == StripMessages(find, messages[..i]) && removed == RemovedFrom(find, messages[..i])
    {
      OneMoreMessage(find, messages, i);
      var m := messages[i];
      if IsUserMessage(m) {
        var content, n := StripAttributionContent(find, Field(m, "content"));
        if n > 0 {
          removed := removed + n;
          m := Obj(m.fields["content" := content]);
        }
      }
      result := result + [m];
    }
    assert messages[..|messages|] == messages;
    if removed == 0 {
      NothingRemoved(find, messages);
      return messages, 0;
    }
    r := result;
  }

  lemma {:induction false} NothingRemoved(find: Pattern, messages: seq<Json>)
    requires RemovedFrom(find, messages) == 0
    ensures StripMessages(find, messages) == messages
  {
    if messages != [] {
      NothingRemoved(find, messages[..|messages| - 1]);
      assert messages == messages[..|messages| - 1] + [messages[|messages| - 1]];
    }
  }

  // ---- Breakpoints -----------------------------------------------------------

  function Controls(blocks: seq<Json>): seq<Json> {
    if blocks == [] then []
    else
      var control := Field(blocks[|blocks| - 1], "cache_control");
      Controls(blocks[..|blocks| - 1]) + if control == Null then [] else [control]
  }

  lemma ControlsOfLast(blocks: seq<Json>, block: Json)
    ensures Controls(blocks + [block])
         == Controls(blocks) + if Field(block, "cache_control") == Null then [] else [Field(block, "cache_control")]
  {
    assert (blocks + [block])[..|blocks|] == blocks;
  }

  lemma NoControlAppended(blocks: seq<Json>, block: Json)
    requires Field(block, "cache_control") == Null
    ensures Controls(blocks + [block]) == Controls(blocks)
  {
    ControlsOfLast(blocks, block);
    assert Controls(blocks) + [] == Controls(blocks);
  }

  lemma ControlJoins(init: seq<Json>, block: Json, control: Json)
    requires block.Obj? && Field(block, "cache_control") == Null && control != Null
    ensures Controls(init + [WithControl(block, control)]) == Controls(init + [block]) + [control]
  {
    ControlsOfLast(init, WithControl(block, control));
    NoControlAppended(init, block);
  }

  lemma ControlMoves(blocks: seq<Json>, control: Json)
    requires CanMove(blocks) && control != Null
    ensures var last := |blocks| - 1;
            Controls(blocks[..last] + [WithControl(blocks[last], control)]) == Controls(blocks) + [control]
  {
    var last := |blocks| - 1;
    SplitLast(blocks);
    ControlJoins(blocks[..last], blocks[last], control);
  }

  lemma StripBlockKeepsControls(find: Pattern, s: Stripped, block: Json)
    ensures Controls(StripBlock(find, s, block).blocks)
         == Controls(s.blocks) + if Field(block, "cache_control") == Null then [] else [Field(block, "cache_control")]
  {
    ControlsOfLast(s.blocks, block);
    if Matches(find, block) {
      var (text, n) := find(BlockText(block).value);
      var control := Field(block, "cache_control");
      if !IsBlank(text) {
        ControlsOfLast(s.blocks, WithText(block, text));
      } else if control == Null {
        assert Controls(s.blocks) + [] == Controls(s.blocks);
      } else if CanMove(s.blocks) {
        ControlMoves(s.blocks, control);
      }
    }
  }

  lemma {:induction false} StripBlocksKeepsControls(find: Pattern, blocks: seq<Json>)
    ensures Controls(StripBlocks(find, blocks).blocks) == Controls(blocks)
  {
    if blocks != [] {
      var init := blocks[..|blocks| - 1];
      StripBlocksKeepsControls(find, init);
      StripBlockKeepsControls(find, StripBlocks(find, init), blocks[|blocks| - 1]);
    }
  }

  /** The blocks of a message's content. */
  function ContentBlocks(m: Json): seq<Json> {
    if Field(m, "content").Arr? then Field(m, "content").items else []
  }

  predicate IsBlankContent(content: Json) {
    match content
    case Str(text) => IsBlank(text)
    case Arr(items) => AllBlankBlocks(items)
    case _ => false
  }

  lemma ContentKeepsControls(find: Pattern, content: Json)
    ensures var (after, _) := StripContent(find, content);
            && (content.Arr? <==> after.Arr?)
            && (content.Arr? ==> Controls(after.items) == Controls(content.items))
  {
    if content.Arr? {
      StripBlocksKeepsControls(find, content.items);
    }
  }

  lemma ContentStaysVisible(find: Pattern, content: Json)
    ensures var (after, n) := StripContent(find, content);
            n > 0 ==> !IsBlankContent(after)
  {
  }

  /**
   Whatever is removed, the cache breakpoints of a message are the same in the same order, a
   changed message is not blank, only user messages change, and nothing but their content.
   */
  lemma MessageConservesBreakpoints(find: Pattern, m: Json)
    ensures var (after, n) := StripMessage(find, m);
            && Controls(ContentBlocks(after)) == Controls(ContentBlocks(m))
            && (n > 0 ==> !IsBlankContent(Field(after, "content")) && IsUserMessage(m))
            && (n == 0 ==> after == m)
            && (n > 0 ==> after.Obj? && m.Obj? && after.fields - {"content"} == m.fields - {"content"})
  {
    ContentKeepsControls(find, Field(m, "content"));
    ContentStaysVisible(find, Field(m, "content"));
  }

  /** The same over a whole conversation: message by message, none lost or moved. */
  lemma {:induction false} ConversationConservesBreakpoints(find: Pattern, messages: seq<Json>, i: nat)
    requires i < |messages|
    ensures StripMessages(find, messages)[i] == StripMessage(find, messages[i]).0
    ensures Controls(ContentBlocks(StripMessages(find, messages)[i])) == Controls(ContentBlocks(messages[i]))
    ensures !IsUserMessage(messages[i]) ==> StripMessages(find, messages)[i] == messages[i]
  {
    var last := |messages| - 1;
    MessageConservesBreakpoints(find, messages[i]);
    if i < last {
      ConversationConservesBreakpoints(find, messages[..last], i);
    }
  }

  // ---- Blocks keep their place -----------------------------------------------

  /** A block after the removal, were it kept: without the reminder, unless that was all it held. */
  function Cleaned(find: Pattern, block: Json): Json {
    if Matches(find, block) && !OnlyReminder(find, block) then WithText(block, find(BlockText(block).value).0)
    else block
  }

  predicate SameButControl(a: Json, b: Json) {
    a == b || (a.Obj? && b.Obj? && a.fields - {"cache_control"} == b.fields - {"cache_control"})
  }

  /** `after` holds the cleaned blocks of `before` in order; only blocks with nothing but the reminder may be gone. */
  predicate KeepsPlaces(find: Pattern, before: seq<Json>, after: seq<Json>) {
    if before == [] then after == []
    else
      var block, init := before[|before| - 1], before[..|before| - 1];
      || (after != [] && SameButControl(after[|after| - 1], Cleaned(find, block))
          && KeepsPlaces(find, init, after[..|after| - 1]))
      || (OnlyReminder(find, block) && KeepsPlaces(find, init, after))
  }

  lemma {:induction false} ControlIsNoMove(find: Pattern, before: seq<Json>, after: seq<Json>, control: Json)
    requires KeepsPlaces(find, before, after) && after != [] && after[|after| - 1].Obj?
    ensures KeepsPlaces(find, before, after[..|after| - 1] + [WithControl(after[|after| - 1], control)])
  {
    var last := |after| - 1;
    var block, init := before[|before| - 1], before[..|before| - 1];
    var moved := after[..last] + [WithControl(after[last], control)];
    assert moved[..last] == after[..last];
    if SameButControl(after[last], Cleaned(find, block)) && KeepsPlaces(find, init, after[..last]) {
      assert moved[last].fields - {"cache_control"} == after[last].fields - {"cache_control"};
    } else {
      ControlIsNoMove(find, init, after, control);
    }
  }

  lemma PlaceAppended(find: Pattern, before: seq<Json>, after: seq<Json>, block: Json)
    requires KeepsPlaces(find, before, after)
    ensures KeepsPlaces(find, before + [block], after + [Cleaned(find, block)])
    ensures OnlyReminder(find, block) ==> KeepsPlaces(find, before + [block], after)
  {
    assert (before + [block])[..|before|] == before;
    assert (after + [Cleaned(find, block)])[..|after|] == after;
  }

  /** Blocks without a match keep their order and their text; so do the cleaned ones. */
  lemma {:induction false} BlocksKeepTheirPlaces(find: Pattern, blocks: seq<Json>)
    ensures KeepsPlaces(find, blocks, StripBlocks(find, blocks).blocks)
  {
    if blocks != [] {
      var init, block := blocks[..|blocks| - 1], blocks[|blocks| - 1];
      var s := StripBlocks(find, init);
      BlocksKeepTheirPlaces(find, init);
      assert blocks == init + [block];
      PlaceAppended(find, init, s.blocks, block);
      if OnlyReminder(find, block) && Field(block, "cache_control") != Null && CanMove(s.blocks) {
        ControlIsNoMove(find, blocks, s.blocks, Field(block, "cache_control"));
      }
    }
  }

  // ---- What is removed -------------------------------------------------------

  /** A text block whose text holds the reminder, and after its removal is `left`. */
  predicate HoldsReminder(find: Pattern, block: Json) {
    && block.Obj? && "type" in block.fields && block.fields["type"] == Str("text")
    && "text" in block.fields && block.fields["text"].Str? && find(block.fields["text"].s).1 > 0
  }

  function Left(find: Pattern, block: Json): string {
    if HoldsReminder(find, block) then find(block.fields["text"].s).0 else ""
  }

  /** The block left last can take a breakpoint: it is an object and has none, nor has it taken one. */
  predicate Takes(find: Pattern, blocks: seq<Json>)
    decreases |blocks|, 0
  {
    blocks != [] &&
    var init, x := blocks[..|blocks| - 1], blocks[|blocks| - 1];
    if Goes(find, init, x) then Field(x, "cache_control") == Null && Takes(find, init)
    else x.Obj? && "cache_control" !in x.fields
  }

  /** A block behind `before` goes: it holds nothing but the reminder, and its breakpoint has a place to go. */
  predicate Goes(find: Pattern, before: seq<Json>, x: Json)
    decreases |before|, 1
  {
    HoldsReminder(find, x) && IsBlank(Left(find, x)) && (Field(x, "cache_control") == Null || Takes(find, before))
  }

  lemma ReminderIsMatch(find: Pattern, block: Json)
    ensures Matches(find, block) <==> HoldsReminder(find, block)
    ensures Matches(find, block) ==>
              find(BlockText(block).value) == (Left(find, block), find(block.fields["text"].s).1)
  {
  }

  lemma {:induction false} LastLeftTakes(find: Pattern, blocks: seq<Json>)
    ensures CanMove(StripBlocks(find, blocks).blocks) <==> Takes(find, blocks)
  {
    if blocks != [] {
      var init, x := blocks[..|blocks| - 1], blocks[|blocks| - 1];
      LastLeftTakes(find, init);
      ReminderIsMatch(find, x);
      LastOfStripped(find, StripBlocks(find, init), x, Goes(find, init, x));
    }
  }

  lemma LastOfStripped(find: Pattern, s: Stripped, x: Json, goes: bool)
    requires goes <==> OnlyReminder(find, x) && (Field(x, "cache_control") == Null || CanMove(s.blocks))
    ensures CanMove(StripBlock(find, s, x).blocks)
            <==> if goes then Field(x, "cache_control") == Null && CanMove(s.blocks)
                 else x.Obj? && "cache_control" !in x.fields
  {
  }

  /**
   What the removal makes of one block more: a block with nothing but the reminder goes, and its
   breakpoint moves to the block left last, unless that has no place for it; a block with more
   loses the reminder; every other block stays as it is.
   */
  lemma RemindersGo(find: Pattern, before: seq<Json>, x: Json)
    ensures var was, now := StripBlocks(find, before), StripBlocks(find, before + [x]);
            var last := |was.blocks| - 1;
            if Goes(find, before, x) then
              && now.removed == was.removed + find(x.fields["text"].s).1
              && if Field(x, "cache_control") == Null then now.blocks == was.blocks
                 else
                   && last >= 0 && was.blocks[last].Obj?
                   && now.blocks == was.blocks[..last]
                                    + [Obj(was.blocks[last].fields["cache_control" := Field(x, "cache_control")])]
            else if HoldsReminder(find, x) && !IsBlank(Left(find, x)) then
              && now.removed == was.removed + find(x.fields["text"].s).1
              && now.blocks == was.blocks + [Obj(x.fields["text" := Str(Left(find, x))])]
            else now.removed == was.removed && now.blocks == was.blocks + [x]
  {
    assert (before + [x])[..|before|] == before;
    LastLeftTakes(find, before);
    ReminderIsMatch(find, x);
  }

  predicate IsVisible(block: Json) {
    !(block.Obj? && "type" in block.fields && block.fields["type"] == Str("text")
      && "text" in block.fields && block.fields["text"].Str? && IsBlank(block.fields["text"].s))
  }

  lemma {:induction false} SomeVisible(blocks: seq<Json>)
    ensures AllBlankBlocks(blocks) <==> forall i :: 0 <= i < |blocks| ==> !IsVisible(blocks[i])
  {
    if blocks != [] {
      SomeVisible(blocks[..|blocks| - 1]);
    }
  }

  /**
   A message is changed exactly when a reminder goes and something visible is left: a string to
   what is left of it, a list to the blocks left.
   */
  lemma ContentLosesReminders(find: Pattern, content: Json)
    ensures match content
            case Str(text) =>
              var (left, n) := find(text);
              StripContent(find, content) == if n > 0 && !IsBlank(left) then (Str(left), n) else (content, 0)
            case Arr(items) =>
              var s := StripBlocks(find, items);
              StripContent(find, content)
              == if s.removed > 0 && (exists i :: 0 <= i < |s.blocks| && IsVisible(s.blocks[i]))
                 then (Arr(s.blocks), s.removed) else (content, 0)
            case _ => StripContent(find, content) == (content, 0)
  {
    if content.Arr? {
      SomeVisible(StripBlocks(find, content.items).blocks);
    }
  }

  /** Only the content of a user message ever changes. */
  lemma MessageLosesReminders(find: Pattern, m: Json)
    ensures var (after, n) := StripContent(find, Field(m, "content"));
            StripMessage(find, m)
            == if m.Obj? && "role" in m.fields && m.fields["role"] == Str("user") && n > 0
               then (Obj(m.fields["content" := after]), n) else (m, 0)
  {
  }
}
