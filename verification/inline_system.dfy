/**
 Inline `role: system` messages rewritten as user-turn blocks
 (`anthrouter/mapper/anthropic_transform.py`).

 The rewrite keeps the cached prefix append-only: read as (role, block) pairs, the
 rewrite of a history is a prefix of the rewrite of every extension of it.
 */
module InlineSystem {
  import opened Common
  import opened Text
  import opened Json

  predicate IsSystem(m: Json) {
    Field(m, "role") == Str("system")
  }

  predicate IsText(block: Json) {
    Field(block, "type") == Str("text")
  }

  function Texts(blocks: seq<Json>): seq<string> {
    if blocks == [] then []
    else (if IsText(blocks[0]) && Field(blocks[0], "text").Str? then [Field(blocks[0], "text").s] else [])
         + Texts(blocks[1..])
  }

  /** `_stringify_content`. */
  function Stringify(content: Json): string {
    match content
    case Str(s) => s
    case Arr(items) => JoinLines(Texts(items))
    case _ => ""
  }

  /** The last `cache_control` among the text blocks, else the one found so far. */
  function LastCacheControl(blocks: seq<Json>, found: Json): Json {
    if blocks == [] then found
    else LastCacheControl(blocks[1..],
                          if IsText(blocks[0]) && HasField(blocks[0], "cache_control")
                          then blocks[0].fields["cache_control"] else found)
  }

  function CacheControl(m: Json): Json {
    var found, content := Field(m, "cache_control"), Field(m, "content");
    if content.Arr? then LastCacheControl(content.items, found) else found
  }

  /** The reminder block of a system message, with its cache breakpoint. */
  function Reminder(m: Json): Json {
    var block := map["type" := Str("text"),
                     "text" := Str("<system-reminder>\n" + Stringify(Field(m, "content")) + "\n</system-reminder>")];
    Obj(if CacheControl(m) == Null then block else block["cache_control" := CacheControl(m)])
  }

  predicate IsUser(m: Json) {
    Field(m, "role") == Str("user")
  }

  /** An assistant turn that calls a tool: its result must come next. */
  predicate CallsTool(m: Json) {
    && Field(m, "role") == Str("assistant")
    && Field(m, "content").Arr?
    && exists i :: 0 <= i < |Field(m, "content").items|
                   && Field(Field(m, "content").items[i], "type") == Str("tool_use")
  }

  /** A user message's content as a list of blocks. */
  function ContentBlocks(m: Json): seq<Json> {
    match Field(m, "content")
    case Str(s) => if s == "" then [] else [TextBlock(s)]
    case Arr(items) => items
    case _ => []
  }

  function Append(m: Json, block: Json): Json
    requires m.Obj?
  {
    Obj(m.fields["content" := Arr(ContentBlocks(m) + [block])])
  }

  function Standalone(block: Json): Json {
    Obj(map["role" := Str("user"), "content" := Arr([block])])
  }

  /** One message of the history, placed after what has been rewritten so far. */
  function Place(out: seq<Json>, m: Json): seq<Json> {
    if !IsSystem(m) then out + [m]
    else if Stringify(Field(m, "content")) == "" then out
    else if out != [] && IsUser(out[|out| - 1]) then out[..|out| - 1] + [Append(out[|out| - 1], Reminder(m))]
    else if out != [] && CallsTool(out[|out| - 1]) then out
    else out + [Standalone(Reminder(m))]
  }

  function Rewrite(messages: seq<Json>): seq<Json> {
    if messages == [] then [] else Place(Rewrite(messages[..|messages| - 1]), messages[|messages| - 1])
  }

  method RewriteInlineSystem(messages: seq<Json>) returns (out: seq<Json>)
    ensures out == Rewrite(messages)
  {
    if !exists i :: 0 <= i < |messages| && IsSystem(messages[i]) {
      NothingToRewrite(messages);
      return messages;
    }
    out := [];
    for i := 0 to |messages|
      invariant out == Rewrite(messages[..i])
    {
      assert messages[..i + 1][..i] == messages[..i];
      var m := messages[i];
      if !IsSystem(m) {
        out := out + [m];
      } else if Stringify(Field(m, "content")) != "" {
        var block := Reminder(m);
        if out != [] && IsUser(out[|out| - 1]) {
          out := out[..|out| - 1] + [Append(out[|out| - 1], block)];
        } else if out == [] || !CallsTool(out[|out| - 1]) {
          out := out + [Standalone(block)];
        }
      }
    }
    assert messages[..|messages|] == messages;
  }

  lemma {:induction false} NothingToRewrite(messages: seq<Json>)
    requires forall i :: 0 <= i < |messages| ==> !IsSystem(messages[i])
    ensures Rewrite(messages) == messages
  {
    if messages != [] {
      NothingToRewrite(messages[..|messages| - 1]);
    }
  }

  // ---- The rewrite read as (role, block) pairs -------------------------------

  datatype Pair = Pair(role: Json, block: Json)

  function Pairs(role: Json, blocks: seq<Json>): seq<Pair> {
    seq(|blocks|, i requires 0 <= i < |blocks| => Pair(role, blocks[i]))
  }

  /** A message as pairs: string content is one block, unless it is empty. */
  function Flat(m: Json): seq<Pair> {
    Pairs(Field(m, "role"), ContentBlocks(m))
  }

  function FlatAll(messages: seq<Json>): seq<Pair> {
    if messages == [] then [] else FlatAll(messages[..|messages| - 1]) + Flat(messages[|messages| - 1])
  }

  /** Whether the last message that is not a system one calls a tool. */
  predicate AwaitsToolResult(messages: seq<Json>) {
    messages != [] &&
    var m := messages[|messages| - 1];
    if IsSystem(m) then AwaitsToolResult(messages[..|messages| - 1]) else CallsTool(m)
  }

  /**
   The pairs one message contributes: its own, or one reminder for a system message with
   text that does not stand between a tool call and its result.
   */
  function Contribution(m: Json, afterToolCall: bool): seq<Pair> {
    if !IsSystem(m) then Flat(m)
    else if Stringify(Field(m, "content")) == "" || afterToolCall then []
    else [Pair(Str("user"), Reminder(m))]
  }

  /** What the rewrite must read as, from the history alone. */
  function Contributions(messages: seq<Json>): seq<Pair> {
    if messages == [] then []
    else
      var before := messages[..|messages| - 1];
      Contributions(before) + Contribution(messages[|messages| - 1], AwaitsToolResult(before))
  }

  predicate EndsInCall(out: seq<Json>) {
    out != [] && CallsTool(out[|out| - 1])
  }

  lemma LastOfPlace(out: seq<Json>, m: Json)
    ensures EndsInCall(Place(out, m)) <==> if IsSystem(m) then EndsInCall(out) else CallsTool(m)
  {
    if IsSystem(m) && out != [] && IsUser(out[|out| - 1]) {
      assert !CallsTool(Append(out[|out| - 1], Reminder(m)));
    }
  }

  lemma {:induction false} LastOfRewrite(messages: seq<Json>)
    ensures AwaitsToolResult(messages) <==> EndsInCall(Rewrite(messages))
  {
    if messages != [] {
      LastOfRewrite(messages[..|messages| - 1]);
      LastOfPlace(Rewrite(messages[..|messages| - 1]), messages[|messages| - 1]);
    }
  }

  lemma FlatAppended(m: Json, block: Json)
    requires IsUser(m)
    ensures Flat(Append(m, block)) == Flat(m) + [Pair(Str("user"), block)]
  {
  }

  lemma FlatLast(out: seq<Json>, m: Json)
    ensures FlatAll(out + [m]) == FlatAll(out) + Flat(m)
  {
    assert (out + [m])[..|out|] == out;
  }

  lemma AppendFlattens(out: seq<Json>, block: Json)
    requires out != [] && IsUser(out[|out| - 1])
    ensures FlatAll(out[..|out| - 1] + [Append(out[|out| - 1], block)]) == FlatAll(out) + [Pair(Str("user"), block)]
  {
    var last := out[|out| - 1];
    FlatAppended(last, block);
    FlatLast(out[..|out| - 1], Append(last, block));
    ConcatAssoc(FlatAll(out[..|out| - 1]), Flat(last), [Pair(Str("user"), block)]);
  }

  lemma StandaloneFlattens(out: seq<Json>, block: Json)
    ensures FlatAll(out + [Standalone(block)]) == FlatAll(out) + [Pair(Str("user"), block)]
  {
    FlatLast(out, Standalone(block));
    assert Flat(Standalone(block)) == [Pair(Str("user"), block)];
  }

  lemma PlaceFlattens(out: seq<Json>, m: Json)
    ensures FlatAll(Place(out, m)) == FlatAll(out) + Contribution(m, out != [] && CallsTool(out[|out| - 1]))
  {
    if !IsSystem(m) {
      FlatLast(out, m);
    } else if Stringify(Field(m, "content")) == "" {
      assert FlatAll(out) + [] == FlatAll(out);
    } else if out != [] && IsUser(out[|out| - 1]) {
      AppendFlattens(out, Reminder(m));
    } else if out != [] && CallsTool(out[|out| - 1]) {
      assert FlatAll(out) + [] == FlatAll(out);
    } else {
      StandaloneFlattens(out, Reminder(m));
    }
  }

  lemma {:induction false} RewriteFlattens(messages: seq<Json>)
    ensures FlatAll(Rewrite(messages)) == Contributions(messages)
  {
    if messages != [] {
      var before := messages[..|messages| - 1];
      RewriteFlattens(before);
      LastOfRewrite(before);
      PlaceFlattens(Rewrite(before), messages[|messages| - 1]);
    }
  }

  lemma {:induction false} ContributionsExtend(messages: seq<Json>, k: nat)
    requires k <= |messages|
    ensures Contributions(messages[..k]) <= Contributions(messages)
  {
    if k == |messages| {
      assert messages[..k] == messages;
    } else {
      var before := messages[..|messages| - 1];
      ContributionsExtend(before, k);
      assert before[..k] == messages[..k];
    }
  }

  /** The rewrite of a history is, as pairs, a prefix of the rewrite of any extension. */
  lemma RewriteIsAppendOnly(history: seq<Json>, more: seq<Json>)
    ensures FlatAll(Rewrite(history)) <= FlatAll(Rewrite(history + more))
  {
    RewriteFlattens(history);
    RewriteFlattens(history + more);
    ContributionsExtend(history + more, |history|);
    assert (history + more)[..|history|] == history;
  }

  // ---- Where each message of the rewrite comes from --------------------------

  /** The index of the message it was, or `None` for a standalone reminder. */
  function Origins(messages: seq<Json>): seq<Option<nat>> {
    if messages == [] then []
    else
      var before := messages[..|messages| - 1];
      OneMoreOrigin(Rewrite(before), messages[|messages| - 1], Origins(before), |before|)
  }

  /** With message `n` placed behind `out`. */
  function OneMoreOrigin(out: seq<Json>, m: Json, origins: seq<Option<nat>>, n: nat): seq<Option<nat>> {
    if !IsSystem(m) then origins + [Some(n)]
    else if |Place(out, m)| > |out| then origins + [None]
    else origins
  }

  /** The indices of the messages that are not system ones, in order. */
  function Others(messages: seq<Json>): seq<nat> {
    if messages == [] then []
    else Others(messages[..|messages| - 1]) + if IsSystem(messages[|messages| - 1]) then [] else [|messages| - 1]
  }

  function Known(origins: seq<Option<nat>>): seq<nat> {
    if origins == [] then []
    else Known(origins[..|origins| - 1]) + match origins[|origins| - 1] case None => [] case Some(j) => [j]
  }

  /** A message as it was, or a user message with blocks added at its end. */
  predicate Extends(was: Json, now: Json) {
    now == was
    || (&& IsUser(was) && now.Obj? && now.fields - {"content"} == was.fields - {"content"}
        && Flat(was) <= Flat(now))
  }

  /** What holds of position `i` of the rewrite `out`. */
  predicate Accounted(messages: seq<Json>, out: seq<Json>, origin: Option<nat>, i: nat)
    requires i < |out|
  {
    && !IsSystem(out[i])
    && match origin
       case Some(j) => j < |messages| && Extends(messages[j], out[i])
       case None => IsUser(out[i]) && (i == 0 || !CallsTool(out[i - 1]))
  }

  predicate AllAccounted(messages: seq<Json>, out: seq<Json>, origins: seq<Option<nat>>) {
    |origins| == |out| && forall i :: 0 <= i < |out| ==> Accounted(messages, out, origins[i], i)
  }

  lemma AccountedAmongMore(before: seq<Json>, m: Json, out: seq<Json>, origins: seq<Option<nat>>)
    requires AllAccounted(before, out, origins)
    ensures AllAccounted(before + [m], out, origins)
  {
    forall i | 0 <= i < |out| ensures Accounted(before + [m], out, origins[i], i) {
      assert Accounted(before, out, origins[i], i);
      assert forall j :: 0 <= j < |before| ==> (before + [m])[j] == before[j];
    }
  }

  lemma AccountedAppended(messages: seq<Json>, out: seq<Json>, origins: seq<Option<nat>>, last: Json,
                          origin: Option<nat>)
    requires AllAccounted(messages, out, origins) && Accounted(messages, out + [last], origin, |out|)
    ensures AllAccounted(messages, out + [last], origins + [origin])
  {
    forall i | 0 <= i < |out| ensures Accounted(messages, out + [last], origins[i], i) {
      assert Accounted(messages, out, origins[i], i);
    }
  }

  lemma AccountedExtended(messages: seq<Json>, out: seq<Json>, origins: seq<Option<nat>>, block: Json)
    requires AllAccounted(messages, out, origins) && out != [] && IsUser(out[|out| - 1])
    ensures AllAccounted(messages, out[..|out| - 1] + [Append(out[|out| - 1], block)], origins)
  {
    var k := |out| - 1;
    var placed := out[..k] + [Append(out[k], block)];
    forall i | 0 <= i < |out| ensures Accounted(messages, placed, origins[i], i) {
      assert Accounted(messages, out, origins[i], i);
      if i == k && origins[i].Some? {
        ExtendsAgain(messages[origins[i].value], out[k], block);
      }
    }
  }

  lemma PlaceAccounts(before: seq<Json>, m: Json, out: seq<Json>, origins: seq<Option<nat>>)
    requires AllAccounted(before, out, origins)
    ensures AllAccounted(before + [m], Place(out, m), OneMoreOrigin(out, m, origins, |before|))
  {
    var messages := before + [m];
    AccountedAmongMore(before, m, out, origins);
    if !IsSystem(m) {
      AccountedAppended(messages, out, origins, m, Some(|before|));
    } else if Place(out, m) == out + [Standalone(Reminder(m))] {
      AccountedAppended(messages, out, origins, Standalone(Reminder(m)), None);
    } else if Place(out, m) != out {
      AccountedExtended(messages, out, origins, Reminder(m));
    }
  }

  lemma ExtendsAgain(was: Json, now: Json, block: Json)
    requires Extends(was, now) && IsUser(now)
    ensures Extends(was, Append(now, block))
  {
    FlatAppended(now, block);
    assert Append(now, block).fields - {"content"} == now.fields - {"content"};
  }

  lemma {:induction false} OriginsInOrder(messages: seq<Json>)
    ensures Known(Origins(messages)) == Others(messages)
  {
    if messages != [] {
      var before := messages[..|messages| - 1];
      OriginsInOrder(before);
      var o := Origins(before);
      assert (o + [Some(|before|)])[..|o|] == o && (o + [None])[..|o|] == o;
    }
  }

  lemma {:induction false} AllOriginsAccounted(messages: seq<Json>)
    ensures AllAccounted(messages, Rewrite(messages), Origins(messages))
  {
    if messages != [] {
      var before, m := messages[..|messages| - 1], messages[|messages| - 1];
      AllOriginsAccounted(before);
      SplitLast(messages);
      PlaceAccounts(before, m, Rewrite(before), Origins(before));
    }
  }

  /**
   The rewrite keeps every other message, in order, at most extended by blocks at the end
   of a user message; everything else in it is a user reminder that does not directly
   follow a tool call; no system message is left.
   */
  lemma RewriteAccounts(messages: seq<Json>)
    ensures AllAccounted(messages, Rewrite(messages), Origins(messages))
    ensures Known(Origins(messages)) == Others(messages)
    ensures forall i :: 0 <= i < |Rewrite(messages)| ==> !IsSystem(Rewrite(messages)[i])
  {
    AllOriginsAccounted(messages);
    OriginsInOrder(messages);
    var out := Rewrite(messages);
    forall i | 0 <= i < |out| ensures !IsSystem(out[i]) {
      assert Accounted(messages, out, Origins(messages)[i], i);
    }
  }

  /** A rewritten history is its own rewrite. */
  lemma RewriteIsIdempotent(messages: seq<Json>)
    ensures Rewrite(Rewrite(messages)) == Rewrite(messages)
  {
    RewriteAccounts(messages);
    NothingToRewrite(Rewrite(messages));
  }

  // ---- What a message contributes, from its own fields -----------------------

  predicate HoldsText(block: Json) {
    && block.Obj? && "type" in block.fields && block.fields["type"] == Str("text")
    && "text" in block.fields && block.fields["text"].Str?
  }

  function TextOf(block: Json): string {
    if HoldsText(block) then block.fields["text"].s else ""
  }

  lemma {:induction false} TextsArePicked(blocks: seq<Json>)
    ensures Picks(blocks, Texts(blocks), HoldsText, TextOf)
  {
    if blocks == [] {
      PicksNothing(HoldsText, TextOf);
    } else {
      TextsArePicked(blocks[1..]);
      PicksFirst(blocks[0], blocks[1..], Texts(blocks[1..]), HoldsText, TextOf);
      assert [blocks[0]] + blocks[1..] == blocks;
      assert [] + Texts(blocks[1..]) == Texts(blocks[1..]);
    }
  }

  /** The text of a content: the string it is, or that of all its text blocks, line by line. */
  ghost predicate IsTextOf(content: Json, text: string) {
    match content
    case Str(s) => text == s
    case Arr(items) => exists texts :: Picks(items, texts, HoldsText, TextOf) && text == JoinLines(texts)
    case _ => text == ""
  }

  lemma StringifyMeans(content: Json)
    ensures IsTextOf(content, Stringify(content))
  {
    if content.Arr? {
      TextsArePicked(content.items);
    }
  }

  /** A text block with a breakpoint of its own. */
  predicate Controls(block: Json) {
    block.Obj? && "type" in block.fields && block.fields["type"] == Str("text") && "cache_control" in block.fields
  }

  /** The breakpoint of a system message: that of its last text block with one, else its own. */
  predicate IsBreakpoint(m: Json, control: Json) {
    var content := Field(m, "content");
    if content.Arr? && exists i :: 0 <= i < |content.items| && Controls(content.items[i]) then
      exists i :: 0 <= i < |content.items| && Controls(content.items[i])
                  && control == content.items[i].fields["cache_control"]
                  && forall j :: i < j < |content.items| ==> !Controls(content.items[j])
    else control == Field(m, "cache_control")
  }

  lemma {:induction false} LastControlStands(blocks: seq<Json>, found: Json)
    ensures if exists i :: 0 <= i < |blocks| && Controls(blocks[i]) then
              exists i :: 0 <= i < |blocks| && Controls(blocks[i])
                          && LastCacheControl(blocks, found) == blocks[i].fields["cache_control"]
                          && forall j :: i < j < |blocks| ==> !Controls(blocks[j])
            else LastCacheControl(blocks, found) == found
  {
    if blocks != [] {
      var rest := blocks[1..];
      var next := if Controls(blocks[0]) then blocks[0].fields["cache_control"] else found;
      LastControlStands(rest, next);
      assert forall i :: 0 < i < |blocks| ==> blocks[i] == rest[i - 1];
      if k :| 0 <= k < |rest| && Controls(rest[k]) {
        var i :| 0 <= i < |rest| && Controls(rest[i]) && LastCacheControl(rest, next) == rest[i].fields["cache_control"]
                 && forall j :: i < j < |rest| ==> !Controls(rest[j]);
        assert Controls(blocks[i + 1]);
      }
    }
  }

  /** The reminder of a system message: its text inside the tags, and its breakpoint if it has one. */
  ghost predicate IsReminderOf(m: Json, block: Json) {
    exists text, control ::
      && IsTextOf(Field(m, "content"), text) && IsBreakpoint(m, control)
      && var fields := ReminderFields(text);
         block == Obj(if control == Null then fields else fields["cache_control" := control])
  }

  function ReminderFields(text: string): Fields {
    map["type" := Str("text"), "text" := Str("<system-reminder>\n" + text + "\n</system-reminder>")]
  }

  lemma ReminderMeans(m: Json)
    ensures IsReminderOf(m, Reminder(m))
  {
    StringifyMeans(Field(m, "content"));
    if Field(m, "content").Arr? {
      LastControlStands(Field(m, "content").items, Field(m, "cache_control"));
    }
    assert IsBreakpoint(m, CacheControl(m));
  }

  /** The content of a message as blocks: a string that is not empty is one text block. */
  predicate IsContentOf(m: Json, blocks: seq<Json>) {
    match Field(m, "content")
    case Str(s) => blocks == if s == "" then [] else [Obj(map["type" := Str("text"), "text" := Str(s)])]
    case Arr(items) => blocks == items
    case _ => blocks == []
  }

  /** An assistant message with a block that calls a tool. */
  predicate HasToolUse(m: Json) {
    && Field(m, "role") == Str("assistant") && Field(m, "content").Arr?
    && exists block :: block in Field(m, "content").items && Field(block, "type") == Str("tool_use")
  }

  predicate HasSystemRole(m: Json) {
    Field(m, "role") == Str("system")
  }

  /** The last message but for those at the end to be skipped is one of `kind`. */
  predicate EndsIn(messages: seq<Json>, skip: Json -> bool, kind: Json -> bool) {
    exists i :: 0 <= i < |messages| && !skip(messages[i]) && kind(messages[i])
                && forall j :: i < j < |messages| ==> skip(messages[j])
  }

  lemma OneMoreAtEnd(messages: seq<Json>, m: Json, skip: Json -> bool, kind: Json -> bool)
    ensures EndsIn(messages + [m], skip, kind) <==> if skip(m) then EndsIn(messages, skip, kind) else kind(m)
  {
    var all := messages + [m];
    if !skip(m) && kind(m) {
      assert all[|messages|] == m;
    }
    if skip(m) && EndsIn(messages, skip, kind) {
      var i :| 0 <= i < |messages| && !skip(messages[i]) && kind(messages[i])
               && forall j :: i < j < |messages| ==> skip(messages[j]);
      assert all[i] == messages[i];
    }
    if EndsIn(all, skip, kind) {
      var i :| 0 <= i < |all| && !skip(all[i]) && kind(all[i]) && forall j :: i < j < |all| ==> skip(all[j]);
      if i < |messages| {
        assert messages[i] == all[i] && all[|messages|] == m;
        assert forall j :: i < j < |messages| ==> messages[j] == all[j];
      }
    }
  }

  /** A tool call waits for its result: only system messages have come since. */
  predicate EndsInToolUse(messages: seq<Json>) {
    EndsIn(messages, HasSystemRole, HasToolUse)
  }

  lemma CallIsToolUse(m: Json)
    ensures CallsTool(m) <==> HasToolUse(m)
  {
    if HasToolUse(m) {
      var items := Field(m, "content").items;
      var block :| block in items && Field(block, "type") == Str("tool_use");
      var i :| 0 <= i < |items| && items[i] == block;
    }
  }

  lemma {:induction false} AwaitingMeans(messages: seq<Json>)
    ensures AwaitsToolResult(messages) <==> EndsInToolUse(messages)
  {
    if messages != [] {
      var init, last := messages[..|messages| - 1], messages[|messages| - 1];
      CallIsToolUse(last);
      AwaitingMeans(init);
      OneMoreAtEnd(init, last, HasSystemRole, HasToolUse);
      assert init + [last] == messages;
    }
  }

  /**
   What the message at `i` contributes to the rewrite, which reads as all contributions in
   order: its own blocks; or, for a system message with text, its reminder as a user's, unless
   the tool call before it still waits for its result.
   */
  lemma ContributionMeans(messages: seq<Json>, i: nat, blocks: seq<Json>)
    requires i < |messages| && IsContentOf(messages[i], blocks)
    ensures var m, part := messages[i], Contribution(messages[i], AwaitsToolResult(messages[..i]));
            if Field(m, "role") != Str("system") then
              |part| == |blocks| && forall k :: 0 <= k < |blocks| ==> part[k] == Pair(Field(m, "role"), blocks[k])
            else if EndsInToolUse(messages[..i]) then part == []
            else
              || (part == [] && IsTextOf(Field(m, "content"), ""))
              || (exists block :: part == [Pair(Str("user"), block)] && IsReminderOf(m, block))
  {
    AwaitingMeans(messages[..i]);
    StringifyMeans(Field(messages[i], "content"));
    ReminderMeans(messages[i]);
  }
}
