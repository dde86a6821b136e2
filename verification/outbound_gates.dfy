/**
 What the gates of `anthrouter/mapper/anthropic_transform.py` achieve together: the final
 body passes every one of them at once, a request is changed only when one of them has to,
 and the beta header agrees with the body it travels with.
 */
module OutboundGates {
  import opened Common
  import opened Text
  import opened Json
  import opened ModelConfig
  import opened InlineSystem
  import opened AnthropicTransform

  // ---- What a model accepts --------------------------------------------------

  predicate Thinks(body: Request) {
    var thinking := Lookup(body, Thinking);
    ThinkingType(thinking, "enabled") || ThinkingType(thinking, "adaptive")
  }

  predicate CeilingKept(body: Request, model: string) {
    var given := Lookup(body, MaxTokens);
    model in MODEL_OUTPUT_LIMITS && given.Int? ==> given.n <= MODEL_OUTPUT_LIMITS[model]
  }

  predicate ThinkingAccepted(body: Request, t: Traits) {
    var thinking := Lookup(body, Thinking);
    var effort := Field(Lookup(body, OutputConfig), "effort");
    && (t.pre55Haiku ==> !ThinkingType(thinking, "adaptive"))
    && (t.fable || t.sonnet55 || (t.haiku55 && effort in HIGH_EFFORTS) ==> !ThinkingType(thinking, "disabled"))
  }

  predicate NoEditNeedsThinking(edits: seq<Json>) {
    edits == [] || (!NeedsThinking(edits[0]) && NoEditNeedsThinking(edits[1..]))
  }

  predicate EditsAccepted(body: Request) {
    var edits := Field(Lookup(body, ContextManagement), "edits");
    !Thinks(body) && edits.Arr? ==> NoEditNeedsThinking(edits.items)
  }

  predicate NoSystemTurn(messages: seq<Json>) {
    forall i :: 0 <= i < |messages| ==> !IsSystem(messages[i])
  }

  predicate NoTurnEffort(messages: seq<Json>) {
    forall i :: 0 <= i < |messages| ==> !HasField(Field(messages[i], "output_config"), "effort")
  }

  predicate MessagesAccepted(body: Request, t: Traits, betas: seq<string>, force: bool) {
    var messages := Lookup(body, Messages);
    messages.Arr? ==>
      && (!SupportsPerMessageEffort(t, betas) ==> NoTurnEffort(messages.items))
      && (force || t.rejectsSystemRole ==> NoSystemTurn(messages.items))
  }

  /**
   Everything the gates know the resolved model to reject is absent.  Two documented rejections
   have no gate: manual 'enabled' thinking on Haiku 5.5, and 'between_tools' beside the highest
   efforts on Sonnet 5.5, of which `BetweenToolsAtHighEffort` tells.
   */
  predicate Accepted(body: Request, model: string, t: Traits, betas: seq<string>, force: bool) {
    && Fallbacks !in body
    && CeilingKept(body, model)
    && (t.pre55Haiku ==> !HasField(Lookup(body, OutputConfig), "effort"))
    && ThinkingAccepted(body, t)
    && EditsAccepted(body)
    && (t.fixedSampling ==> SAMPLING_KEYS !! body.Keys)
    && MessagesAccepted(body, t, betas, force)
  }

  // ---- The final body passes every gate --------------------------------------

  lemma FieldAt(q: Query, model: string, t: Traits, body: Request, key: Key)
    requires IsBody(q, model, t, body)
    ensures At(body, key) == FieldOut(q, model, t, key)
  {
  }

  lemma OutputConfigAt(q: Query, model: string, t: Traits, body: Request)
    requires IsBody(q, model, t, body)
    ensures At(body, OutputConfig) == OutputConfigOut(q, t)
    ensures Field(Lookup(body, OutputConfig), "effort") == Effort(OutputConfigOut(q, t))
  {
    FieldAt(q, model, t, body, OutputConfig);
    FieldOutSettles(q, model, t);
  }

  lemma ThinkingAt(q: Query, model: string, t: Traits, body: Request)
    requires IsBody(q, model, t, body)
    ensures At(body, Thinking) == ThinkingOut(q, t)
  {
    FieldAt(q, model, t, body, Thinking);
    FieldOutSettles(q, model, t);
  }

  /** The predicate both strips are keyed on is exactly whether the outbound body thinks. */
  lemma ActiveMeansOutboundThinks(q: Query, model: string, t: Traits, body: Request)
    requires IsBody(q, model, t, body)
    ensures ThinkingActive(q.fields, t) <==> Thinks(body)
  {
    ThinkingAt(q, model, t, body);
  }

  lemma ThinkingPasses(q: Query, model: string, t: Traits, body: Request)
    requires IsBody(q, model, t, body)
    ensures ThinkingAccepted(body, t)
  {
    ThinkingAt(q, model, t, body);
    OutputConfigAt(q, model, t, body);
  }

  lemma EffortPasses(q: Query, model: string, t: Traits, body: Request)
    requires IsBody(q, model, t, body) && t.pre55Haiku && !t.haiku55
    ensures !HasField(Lookup(body, OutputConfig), "effort")
  {
    OutputConfigAt(q, model, t, body);
  }

  lemma {:induction false} KeptEditsPass(edits: seq<Json>)
    ensures NoEditNeedsThinking(KeptEdits(edits))
  {
    if edits != [] {
      KeptEditsPass(edits[1..]);
      if !NeedsThinking(edits[0]) {
        assert KeptEdits(edits)[1..] == KeptEdits(edits[1..]);
      } else {
        assert KeptEdits(edits) == KeptEdits(edits[1..]);
      }
    }
  }

  lemma {:induction false} NothingToDrop(edits: seq<Json>)
    ensures |KeptEdits(edits)| == |edits| <==> NoEditNeedsThinking(edits)
  {
    if edits != [] {
      NothingToDrop(edits[1..]);
    }
  }

  lemma EditsPass(q: Query, model: string, t: Traits, body: Request)
    requires IsBody(q, model, t, body)
    ensures EditsAccepted(body)
  {
    ActiveMeansOutboundThinks(q, model, t, body);
    FieldAt(q, model, t, body, ContextManagement);
    FieldOutSettles(q, model, t);
    var given := Given(q, ContextManagement);
    if !Thinks(body) && given.Some? && Field(given.value, "edits").Arr? {
      var edits := given.value.fields["edits"].items;
      KeptEditsPass(edits);
      NothingToDrop(edits);
    }
  }

  lemma WithoutEffortPasses(m: Json)
    ensures !HasField(Field(MessageWithoutEffort(m), "output_config"), "effort")
    ensures IsSystem(MessageWithoutEffort(m)) == IsSystem(m)
  {
  }

  lemma MessagesWithoutEffortPass(messages: seq<Json>)
    ensures NoTurnEffort(MessagesWithoutEffort(messages))
  {
    forall i | 0 <= i < |messages|
      ensures !HasField(Field(MessagesWithoutEffort(messages)[i], "output_config"), "effort")
    {
      WithoutEffortPasses(messages[i]);
    }
  }

  /** The rewrite adds no effort: a reminder carries none, an extended turn keeps its own. */
  lemma {:induction false} RewriteKeepsEffortOut(messages: seq<Json>)
    requires NoTurnEffort(messages)
    ensures NoTurnEffort(Rewrite(messages)) && NoSystemTurn(Rewrite(messages))
  {
    if messages != [] {
      var last := |messages| - 1;
      RewriteKeepsEffortOut(messages[..last]);
      PlaceKeepsEffortOut(Rewrite(messages[..last]), messages[last]);
    }
  }

  lemma {:induction false} RewriteLeavesNoSystemTurn(messages: seq<Json>)
    ensures NoSystemTurn(Rewrite(messages))
  {
    if messages != [] {
      var last := |messages| - 1;
      RewriteLeavesNoSystemTurn(messages[..last]);
      PlaceLeavesNoSystemTurn(Rewrite(messages[..last]), messages[last]);
    }
  }

  lemma PlaceLeavesNoSystemTurn(out: seq<Json>, m: Json)
    requires NoSystemTurn(out)
    ensures NoSystemTurn(Place(out, m))
  {
    if out != [] && IsUser(out[|out| - 1]) {
      assert !IsSystem(Append(out[|out| - 1], Reminder(m)));
    }
    assert !IsSystem(Standalone(Reminder(m)));
  }

  lemma PlaceKeepsEffortOut(out: seq<Json>, m: Json)
    requires NoTurnEffort(out) && NoSystemTurn(out)
    requires !HasField(Field(m, "output_config"), "effort")
    ensures NoTurnEffort(Place(out, m)) && NoSystemTurn(Place(out, m))
  {
    PlaceLeavesNoSystemTurn(out, m);
    if out != [] && IsUser(out[|out| - 1]) {
      var extended := Append(out[|out| - 1], Reminder(m));
      assert Field(extended, "output_config") == Field(out[|out| - 1], "output_config");
    }
    assert Field(Standalone(Reminder(m)), "output_config") == Null;
  }

  lemma MessagesPass(q: Query, model: string, t: Traits, body: Request)
    requires IsBody(q, model, t, body)
    ensures MessagesAccepted(body, t, q.betas, q.force)
  {
    FieldAt(q, model, t, body, Messages);
    var given := Given(q, Messages);
    if given.Some? && given.value.Arr? {
      var messages := given.value.items;
      MessagesWithoutEffortPass(messages);
      if SupportsPerMessageEffort(t, q.betas) {
        RewriteLeavesNoSystemTurn(messages);
      } else {
        RewriteKeepsEffortOut(MessagesWithoutEffort(messages));
      }
    }
  }

  lemma CeilingPasses(q: Query, model: string, t: Traits, body: Request)
    requires IsBody(q, model, t, body)
    ensures CeilingKept(body, model)
  {
    FieldAt(q, model, t, body, MaxTokens);
    FieldOutSettles(q, model, t);
  }

  lemma DroppedFields(q: Query, model: string, t: Traits, body: Request)
    requires IsBody(q, model, t, body)
    ensures Fallbacks !in body && BetaList !in body && ClassifierMark !in body
    ensures t.fixedSampling ==> SAMPLING_KEYS !! body.Keys
  {
    FieldAt(q, model, t, body, Fallbacks);
    FieldAt(q, model, t, body, BetaList);
    FieldAt(q, model, t, body, ClassifierMark);
    if t.fixedSampling {
      forall key | key in SAMPLING_KEYS ensures key !in body {
        FieldAt(q, model, t, body, key);
        FieldOutSampled(q, model, t, key);
      }
    }
  }

  /** Whatever the request and the aliases, and despite the order of the gates, all of them hold at the end. */
  lemma FinalBodyPassesEveryGate(q: Query, model: string, t: Traits, body: Request)
    requires IsBody(q, model, t, body) && !(t.pre55Haiku && t.haiku55)
    ensures Accepted(body, model, t, q.betas, q.force)
  {
    DroppedFields(q, model, t, body);
    CeilingPasses(q, model, t, body);
    if t.pre55Haiku {
      EffortPasses(q, model, t, body);
    }
    ThinkingPasses(q, model, t, body);
    EditsPass(q, model, t, body);
    MessagesPass(q, model, t, body);
  }

  // ---- A request is changed only where a gate has to -------------------------

  /** The request with its model resolved and its internal fields removed. */
  function Plain(q: Query, model: string): Request {
    (q.fields - {BetaList, ClassifierMark})[Model := Str(model)]
  }

  lemma PlainField(q: Query, model: string, key: Key)
    ensures At(Plain(q, model), key) == if key == Fallbacks then Given(q, key) else EnteredOut(q, model, key)
  {
  }

  lemma {:induction false} EffortFreeMessagesStay(messages: seq<Json>)
    requires NoTurnEffort(messages)
    ensures MessagesWithoutEffort(messages) == messages
  {
    forall i | 0 <= i < |messages| ensures MessagesWithoutEffort(messages)[i] == messages[i] {
    }
  }

  lemma AcceptedMessagesStay(q: Query, model: string, t: Traits)
    requires MessagesAccepted(Plain(q, model), t, q.betas, q.force)
    ensures MessagesOut(q, t) == Given(q, Messages)
  {
    PlainField(q, model, Messages);
    var given := Given(q, Messages);
    if given.Some? && given.value.Arr? {
      var messages := given.value.items;
      if !SupportsPerMessageEffort(t, q.betas) {
        EffortFreeMessagesStay(messages);
      }
      if q.force || t.rejectsSystemRole {
        NothingToRewrite(messages);
      }
    }
  }

  lemma AcceptedConfigStays(q: Query, model: string, t: Traits)
    requires !FromClassifier(q)
    requires t.pre55Haiku ==> !HasField(Lookup(Plain(q, model), OutputConfig), "effort")
    ensures OutputConfigOut(q, t) == Given(q, OutputConfig)
  {
    PlainField(q, model, OutputConfig);
  }

  lemma AcceptedThinkingStays(q: Query, model: string, t: Traits)
    requires OutputConfigOut(q, t) == Given(q, OutputConfig)
    requires ThinkingAccepted(Plain(q, model), t)
    ensures ThinkingOut(q, t) == Given(q, Thinking)
    ensures ThinkingActive(q.fields, t) == Thinks(Plain(q, model))
  {
    PlainField(q, model, Thinking);
    PlainField(q, model, OutputConfig);
  }

  lemma AcceptedEditsStay(q: Query, model: string, t: Traits)
    requires ThinkingActive(q.fields, t) == Thinks(Plain(q, model)) && EditsAccepted(Plain(q, model))
    ensures ContextOut(q, t) == Given(q, ContextManagement)
  {
    PlainField(q, model, ContextManagement);
    var given := Given(q, ContextManagement);
    if given.Some? && Field(given.value, "edits").Arr? {
      NothingToDrop(given.value.fields["edits"].items);
    }
  }

  lemma AcceptedCeilingStays(q: Query, model: string)
    requires CeilingKept(Plain(q, model), model)
    ensures MaxTokensOut(q, model) == Given(q, MaxTokens)
  {
    PlainField(q, model, MaxTokens);
  }

  lemma AcceptedFieldStays(q: Query, model: string, t: Traits, key: Key)
    requires !FromClassifier(q) && Accepted(Plain(q, model), model, t, q.betas, q.force)
    ensures FieldOut(q, model, t, key) == At(Plain(q, model), key)
  {
    PlainField(q, model, key);
    AcceptedConfigStays(q, model, t);
    AcceptedThinkingStays(q, model, t);
    match key
    case Messages => AcceptedMessagesStay(q, model, t);
    case MaxTokens => AcceptedCeilingStays(q, model);
    case ContextManagement => AcceptedEditsStay(q, model, t);
    case _ =>
  }

  /** A body is what its fields say. */
  lemma SameFields(a: Request, b: Request)
    requires forall key :: At(a, key) == At(b, key)
    ensures a == b
  {
    forall key ensures key in a <==> key in b {
      assert At(a, key) == At(b, key);
    }
    forall key | key in a ensures a[key] == b[key] {
      assert At(a, key) == At(b, key);
    }
  }

  /** A client's request crosses unchanged if and only if its model accepts it as it stands. */
  lemma OnlyRejectedRequestsChange(q: Query, model: string, t: Traits, body: Request)
    requires IsBody(q, model, t, body) && !(t.pre55Haiku && t.haiku55) && !FromClassifier(q)
    ensures body == Plain(q, model) <==> Accepted(Plain(q, model), model, t, q.betas, q.force)
  {
    FinalBodyPassesEveryGate(q, model, t, body);
    if Accepted(Plain(q, model), model, t, q.betas, q.force) {
      forall key ensures At(body, key) == At(Plain(q, model), key) {
        AcceptedFieldStays(q, model, t, key);
        FieldAt(q, model, t, body, key);
      }
      SameFields(body, Plain(q, model));
    }
  }

  /** Building again what was built, for the same model, changes nothing. */
  lemma RebuildingChangesNothing(q: Query, model: string, t: Traits, body: Request, again: Request)
    requires IsBody(q, model, t, body) && !(t.pre55Haiku && t.haiku55)
    requires IsBody(Query(body, q.betas, q.aliases, q.force), model, t, again)
    ensures again == body
  {
    var second := Query(body, q.betas, q.aliases, q.force);
    DroppedFields(q, model, t, body);
    FieldAt(q, model, t, body, Model);
    assert Plain(second, model) == body;
    FinalBodyPassesEveryGate(q, model, t, body);
    OnlyRejectedRequestsChange(second, model, t, again);
  }

  /**
   Sonnet 5.5 refuses 'between_tools' at the highest efforts too.  The gate never introduces
   that pair; it crosses exactly when the client sent 'between_tools' itself.
   */
  lemma BetweenToolsAtHighEffort(q: Query, model: string, t: Traits, body: Request)
    requires IsBody(q, model, t, body) && t.sonnet55
    ensures var effort := Field(Lookup(body, OutputConfig), "effort");
            effort in HIGH_EFFORTS ==>
              (ThinkingType(Lookup(body, Thinking), "between_tools")
               <==> ThinkingType(Lookup(q.fields, Thinking), "between_tools"))
  {
    ThinkingAt(q, model, t, body);
    OutputConfigAt(q, model, t, body);
  }

  const SONNET := "claude-" + "sonnet-5-5"

  lemma SonnetTraits()
    ensures TraitsOf(SONNET).sonnet55 && !TraitsOf(SONNET).fable && !TraitsOf(SONNET).pre55Haiku
    ensures !TraitsOf(SONNET).haiku55
  {
    assert Lower(SONNET) == SONNET;
    ContainsTail("claude-", "sonnet-5-5");
    ContainsNeedsFirst(SONNET, "fable");
    ContainsNeedsFirst(SONNET, "haiku");
    ContainsNeedsFirst(SONNET, "haiku-5-5");
  }

  function ThinkingQuery(kind: string, effort: Json): Query {
    Query(map[Model := Str("sonnet"), Thinking := Obj(map["type" := Str(kind)]),
              OutputConfig := Obj(map["effort" := effort])], [], map[], false)
  }

  lemma SonnetResolves(q: Query)
    requires Lookup(q.fields, Model) == Str("sonnet") && q.aliases == map[]
    ensures ResolvedModel(q) == Some(SONNET)
  {
    assert MODEL_ALIASES + q.aliases == MODEL_ALIASES;
    assert "sonnet" in MODEL_ALIASES && MODEL_ALIASES["sonnet"] == SONNET;
  }

  /** The body built for a query carries 'between_tools' beside one of the highest efforts. */
  ghost predicate PairCrosses(q: Query, model: string, t: Traits, body: Request) {
    && IsBody(q, model, t, body) && t.sonnet55
    && Field(Lookup(body, OutputConfig), "effort") in HIGH_EFFORTS
    && ThinkingType(Lookup(body, Thinking), "between_tools")
  }

  lemma PairIsLeftAlone(q: Query, model: string, t: Traits, key: Key)
    requires q == ThinkingQuery("between_tools", Str("max")) && !t.pre55Haiku && !t.haiku55
    ensures FieldOut(q, model, t, key) == if key == Model then Some(Str(model)) else Given(q, key)
  {
    assert !FromClassifier(q);
  }

  lemma MostEffortKeepsPair(q: Query, model: string, t: Traits)
    requires q == ThinkingQuery("between_tools", Str("max")) && t.sonnet55 && !t.pre55Haiku && !t.haiku55
    ensures PairCrosses(q, model, t, q.fields[Model := Str(model)])
  {
    forall key ensures FieldOut(q, model, t, key) == if key == Model then Some(Str(model)) else Given(q, key) {
      PairIsLeftAlone(q, model, t, key);
    }
  }

  /** The pair does cross: the body of this request is refused by the model it is for. */
  lemma HighEffortBetweenToolsCrosses()
    ensures exists q: Query, body: Request ::
              ResolvedModel(q) == Some(SONNET) && PairCrosses(q, SONNET, TraitsOf(SONNET), body)
  {
    var q := ThinkingQuery("between_tools", Str("max"));
    SonnetTraits();
    SonnetResolves(q);
    MostEffortKeepsPair(q, SONNET, TraitsOf(SONNET));
  }

  lemma ListEffortFails(q: Query, t: Traits)
    requires q == ThinkingQuery("disabled", Arr([])) && t.sonnet55 && !t.pre55Haiku && !t.haiku55 && !t.fable
    ensures EffortLookupFails(q, t)
  {
    assert !FromClassifier(q);
  }

  /** An effort that is a list makes the lookup behind 'disabled' thinking raise. */
  lemma UnhashableEffortRaises()
    ensures exists q: Query :: ResolvedModel(q) == Some(SONNET) && EffortLookupFails(q, TraitsOf(SONNET))
  {
    var q := ThinkingQuery("disabled", Arr([]));
    SonnetTraits();
    SonnetResolves(q);
    ListEffortFails(q, TraitsOf(SONNET));
  }

  // ---- The beta header -------------------------------------------------------

  const THINKING_BETA := "clear_thinking_20251015"
  const FALLBACK_PREFIX := "server-side-fallback"

  /** The traits the beta strips go by; a missing model is none of the families. */
  function BetaTraits(q: Query): Traits {
    TraitsOf(match ResolvedModel(q) case None => "" case Some(model) => model)
  }

  predicate BetaAllowed(beta: string, active: bool, opus: bool) {
    && (beta == THINKING_BETA ==> active)
    && (StartsWith(beta, LONG_CONTEXT_PREFIX) ==> opus)
    && !StartsWith(beta, FALLBACK_PREFIX)
  }

  /** The allowed betas in the order of their first appearance. */
  function Merged(betas: seq<string>, active: bool, opus: bool): seq<string> {
    if betas == [] then []
    else
      var before := Merged(betas[..|betas| - 1], active, opus);
      var beta := betas[|betas| - 1];
      if BetaAllowed(beta, active, opus) && beta !in before then before + [beta] else before
  }

  method MergeBetas(q: Query) returns (betas: seq<string>)
    ensures betas == Merged(q.betas, ThinkingActive(q.fields, BetaTraits(q)), BetaTraits(q).opus)
  {
    var t := BetaTraits(q);
    var active := ThinkingActive(q.fields, t);
    betas := [];
    var seen: set<string> := {};
    for i := 0 to |q.betas|
      invariant betas == Merged(q.betas[..i], active, t.opus)
      invariant forall beta :: beta in seen <==> beta in betas
    {
      var beta := q.betas[i];
      assert q.betas[..i + 1][..i] == q.betas[..i];
      if !active && beta == THINKING_BETA {
        continue;
      }
      if !t.opus && StartsWith(beta, LONG_CONTEXT_PREFIX) {
        continue;
      }
      if StartsWith(beta, FALLBACK_PREFIX) {
        continue;
      }
      if beta !in seen {
        betas := betas + [beta];
        seen := seen + {beta};
      }
    }
    assert q.betas[..|q.betas|] == q.betas;
  }

  /** Exactly the client's own allowed betas are sent, each once. */
  lemma {:induction false} MergedBetas(betas: seq<string>, active: bool, opus: bool, beta: string)
    ensures beta in Merged(betas, active, opus) <==> beta in betas && BetaAllowed(beta, active, opus)
    ensures NoDuplicates(Merged(betas, active, opus))
  {
    if betas != [] {
      var init, last := betas[..|betas| - 1], betas[|betas| - 1];
      assert betas == init + [last];
      MergedBetas(init, active, opus, beta);
      if last !in Merged(init, active, opus) {
        AppendKeepsDistinct(Merged(init, active, opus), last);
      }
    }
  }

  /** Later betas never reorder earlier ones. */
  lemma {:induction false} MergedIsAppendOnly(betas: seq<string>, more: seq<string>, active: bool, opus: bool)
    ensures Merged(betas, active, opus) <= Merged(betas + more, active, opus)
  {
    if more == [] {
      assert betas + more == betas;
    } else {
      var last := |more| - 1;
      MergedIsAppendOnly(betas, more[..last], active, opus);
      assert (betas + more)[..|betas + more| - 1] == betas + more[..last];
    }
  }

  /**
   The header and the body agree: the clear_thinking beta is sent if and only if the client
   asked for it and the body that carries it thinks.
   */
  lemma BetasMatchBody(q: Query, model: string, body: Request)
    requires ResolvedModel(q) == Some(model) && IsBody(q, model, TraitsOf(model), body)
    ensures var sent := Merged(q.betas, ThinkingActive(q.fields, BetaTraits(q)), BetaTraits(q).opus);
            && (THINKING_BETA in sent <==> THINKING_BETA in q.betas && Thinks(body))
            && (forall beta :: beta in sent && StartsWith(beta, LONG_CONTEXT_PREFIX) ==> Mentions(model, "opus"))
  {
    var t := TraitsOf(model);
    var active := ThinkingActive(q.fields, t);
    ActiveMeansOutboundThinks(q, model, t, body);
    MergedBetas(q.betas, active, t.opus, THINKING_BETA);
    assert THINKING_BETA[0] == 'c' && THINKING_BETA[1] == 'l';
    assert LONG_CONTEXT_PREFIX[1] == 'o' && FALLBACK_PREFIX[0] == 's';
    forall beta | beta in Merged(q.betas, active, t.opus) && StartsWith(beta, LONG_CONTEXT_PREFIX)
      ensures Mentions(model, "opus")
    {
      MergedBetas(q.betas, active, t.opus, beta);
    }
  }
}
