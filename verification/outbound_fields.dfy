/**
 What every field of an outbound body holds (`anthrouter/mapper/anthropic_transform.py`), said
 of the request, the resolved model id and the rest of the body: what each gate leaves.
 */
module OutboundFields {
  import opened Common
  import opened Text
  import opened Json
  import opened ModelConfig
  import opened InlineSystem
  import opened AnthropicTransform
  import opened OutboundGates

  /** Haiku 4.x and before. */
  predicate IsOldHaiku(model: string) {
    Contains(Lower(model), "haiku") && !Contains(Lower(model), "haiku-5-5")
  }

  predicate IsHaiku55(model: string) {
    Contains(Lower(model), "haiku-5-5")
  }

  predicate IsFable(model: string) {
    Contains(Lower(model), "fable")
  }

  predicate IsSonnet55(model: string) {
    Contains(Lower(model), "sonnet-5-5")
  }

  predicate MentionsAny(model: string, families: seq<string>) {
    exists i :: 0 <= i < |families| && Contains(Lower(model), families[i])
  }

  const FIXED_SAMPLING_FAMILIES := ["opus-4-7", "opus-4-8", "opus-5", "sonnet-4-6", "haiku-5-5", "fable"]
  const SYSTEM_ROLE_REJECTING_FAMILIES :=
    ["sonnet-4-6", "claude-4-5-sonnet", "claude-sonnet-4-6", "claude-haiku-4-5-20251001", "haiku-4-5"]

  lemma TraitsMean(model: string)
    ensures var t := TraitsOf(model);
            && t.pre55Haiku == IsOldHaiku(model) && t.haiku55 == IsHaiku55(model) && t.fable == IsFable(model)
            && t.sonnet55 == IsSonnet55(model) && t.opus == Contains(Lower(model), "opus")
            && t.fixedSampling == MentionsAny(model, FIXED_SAMPLING_FAMILIES)
            && t.rejectsSystemRole == MentionsAny(model, SYSTEM_ROLE_REJECTING_FAMILIES)
  {
    var a, b := FIXED_SAMPLING_FAMILIES, SYSTEM_ROLE_REJECTING_FAMILIES;
    forall i | 0 <= i < |a| && Contains(Lower(model), a[i]) ensures TraitsOf(model).fixedSampling {
      assert a[i] == a[0] || a[i] == a[1] || a[i] == a[2] || a[i] == a[3] || a[i] == a[4] || a[i] == a[5];
    }
    forall i | 0 <= i < |b| && Contains(Lower(model), b[i]) ensures TraitsOf(model).rejectsSystemRole {
      assert b[i] == b[0] || b[i] == b[1] || b[i] == b[2] || b[i] == b[3] || b[i] == b[4];
    }
    assert a[0] == "opus-4-7" && a[1] == "opus-4-8" && a[2] == "opus-5" && a[3] == "sonnet-4-6";
    assert a[4] == "haiku-5-5" && a[5] == "fable";
    assert b[0] == "sonnet-4-6" && b[1] == "claude-4-5-sonnet" && b[2] == "claude-sonnet-4-6";
    assert b[3] == "claude-haiku-4-5-20251001" && b[4] == "haiku-4-5";
  }

  // ---- Field by field --------------------------------------------------------

  predicate AsGiven(q: Query, body: Request, key: Key) {
    if key in q.fields then key in body && body[key] == q.fields[key] else key !in body
  }

  predicate Holds(body: Request, key: Key, value: Json) {
    key in body && body[key] == value
  }

  /** A call of the proxy's own classifier, which marks its requests. */
  predicate IsOwnCall(q: Query) {
    Truthy(Lookup(q.fields, ClassifierMark))
  }

  /** An integer over the model's ceiling becomes the ceiling. */
  predicate Clamped(q: Query, model: string, body: Request) {
    if model in MODEL_OUTPUT_LIMITS && Lookup(q.fields, MaxTokens).Int?
       && Lookup(q.fields, MaxTokens).n > MODEL_OUTPUT_LIMITS[model]
    then Holds(body, MaxTokens, Int(MODEL_OUTPUT_LIMITS[model]))
    else AsGiven(q, body, MaxTokens)
  }

  predicate HasEffort(config: Json) {
    config.Obj? && "effort" in config.fields
  }

  function FieldsOf(j: Json): Fields {
    if j.Obj? then j.fields else map[]
  }

  /** A classifier call to Haiku 5.5 asks for low effort; an old Haiku gets no effort; else as given. */
  predicate Configured(q: Query, model: string, body: Request) {
    var given := Lookup(q.fields, OutputConfig);
    if IsOwnCall(q) && IsHaiku55(model) then
      && Lookup(body, OutputConfig).Obj?
      && Get(Lookup(body, OutputConfig).fields, "effort") == Str("low")
      && Lookup(body, OutputConfig).fields - {"effort"} == FieldsOf(given) - {"effort"}
    else if IsOldHaiku(model) && HasEffort(given) then
      if given.fields.Keys == {"effort"} then OutputConfig !in body
      else Holds(body, OutputConfig, Obj(given.fields - {"effort"}))
    else AsGiven(q, body, OutputConfig)
  }

  /** A classifier call introduces itself in front of its own system prompt. */
  predicate Introduced(q: Query, body: Request) {
    var identity := TextBlock("You are Claude Code, Anthropic's official CLI for Claude.");
    if !IsOwnCall(q) then AsGiven(q, body, SystemPrompt)
    else
      match Lookup(q.fields, SystemPrompt)
      case Null => Holds(body, SystemPrompt, Arr([identity]))
      case Str(s) => Holds(body, SystemPrompt, Arr(if s == "" then [identity] else [identity, TextBlock(s)]))
      case Arr(items) => Holds(body, SystemPrompt, Arr([identity] + items))
      case _ => AsGiven(q, body, SystemPrompt)
  }

  predicate IsOfType(thinking: Json, kind: string) {
    thinking.Obj? && "type" in thinking.fields && thinking.fields["type"] == Str(kind)
  }

  /** Whether the effort that goes out is one of the two highest. */
  predicate EffortIsHigh(body: Request) {
    HasEffort(Lookup(body, OutputConfig)) && Lookup(body, OutputConfig).fields["effort"] in {Str("xhigh"), Str("max")}
  }

  /** What a family does not take is dropped, or becomes 'between_tools' on Sonnet 5.5. */
  predicate Thought(q: Query, model: string, body: Request) {
    var given := Lookup(q.fields, Thinking);
    if IsOfType(given, "adaptive") && IsOldHaiku(model) then Thinking !in body
    else if IsOfType(given, "disabled") && IsFable(model) then Thinking !in body
    else if IsOfType(given, "disabled") && (IsSonnet55(model) || IsHaiku55(model)) && EffortIsHigh(body) then
      Thinking !in body
    else if IsOfType(given, "disabled") && IsSonnet55(model) then
      Holds(body, Thinking, Obj(map["type" := Str("between_tools")]))
    else AsGiven(q, body, Thinking)
  }

  /** An edit of the kind that needs thinking. */
  predicate ClearsThinking(edit: Json) {
    edit.Obj? && "type" in edit.fields && edit.fields["type"].Str? && "clear_thinking" <= edit.fields["type"].s
  }

  predicate CanStay(edit: Json) {
    !ClearsThinking(edit)
  }

  predicate BodyThinks(body: Request) {
    IsOfType(Lookup(body, Thinking), "enabled") || IsOfType(Lookup(body, Thinking), "adaptive")
  }

  /** Without thinking, exactly the edits that need none are left; a field that is left empty goes. */
  ghost predicate Edited(q: Query, body: Request) {
    var given := Lookup(q.fields, ContextManagement);
    if BodyThinks(body) || !given.Obj? || "edits" !in given.fields || !given.fields["edits"].Arr? then
      AsGiven(q, body, ContextManagement)
    else
      exists kept :: Picks(given.fields["edits"].items, kept, CanStay, Itself)
        && if kept == given.fields["edits"].items then AsGiven(q, body, ContextManagement)
           else if kept != [] then Holds(body, ContextManagement, Obj(given.fields["edits" := Arr(kept)]))
           else if given.fields.Keys == {"edits"} then ContextManagement !in body
           else Holds(body, ContextManagement, Obj(given.fields - {"edits"}))
  }

  predicate Sampled(q: Query, model: string, body: Request, key: Key) {
    if MentionsAny(model, FIXED_SAMPLING_FAMILIES) then key !in body else AsGiven(q, body, key)
  }

  /** A message without the effort it asks for, and otherwise as it was. */
  predicate LosesEffort(m: Json, r: Json) {
    if !(m.Obj? && "output_config" in m.fields && HasEffort(m.fields["output_config"])) then r == m
    else
      var config := m.fields["output_config"];
      && r.Obj? && r.fields - {"output_config"} == m.fields - {"output_config"}
      && if config.fields.Keys == {"effort"} then "output_config" !in r.fields
         else "output_config" in r.fields && r.fields["output_config"] == Obj(config.fields - {"effort"})
  }

  /** Fable takes efforts inside messages only with the beta for them. */
  predicate RefusesMessageEffort(model: string, betas: seq<string>) {
    IsFable(model) && !exists i :: 0 <= i < |betas| && "mid-conversation-output-config" <= betas[i]
  }

  /** The messages once those that refuse them have lost their efforts. */
  ghost predicate Unburdened(model: string, betas: seq<string>, messages: seq<Json>, gated: seq<Json>) {
    if !RefusesMessageEffort(model, betas) then gated == messages
    else |gated| == |messages| && forall i :: 0 <= i < |gated| ==> LosesEffort(messages[i], gated[i])
  }

  predicate RejectsSystemRole(q: Query, model: string) {
    q.force || MentionsAny(model, SYSTEM_ROLE_REJECTING_FAMILIES)
  }

  /** The messages lose their efforts if need be, and then their system turns. */
  ghost predicate Gated(q: Query, model: string, body: Request) {
    var given := Lookup(q.fields, Messages);
    if !given.Arr? then AsGiven(q, body, Messages)
    else
      exists gated ::
        && Unburdened(model, q.betas, given.items, gated)
        && Holds(body, Messages, Arr(if RejectsSystemRole(q, model) then Rewrite(gated) else gated))
  }

  /** All there is to say of one field of the body. */
  ghost predicate Accounted(q: Query, model: string, body: Request, key: Key) {
    match key
    case Model => Holds(body, Model, Str(model))
    case Messages => Gated(q, model, body)
    case SystemPrompt => Introduced(q, body)
    case MaxTokens => Clamped(q, model, body)
    case Thinking => Thought(q, model, body)
    case OutputConfig => Configured(q, model, body)
    case ContextManagement => Edited(q, body)
    case Temperature => Sampled(q, model, body, Temperature)
    case TopP => Sampled(q, model, body, TopP)
    case TopK => Sampled(q, model, body, TopK)
    case Fallbacks => key !in body
    case BetaList => key !in body
    case ClassifierMark => key !in body
    case Named(_) => AsGiven(q, body, key)
  }

  lemma ConfiguredBody(q: Query, model: string, body: Request)
    requires IsBody(q, model, TraitsOf(model), body)
    ensures Configured(q, model, body)
  {
    OutputConfigAt(q, model, TraitsOf(model), body);
    TraitsMean(model);
    var given := Lookup(q.fields, OutputConfig);
    if HasEffort(given) {
      OnlyKey(given.fields, "effort");
    }
    if IsOwnCall(q) && IsHaiku55(model) {
      assert given == if OutputConfig in q.fields then q.fields[OutputConfig] else Null;
      assert FieldsOf(given)["effort" := Str("low")] - {"effort"} == FieldsOf(given) - {"effort"};
    }
  }

  lemma OnlyKey(fields: Fields, key: string)
    requires key in fields
    ensures fields - {key} == map[] <==> fields.Keys == {key}
  {
    if fields - {key} == map[] {
      forall k | k in fields ensures k == key {
        assert k != key ==> k in fields - {key};
      }
    }
  }

  lemma ThoughtFor(q: Query, model: string, t: Traits, body: Request)
    requires IsBody(q, model, t, body)
    requires t.pre55Haiku == IsOldHaiku(model) && t.haiku55 == IsHaiku55(model)
    requires t.fable == IsFable(model) && t.sonnet55 == IsSonnet55(model)
    ensures Thought(q, model, body)
  {
    ThinkingAt(q, model, t, body);
    OutputConfigAt(q, model, t, body);
  }

  lemma ThoughtBody(q: Query, model: string, body: Request)
    requires IsBody(q, model, TraitsOf(model), body)
    ensures Thought(q, model, body)
  {
    TraitsMean(model);
    ThoughtFor(q, model, TraitsOf(model), body);
  }

  lemma {:induction false} EditsArePicked(edits: seq<Json>)
    ensures Picks(edits, KeptEdits(edits), CanStay, Itself)
    ensures |KeptEdits(edits)| == |edits| <==> KeptEdits(edits) == edits
  {
    if edits == [] {
      PicksNothing<Json, Json>(CanStay, Itself);
    } else {
      EditsArePicked(edits[1..]);
      PicksFirst(edits[0], edits[1..], KeptEdits(edits[1..]), CanStay, Itself);
      assert [edits[0]] + edits[1..] == edits;
      assert [] + KeptEdits(edits[1..]) == KeptEdits(edits[1..]);
    }
  }

  lemma ContextAt(q: Query, model: string, t: Traits, body: Request)
    requires IsBody(q, model, t, body)
    ensures At(body, ContextManagement) == ContextOut(q, t)
  {
    FieldAt(q, model, t, body, ContextManagement);
    FieldOutSettles(q, model, t);
  }

  lemma EditedOut(q: Query, t: Traits, body: Request)
    requires ThinkingActive(q.fields, t) <==> BodyThinks(body)
    requires At(body, ContextManagement) == ContextOut(q, t)
    ensures Edited(q, body)
  {
    var given := Lookup(q.fields, ContextManagement);
    if !BodyThinks(body) && given.Obj? && "edits" in given.fields && given.fields["edits"].Arr? {
      EditsArePicked(given.fields["edits"].items);
      OnlyKey(given.fields, "edits");
    }
  }

  lemma EditedBody(q: Query, model: string, t: Traits, body: Request)
    requires IsBody(q, model, t, body)
    ensures Edited(q, body)
  {
    ActiveMeansOutboundThinks(q, model, t, body);
    ContextAt(q, model, t, body);
    EditedOut(q, t, body);
  }

  lemma MessageLosesEffort(m: Json)
    ensures LosesEffort(m, MessageWithoutEffort(m))
  {
    if HasField(Field(m, "output_config"), "effort") {
      OnlyKey(m.fields["output_config"].fields, "effort");
    }
  }

  lemma {:induction false} PrefixIsFound(betas: seq<string>, prefix: string)
    ensures HasPrefix(betas, prefix) <==> exists i :: 0 <= i < |betas| && prefix <= betas[i]
  {
    if betas != [] {
      PrefixIsFound(betas[1..], prefix);
      if i :| 0 < i < |betas| && prefix <= betas[i] {
        assert prefix <= betas[1..][i - 1];
      }
      if HasPrefix(betas[1..], prefix) {
        var i :| 0 <= i < |betas[1..]| && prefix <= betas[1..][i];
        assert prefix <= betas[i + 1];
      }
    }
  }

  lemma RefusalMeans(model: string, betas: seq<string>)
    ensures SupportsPerMessageEffort(TraitsOf(model), betas) <==> !RefusesMessageEffort(model, betas)
  {
    TraitsMean(model);
    PrefixIsFound(betas, "mid-conversation-output-config");
  }

  lemma MessagesAreUnburdened(model: string, betas: seq<string>, messages: seq<Json>)
    ensures Unburdened(model, betas, messages,
                       if RefusesMessageEffort(model, betas) then MessagesWithoutEffort(messages) else messages)
  {
    forall i | 0 <= i < |messages| ensures LosesEffort(messages[i], MessagesWithoutEffort(messages)[i]) {
      MessageLosesEffort(messages[i]);
    }
  }

  lemma MessagesOutMean(q: Query, model: string, messages: seq<Json>, gated: seq<Json>)
    requires Given(q, Messages) == Some(Arr(messages))
    requires gated == if RefusesMessageEffort(model, q.betas) then MessagesWithoutEffort(messages) else messages
    ensures MessagesOut(q, TraitsOf(model)) == Some(Arr(if RejectsSystemRole(q, model) then Rewrite(gated) else gated))
  {
    RefusalMeans(model, q.betas);
    TraitsMean(model);
  }

  lemma GatedBody(q: Query, model: string, body: Request)
    requires IsBody(q, model, TraitsOf(model), body)
    ensures Gated(q, model, body)
  {
    FieldAt(q, model, TraitsOf(model), body, Messages);
    var given := Lookup(q.fields, Messages);
    if given.Arr? {
      var gated := if RefusesMessageEffort(model, q.betas) then MessagesWithoutEffort(given.items) else given.items;
      MessagesAreUnburdened(model, q.betas, given.items);
      MessagesOutMean(q, model, given.items, gated);
    }
  }

  lemma ClampedBody(q: Query, model: string, t: Traits, body: Request)
    requires IsBody(q, model, t, body)
    ensures Clamped(q, model, body)
  {
    FieldAt(q, model, t, body, MaxTokens);
    FieldOutSettles(q, model, t);
  }

  lemma IntroducedBody(q: Query, model: string, t: Traits, body: Request)
    requires IsBody(q, model, t, body)
    ensures Introduced(q, body)
  {
    FieldAt(q, model, t, body, SystemPrompt);
    FieldOutSettles(q, model, t);
  }

  lemma SampledBody(q: Query, model: string, body: Request, key: Key)
    requires IsBody(q, model, TraitsOf(model), body) && Stage(key) == 6
    ensures Sampled(q, model, body, key)
  {
    FieldAt(q, model, TraitsOf(model), body, key);
    FieldOutSampled(q, model, TraitsOf(model), key);
    TraitsMean(model);
  }

  /**
   The body that `BuildBody` promises, field by field: what the gate of a field leaves of it,
   and every field without a gate as the client sent it.
   */
  lemma EveryFieldIsAccountedFor(q: Query, model: string, body: Request, key: Key)
    requires IsBody(q, model, TraitsOf(model), body)
    ensures Accounted(q, model, body, key)
  {
    match key
    case Messages => GatedBody(q, model, body);
    case SystemPrompt => IntroducedBody(q, model, TraitsOf(model), body);
    case MaxTokens => ClampedBody(q, model, TraitsOf(model), body);
    case Thinking => ThoughtBody(q, model, body);
    case OutputConfig => ConfiguredBody(q, model, body);
    case ContextManagement => EditedBody(q, model, TraitsOf(model), body);
    case Temperature => SampledBody(q, model, body, key);
    case TopP => SampledBody(q, model, body, key);
    case TopK => SampledBody(q, model, body, key);
    case _ => FieldAt(q, model, TraitsOf(model), body, key);
  }

  // ---- The header ------------------------------------------------------------

  /**
   The betas sent are the client's own, each once, but for the one that needs thinking when the
   body does not think, those for a long context on any model but opus, and those for fallbacks.
   */
  lemma SentBetas(q: Query, model: string, body: Request, beta: string)
    requires ResolvedModel(q) == Some(model) && IsBody(q, model, TraitsOf(model), body)
    ensures var sent := Merged(q.betas, ThinkingActive(q.fields, BetaTraits(q)), BetaTraits(q).opus);
            && NoDuplicates(sent)
            && (beta in sent <==>
                  && beta in q.betas
                  && (beta == "clear_thinking_20251015" ==> BodyThinks(body))
                  && ("context-1m" <= beta ==> Contains(Lower(model), "opus"))
                  && !("server-side-fallback" <= beta))
  {
    var t := TraitsOf(model);
    ActiveMeansOutboundThinks(q, model, t, body);
    TraitsMean(model);
    MergedBetas(q.betas, ThinkingActive(q.fields, t), t.opus, beta);
  }

  // ---- Requests that are not built -------------------------------------------

  /** The request has no model: no field, or an empty value. */
  predicate LacksModel(q: Query) {
    Model in q.fields ==> q.fields[Model] in {Null, Bool(false), Int(0), Float(0.0), Str(""), Arr([]), Obj(map[])}
  }

  /** The effort that would go out cannot be looked up in a set, beside thinking that is disabled. */
  predicate LooksUpOddEffort(q: Query, model: string) {
    var config := Lookup(q.fields, OutputConfig);
    && IsOfType(Lookup(q.fields, Thinking), "disabled") && !IsFable(model)
    && (IsSonnet55(model) || IsHaiku55(model)) && !IsOldHaiku(model) && !(IsOwnCall(q) && IsHaiku55(model))
    && HasEffort(config) && (config.fields["effort"].Arr? || config.fields["effort"].Obj?)
  }

  /** Why a request is not built, if it is not, and by which of three errors. */
  lemma WhatRaises(q: Query)
    ensures ResolvedModel(q) == None <==> LacksModel(q) || !q.fields[Model].Str?
    ensures ResolvedModel(q) == None ==> ModelError(q) == if LacksModel(q) then MissingModel else ModelNotText
    ensures ResolvedModel(q).Some? ==>
              var model := ResolvedModel(q).value;
              EffortLookupFails(q, TraitsOf(model)) <==> LooksUpOddEffort(q, model)
  {
    if ResolvedModel(q).Some? {
      var model := ResolvedModel(q).value;
      TraitsMean(model);
      OddEffortFails(q, model, TraitsOf(model));
    }
  }

  lemma OddEffortFails(q: Query, model: string, t: Traits)
    requires t.pre55Haiku == IsOldHaiku(model) && t.haiku55 == IsHaiku55(model)
    requires t.fable == IsFable(model) && t.sonnet55 == IsSonnet55(model)
    ensures EffortLookupFails(q, t) <==> LooksUpOddEffort(q, model)
  {
  }
}
