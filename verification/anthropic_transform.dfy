/**
 Outbound request shaping (`anthrouter/mapper/anthropic_transform.py`).

 `build_body` runs its model gates one after another over a mutable body.  The
 specification says of each field, on its own, what the outbound body holds; the theorems
 say that the result passes every gate at once, and that a request which already passes
 them crosses unchanged.
 */
module AnthropicTransform {
  import opened Common
  import opened Text
  import opened Json
  import opened ModelConfig
  import opened InlineSystem

  // ---- The top level of a request --------------------------------------------

  /** The fields some gate reads or writes; every other one by its name. */
  datatype Key =
    | Model | Messages | SystemPrompt | MaxTokens | Thinking | OutputConfig | ContextManagement
    | Temperature | TopP | TopK | Fallbacks | BetaList | ClassifierMark
    | Named(name: string)

  type Request = map<Key, Json>

  /** `payload.get(key)`. */
  function Lookup(r: Request, key: Key): Json {
    if key in r then r[key] else Null
  }

  // ---- Model predicates ------------------------------------------------------

  predicate Mentions(model: string, family: string) {
    Contains(Lower(model), family)
  }

  /** What the gates know about a resolved model, each by the families its id mentions. */
  datatype Traits = Traits(
    pre55Haiku: bool,       // Haiku 4.x: neither effort nor adaptive thinking
    haiku55: bool,          // 'disabled' thinking only up to high effort
    fable: bool,            // never 'disabled' thinking; per-message effort behind a beta
    sonnet55: bool,         // 'between_tools' in place of 'disabled'
    opus: bool,             // the only long-context models
    fixedSampling: bool,
    rejectsSystemRole: bool)

  function TraitsOf(model: string): (t: Traits)
    ensures t.pre55Haiku ==> !t.haiku55
  {
    Traits(
      Mentions(model, "haiku") && !Mentions(model, "haiku-5-5"),
      Mentions(model, "haiku-5-5"),
      Mentions(model, "fable"),
      Mentions(model, "sonnet-5-5"),
      Mentions(model, "opus"),
      Mentions(model, "opus-4-7") || Mentions(model, "opus-4-8") || Mentions(model, "opus-5")
      || Mentions(model, "sonnet-4-6") || Mentions(model, "haiku-5-5") || Mentions(model, "fable"),
      Mentions(model, "sonnet-4-6") || Mentions(model, "claude-4-5-sonnet")
      || Mentions(model, "claude-sonnet-4-6") || Mentions(model, "claude-haiku-4-5-20251001")
      || Mentions(model, "haiku-4-5"))
  }

  predicate HasPrefix(betas: seq<string>, prefix: string) {
    betas != [] && (StartsWith(betas[0], prefix) || HasPrefix(betas[1..], prefix))
  }

  predicate SupportsPerMessageEffort(t: Traits, betas: seq<string>) {
    !t.fable || HasPrefix(betas, "mid-conversation-output-config")
  }

  predicate ThinkingType(thinking: Json, kind: string) {
    thinking.Obj? && Get(thinking.fields, "type") == Str(kind)
  }

  /** `_thinking_active`. */
  predicate ThinkingActive(payload: Request, t: Traits) {
    var thinking := Lookup(payload, Thinking);
    ThinkingType(thinking, "enabled") || (ThinkingType(thinking, "adaptive") && !t.pre55Haiku)
  }

  // ---- What the outbound body holds, field by field --------------------------

  const SAMPLING_KEYS := {Temperature, TopP, TopK}
  const HIGH_EFFORTS := {Str("xhigh"), Str("max")}

  const IDENTITY_BLOCK := TextBlock("You are Claude Code, Anthropic's official CLI for Claude.")

  /** What `build_body` is called with: the request's fields, and the client's betas, which travel beside the body. */
  datatype Query = Query(fields: Request, betas: seq<string>, aliases: Aliases, force: bool)

  predicate FromClassifier(q: Query) {
    Truthy(Lookup(q.fields, ClassifierMark))
  }

  /** A field of the request, absent or present. */
  function Given(q: Query, key: Key): Option<Json> {
    if key in q.fields then Some(q.fields[key]) else None
  }

  /** `None` for a missing model: the source raises. */
  function ResolvedModel(q: Query): Option<string> {
    var model := Lookup(q.fields, Model);
    if model.Str? then ResolveModel(model.s, q.aliases) else None
  }

  function MaxTokensOut(q: Query, model: string): Option<Json> {
    var given := Given(q, MaxTokens);
    if model in MODEL_OUTPUT_LIMITS && given.Some? && given.value.Int? && given.value.n > MODEL_OUTPUT_LIMITS[model]
    then Some(Int(MODEL_OUTPUT_LIMITS[model])) else given
  }

  function WithoutEffort(config: Option<Json>): Option<Json> {
    if config.Some? && HasField(config.value, "effort") then
      var rest := config.value.fields - {"effort"};
      if rest == map[] then None else Some(Obj(rest))
    else config
  }

  function OutputConfigOut(q: Query, t: Traits): Option<Json> {
    var config := if !t.pre55Haiku then Given(q, OutputConfig) else WithoutEffort(Given(q, OutputConfig));
    if FromClassifier(q) && t.haiku55 then
      Some(Obj((if config.Some? && config.value.Obj? then config.value.fields else map[])["effort" := Str("low")]))
    else config
  }

  function Effort(config: Option<Json>): Json {
    if config.Some? then Field(config.value, "effort") else Null
  }

  function ThinkingOut(q: Query, t: Traits): Option<Json> {
    var thinking := Given(q, Thinking);
    var effort := Effort(OutputConfigOut(q, t));
    if thinking == None then None
    else if ThinkingType(thinking.value, "adaptive") then
      if !t.pre55Haiku then thinking else None
    else if ThinkingType(thinking.value, "disabled") then
      if t.fable then None
      else if t.sonnet55 then
        if effort in HIGH_EFFORTS then None else Some(Obj(map["type" := Str("between_tools")]))
      else if t.haiku55 && effort in HIGH_EFFORTS then None
      else thinking
    else thinking
  }

  predicate NeedsThinking(edit: Json) {
    Field(edit, "type").Str? && StartsWith(Field(edit, "type").s, "clear_thinking")
  }

  function KeptEdits(edits: seq<Json>): (r: seq<Json>)
    ensures |r| <= |edits|
    ensures forall i :: 0 <= i < |r| ==> !NeedsThinking(r[i])
  {
    if edits == [] then [] else (if NeedsThinking(edits[0]) then [] else [edits[0]]) + KeptEdits(edits[1..])
  }

  function ContextOut(q: Query, t: Traits): Option<Json> {
    var given := Given(q, ContextManagement);
    if ThinkingActive(q.fields, t) || given == None || !Field(given.value, "edits").Arr? then given
    else
      var edits := given.value.fields["edits"].items;
      var kept := KeptEdits(edits);
      if |kept| == |edits| then given
      else if kept != [] then Some(Obj(given.value.fields["edits" := Arr(kept)]))
      else if given.value.fields - {"edits"} != map[] then Some(Obj(given.value.fields - {"edits"}))
      else None
  }

  /** A message without its own `output_config.effort`. */
  function MessageWithoutEffort(m: Json): Json {
    if !HasField(Field(m, "output_config"), "effort") then m
    else
      var config := WithoutEffort(Some(m.fields["output_config"]));
      Obj(match config
          case None => m.fields - {"output_config"}
          case Some(c) => m.fields["output_config" := c])
  }

  function MessagesWithoutEffort(messages: seq<Json>): (r: seq<Json>)
    ensures |r| == |messages|
  {
    seq(|messages|, i requires 0 <= i < |messages| => MessageWithoutEffort(messages[i]))
  }

  /** A list of messages after `f`, any other value as it is. */
  function OnMessages(messages: Option<Json>, f: seq<Json> -> seq<Json>): Option<Json> {
    if messages.Some? && messages.value.Arr? then Some(Arr(f(messages.value.items))) else messages
  }

  function MessagesOut(q: Query, t: Traits): Option<Json> {
    var given := Given(q, Messages);
    var gated := if SupportsPerMessageEffort(t, q.betas) then given else OnMessages(given, MessagesWithoutEffort);
    if q.force || t.rejectsSystemRole then OnMessages(gated, Rewrite) else gated
  }

  function SystemOut(q: Query): Option<Json> {
    var given := Given(q, SystemPrompt);
    if !FromClassifier(q) then given
    else
      match Lookup(q.fields, SystemPrompt)
      case Str(s) => Some(Arr([IDENTITY_BLOCK] + if s == "" then [] else [TextBlock(s)]))
      case Arr(items) => Some(Arr([IDENTITY_BLOCK] + items))
      case Null => Some(Arr([IDENTITY_BLOCK]))
      case _ => given
  }

  /** What the body holds under `key`, if anything. */
  function FieldOut(q: Query, model: string, t: Traits, key: Key): Option<Json> {
    if key == Model then Some(Str(model))
    else if key in {BetaList, ClassifierMark, Fallbacks} then None
    else if key in SAMPLING_KEYS && t.fixedSampling then None
    else if key == MaxTokens then MaxTokensOut(q, model)
    else if key == OutputConfig then OutputConfigOut(q, t)
    else if key == Thinking then ThinkingOut(q, t)
    else if key == ContextManagement then ContextOut(q, t)
    else if key == Messages then MessagesOut(q, t)
    else if key == SystemPrompt then SystemOut(q)
    else Given(q, key)
  }

  ghost predicate IsBody(q: Query, model: string, t: Traits, body: Request) {
    forall key :: (if key in body then Some(body[key]) else None) == FieldOut(q, model, t, key)
  }

  /** The effort is looked up in a frozen set: a list or an object raises. */
  predicate EffortLookupFails(q: Query, t: Traits) {
    var effort := Effort(OutputConfigOut(q, t));
    && ThinkingType(Lookup(q.fields, Thinking), "disabled") && !t.fable
    && (t.sonnet55 || t.haiku55)
    && (effort.Arr? || effort.Obj?)
  }

  /** The one error of the proxy's own, and the exceptions that Python raises by itself. */
  datatype BuildError = MissingModel | ModelNotText | UnhashableEffort

  /** Why a request has no model: there is none, or it is something that is not a string. */
  function ModelError(q: Query): BuildError {
    if Truthy(Lookup(q.fields, Model)) then ModelNotText else MissingModel
  }

  datatype Built = Body(fields: Request) | Raised(error: BuildError)

  // ---- The gates in the order the source runs them ---------------------------

  function At(body: Request, key: Key): Option<Json> {
    if key in body then Some(body[key]) else None
  }

  /** Which gate, in the order they run, settles a field; the messages are followed apart. */
  function Stage(key: Key): nat {
    match key
    case MaxTokens => 1
    case OutputConfig => 2
    case SystemPrompt => 3
    case Thinking => 4
    case ContextManagement => 5
    case Temperature => 6
    case TopP => 6
    case TopK => 6
    case Messages => 7
    case _ => 0
  }

  /** `b` is `a` with at most the fields of one stage changed. */
  ghost predicate Frame(a: Request, b: Request, stage: nat) {
    forall k :: Stage(k) != stage ==> At(b, k) == At(a, k)
  }

  /** After stage `n`: fields settled so far are final, the others as given. */
  ghost predicate Agrees(q: Query, target: Key -> Option<Json>, body: Request, n: nat) {
    forall key :: key != Messages ==> At(body, key) == if Stage(key) <= n then target(key) else Given(q, key)
  }

  lemma AgreesStep(q: Query, target: Key -> Option<Json>, body: Request, r: Request, n: nat)
    requires Agrees(q, target, body, n) && Frame(body, r, n + 1)
    requires forall key :: Stage(key) == n + 1 && key != Messages ==> At(r, key) == target(key)
    ensures Agrees(q, target, r, n + 1)
  {
  }

  /** The target is what the specification says of every field. */
  ghost predicate IsTarget(q: Query, model: string, t: Traits, target: Key -> Option<Json>) {
    forall key :: target(key) == FieldOut(q, model, t, key)
  }

  method BuildBody(q: Query) returns (r: Built)
    ensures ResolvedModel(q) == None ==> r == Raised(ModelError(q))
    ensures ResolvedModel(q).Some? ==>
              var t := TraitsOf(ResolvedModel(q).value);
              if EffortLookupFails(q, t) then r == Raised(UnhashableEffort)
              else r.Body? && IsBody(q, ResolvedModel(q).value, t, r.fields)
  {
    var resolved := ResolvedModel(q);
    if resolved == None {
      return Raised(ModelError(q));
    }
    r := RunGates(q, resolved.value, TraitsOf(resolved.value));
  }

  /** What a field holds once the internal and unconditional strips have run. */
  function EnteredOut(q: Query, model: string, key: Key): Option<Json> {
    if key == Model then Some(Str(model))
    else if key in {BetaList, ClassifierMark, Fallbacks} then None
    else Given(q, key)
  }

  ghost predicate SettlesEntry(q: Query, model: string, target: Key -> Option<Json>) {
    forall key :: Stage(key) == 0 ==> target(key) == EnteredOut(q, model, key)
  }

  ghost predicate SettlesSampling(q: Query, t: Traits, target: Key -> Option<Json>) {
    forall key :: Stage(key) == 6 ==> target(key) == if t.fixedSampling then None else Given(q, key)
  }

  /** The parts of the target that the gates compute. */
  ghost predicate Settles(q: Query, model: string, t: Traits, target: Key -> Option<Json>) {
    && target(MaxTokens) == MaxTokensOut(q, model)
    && target(OutputConfig) == OutputConfigOut(q, t) && target(SystemPrompt) == SystemOut(q)
    && target(Thinking) == ThinkingOut(q, t) && target(ContextManagement) == ContextOut(q, t)
  }

  lemma FieldOutSettles(q: Query, model: string, t: Traits)
    ensures FieldOut(q, model, t, MaxTokens) == MaxTokensOut(q, model)
    ensures FieldOut(q, model, t, OutputConfig) == OutputConfigOut(q, t)
    ensures FieldOut(q, model, t, SystemPrompt) == SystemOut(q)
    ensures FieldOut(q, model, t, Thinking) == ThinkingOut(q, t)
    ensures FieldOut(q, model, t, ContextManagement) == ContextOut(q, t)
  {
  }

  lemma FieldOutEntered(q: Query, model: string, t: Traits, key: Key)
    requires Stage(key) == 0
    ensures FieldOut(q, model, t, key) == EnteredOut(q, model, key)
  {
  }

  lemma FieldOutSampled(q: Query, model: string, t: Traits, key: Key)
    requires Stage(key) == 6
    ensures FieldOut(q, model, t, key) == if t.fixedSampling then None else Given(q, key)
  {
  }

  method RunGates(q: Query, model: string, t: Traits) returns (r: Built)
    ensures if EffortLookupFails(q, t) then r == Raised(UnhashableEffort)
            else r.Body? && IsBody(q, model, t, r.fields)
  {
    ghost var target := key => FieldOut(q, model, t, key);
    FieldOutSettles(q, model, t);
    forall key | Stage(key) == 0 ensures target(key) == EnteredOut(q, model, key) {
      FieldOutEntered(q, model, t, key);
    }
    forall key | Stage(key) == 6 ensures target(key) == if t.fixedSampling then None else Given(q, key) {
      FieldOutSampled(q, model, t, key);
    }
    r := SettleFields(q, model, t, target);
    if r.Body? {
      BodyIsDone(q, model, t, r.fields, target);
    }
  }

  method SettleFields(q: Query, model: string, t: Traits, ghost target: Key -> Option<Json>) returns (r: Built)
    requires Settles(q, model, t, target) && SettlesEntry(q, model, target) && SettlesSampling(q, t, target)
    ensures if EffortLookupFails(q, t) then r == Raised(UnhashableEffort)
            else r.Body? && Agrees(q, target, r.fields, 6) && At(r.fields, Messages) == MessagesOut(q, t)
  {
    var body := EnterBody(q, model, target);
    body := GateConfiguration(q, model, t, body, target);
    body := GatePerMessageEffort(q, t, body);
    r := GateConversation(q, t, body, target);
    if r.Body? {
      body := GateSystemRole(q, t, r.fields);
      r := Body(body);
    }
  }

  method EnterBody(q: Query, model: string, ghost target: Key -> Option<Json>) returns (r: Request)
    requires SettlesEntry(q, model, target)
    ensures Agrees(q, target, r, 0) && At(r, Messages) == Given(q, Messages)
  {
    r := q.fields - {BetaList, ClassifierMark};
    r := r[Model := Str(model)];
    r := r - {Fallbacks};
    forall key ensures At(r, key) == EnteredOut(q, model, key) {
    }
    EnteredAgrees(q, model, target, r);
  }

  lemma EnteredAgrees(q: Query, model: string, target: Key -> Option<Json>, body: Request)
    requires SettlesEntry(q, model, target)
    requires forall key :: At(body, key) == EnteredOut(q, model, key)
    ensures Agrees(q, target, body, 0) && At(body, Messages) == Given(q, Messages)
  {
  }

  method GatePerMessageEffort(q: Query, t: Traits, body: Request) returns (r: Request)
    ensures Frame(body, r, 7)
    ensures At(r, Messages) == if SupportsPerMessageEffort(t, q.betas) then At(body, Messages)
                               else OnMessages(At(body, Messages), MessagesWithoutEffort)
  {
    r := body;
    if !SupportsPerMessageEffort(t, q.betas) {
      r := StripPerMessageEffort(r);
    }
  }

  method GateSystemRole(q: Query, t: Traits, body: Request) returns (r: Request)
    ensures Frame(body, r, 7)
    ensures At(r, Messages) == if q.force || t.rejectsSystemRole then OnMessages(At(body, Messages), Rewrite)
                               else At(body, Messages)
  {
    r := body;
    if q.force || t.rejectsSystemRole {
      r := RewriteMessages(r);
    }
  }

  lemma BodyIsDone(q: Query, model: string, t: Traits, body: Request, target: Key -> Option<Json>)
    requires Agrees(q, target, body, 6) && At(body, Messages) == MessagesOut(q, t)
    requires IsTarget(q, model, t, target)
    ensures IsBody(q, model, t, body)
  {
    forall key ensures At(body, key) == FieldOut(q, model, t, key) {
      assert target(key) == FieldOut(q, model, t, key);
    }
  }

  method GateConfiguration(q: Query, model: string, t: Traits, body: Request, ghost target: Key -> Option<Json>)
    returns (r: Request)
    requires Agrees(q, target, body, 0)
    requires target(MaxTokens) == MaxTokensOut(q, model)
    requires target(OutputConfig) == OutputConfigOut(q, t) && target(SystemPrompt) == SystemOut(q)
    ensures Agrees(q, target, r, 3) && At(r, Messages) == At(body, Messages)
  {
    r := ClampMaxTokens(q, model, body);
    AgreesStep(q, target, body, r, 0);
    ghost var clamped := r;
    r := GateOutputConfig(q, t, r);
    AgreesStep(q, target, clamped, r, 1);
    ghost var configured := r;
    r := IdentifyClassifier(q, r);
    AgreesStep(q, target, configured, r, 2);
  }

  method GateConversation(q: Query, t: Traits, body: Request, ghost target: Key -> Option<Json>) returns (r: Built)
    requires Agrees(q, target, body, 3)
    requires target(OutputConfig) == OutputConfigOut(q, t) && target(Thinking) == ThinkingOut(q, t)
    requires target(ContextManagement) == ContextOut(q, t)
    requires SettlesSampling(q, t, target)
    ensures if EffortLookupFails(q, t) then r == Raised(UnhashableEffort)
            else r.Body? && Agrees(q, target, r.fields, 6) && At(r.fields, Messages) == At(body, Messages)
  {
    r := GateThinking(q, t, body);
    if r.Raised? {
      return;
    }
    var out := r.fields;
    AgreesStep(q, target, body, out, 3);
    ghost var thought := out;
    out := GateEdits(q, t, out);
    AgreesStep(q, target, thought, out, 4);
    ghost var edited := out;
    out := GateSampling(q, t, out);
    AgreesStep(q, target, edited, out, 5);
    return Body(out);
  }

  method GateSampling(q: Query, t: Traits, body: Request) returns (r: Request)
    ensures Frame(body, r, 6)
    ensures forall key :: Stage(key) == 6 ==> At(r, key) == if t.fixedSampling then None else At(body, key)
  {
    r := body;
    if t.fixedSampling {
      r := r - SAMPLING_KEYS;
    }
  }

  method GateEdits(q: Query, t: Traits, body: Request) returns (r: Request)
    requires At(body, ContextManagement) == Given(q, ContextManagement)
    ensures Frame(body, r, 5) && At(r, ContextManagement) == ContextOut(q, t)
  {
    r := body;
    if !ThinkingActive(q.fields, t) {
      r := StripThinkingEdits(q, t, r);
    }
  }

  method RewriteMessages(body: Request) returns (r: Request)
    ensures Frame(body, r, 7) && At(r, Messages) == OnMessages(At(body, Messages), Rewrite)
  {
    r := body;
    var messages := Lookup(body, Messages);
    if messages.Arr? {
      var rewritten := RewriteInlineSystem(messages.items);
      r := r[Messages := Arr(rewritten)];
    }
  }

  method ClampMaxTokens(q: Query, model: string, body: Request) returns (r: Request)
    requires At(body, MaxTokens) == Given(q, MaxTokens)
    ensures Frame(body, r, 1) && At(r, MaxTokens) == MaxTokensOut(q, model)
  {
    r := body;
    var given := Lookup(body, MaxTokens);
    if model in MODEL_OUTPUT_LIMITS && given.Int? && given.n > MODEL_OUTPUT_LIMITS[model] {
      r := r[MaxTokens := Int(MODEL_OUTPUT_LIMITS[model])];
    }
  }

  method GateOutputConfig(q: Query, t: Traits, body: Request) returns (r: Request)
    requires At(body, OutputConfig) == Given(q, OutputConfig)
    ensures Frame(body, r, 2) && At(r, OutputConfig) == OutputConfigOut(q, t)
  {
    r := body;
    if t.pre55Haiku {
      var config := Lookup(r, OutputConfig);
      if HasField(config, "effort") {
        var rest := config.fields - {"effort"};
        if rest != map[] {
          r := r[OutputConfig := Obj(rest)];
        } else {
          r := r - {OutputConfig};
        }
      }
    }
    if FromClassifier(q) && t.haiku55 {
      var config := Lookup(r, OutputConfig);
      var fields := if config.Obj? then config.fields else map[];
      r := r[OutputConfig := Obj(fields["effort" := Str("low")])];
    }
  }

  method IdentifyClassifier(q: Query, body: Request) returns (r: Request)
    requires At(body, SystemPrompt) == Given(q, SystemPrompt)
    ensures Frame(body, r, 3) && At(r, SystemPrompt) == SystemOut(q)
  {
    r := body;
    if !FromClassifier(q) {
      return;
    }
    var system := Lookup(r, SystemPrompt);
    if system.Str? {
      system := if system.s != "" then Arr([TextBlock(system.s)]) else Arr([]);
    }
    if system == Null || system.Arr? {
      var items := if system.Arr? then system.items else [];
      assert [IDENTITY_BLOCK] + [] == [IDENTITY_BLOCK];
      r := r[SystemPrompt := Arr([IDENTITY_BLOCK] + items)];
    }
  }

  method StripPerMessageEffort(body: Request) returns (r: Request)
    ensures Frame(body, r, 7)
    ensures At(r, Messages) == OnMessages(At(body, Messages), MessagesWithoutEffort)
  {
    r := body;
    var messages := Lookup(body, Messages);
    if !messages.Arr? {
      return;
    }
    var rebuilt: seq<Json>, dropped := [], 0;
    for i := 0 to |messages.items|
      invariant |rebuilt| == i
      invariant forall j :: 0 <= j < i ==> rebuilt[j] == MessageWithoutEffort(messages.items[j])
      invariant dropped == 0 ==> rebuilt == messages.items[..i]
    {
      var entry := messages.items[i];
      var config := Field(entry, "output_config");
      if !HasField(config, "effort") {
        rebuilt := rebuilt + [entry];
      } else {
        var rest := config.fields - {"effort"};
        var fields := entry.fields - {"output_config"};
        if rest != map[] {
          fields := fields["output_config" := Obj(rest)];
        }
        assert fields == MessageWithoutEffort(entry).fields;
        rebuilt := rebuilt + [Obj(fields)];
        dropped := dropped + 1;
      }
    }
    assert rebuilt == MessagesWithoutEffort(messages.items);
    assert messages.items[..|messages.items|] == messages.items;
    if dropped > 0 {
      r := r[Messages := Arr(rebuilt)];
    }
  }

  method GateThinking(q: Query, t: Traits, body: Request) returns (r: Built)
    requires At(body, Thinking) == Given(q, Thinking)
    requires At(body, OutputConfig) == OutputConfigOut(q, t)
    ensures if EffortLookupFails(q, t) then r == Raised(UnhashableEffort)
            else r.Body? && Frame(body, r.fields, 4) && At(r.fields, Thinking) == ThinkingOut(q, t)
  {
    var out := body;
    if t.pre55Haiku && ThinkingType(Lookup(out, Thinking), "adaptive") {
      out := out - {Thinking};
    }
    if t.fable && ThinkingType(Lookup(out, Thinking), "disabled") {
      out := out - {Thinking};
    }
    var effort := Field(Lookup(out, OutputConfig), "effort");
    if t.sonnet55 && ThinkingType(Lookup(out, Thinking), "disabled") {
      if effort.Arr? || effort.Obj? {
        return Raised(UnhashableEffort);
      }
      if effort in HIGH_EFFORTS {
        out := out - {Thinking};
      } else {
        out := out[Thinking := Obj(map["type" := Str("between_tools")])];
      }
    }
    if t.haiku55 && ThinkingType(Lookup(out, Thinking), "disabled") {
      if effort.Arr? || effort.Obj? {
        return Raised(UnhashableEffort);
      }
      if effort in HIGH_EFFORTS {
        out := out - {Thinking};
      }
    }
    return Body(out);
  }

  method StripThinkingEdits(q: Query, t: Traits, body: Request) returns (r: Request)
    requires At(body, ContextManagement) == Given(q, ContextManagement) && !ThinkingActive(q.fields, t)
    ensures Frame(body, r, 5) && At(r, ContextManagement) == ContextOut(q, t)
  {
    r := body;
    var cm := Lookup(body, ContextManagement);
    if !Field(cm, "edits").Arr? {
      return;
    }
    var edits := cm.fields["edits"].items;
    var kept := KeptEdits(edits);
    if |kept| == |edits| {
      return;
    }
    var siblings := cm.fields - {"edits"};
    if kept != [] {
      assert siblings["edits" := Arr(kept)] == cm.fields["edits" := Arr(kept)];
      r := r[ContextManagement := Obj(siblings["edits" := Arr(kept)])];
    } else if siblings != map[] {
      r := r[ContextManagement := Obj(siblings)];
    } else {
      r := r - {ContextManagement};
    }
  }
}
