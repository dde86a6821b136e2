/** Model aliases, output ceilings and name resolution (`anthrouter/model_config.py`). */
module ModelConfig {
  import opened Common
  import opened Text

  type Aliases = map<string, string>

  const MODEL_ALIASES: Aliases := map[
    "fable" := "claude-fable-5-1",
    "opus" := "claude-opus-5-5",
    "sonnet" := "claude-sonnet-5-5",
    "haiku" := "claude-haiku-5-5"]

  const MODEL_OUTPUT_LIMITS: map<string, nat> := map[
    "claude-fable-5-1" := 32768,
    "claude-opus-5-5" := 128000,
    "claude-sonnet-5-5" := 128000,
    "claude-sonnet-4-6" := 128000,
    "claude-sonnet-4-5" := 128000,
    "claude-haiku-4-5-20251001" := 64000,
    "claude-haiku-5-5" := 128000]

  /** Every version of the beta that asks for the long context begins with it. */
  const LONG_CONTEXT_PREFIX := "context-1m"

  const CONTEXT_SUFFIXES := [":1m", "[1m]"]

  /** The first context suffix whose removal leaves an alias decides. */
  function ResolveSuffix(model: string, aliases: Aliases, suffixes: seq<string>): string {
    if suffixes == [] then model
    else
      var base := if EndsWith(model, suffixes[0]) then model[..|model| - |suffixes[0]|] else "";
      if EndsWith(model, suffixes[0]) && base in aliases then aliases[base]
      else ResolveSuffix(model, aliases, suffixes[1..])
  }

  /** The upstream model id, or `None` for the error raised on an empty model. */
  function ResolveModel(model: string, overlay: Aliases): Option<string> {
    var aliases := MODEL_ALIASES + overlay;
    if model == "" then None
    else if model in aliases then Some(aliases[model])
    else Some(ResolveSuffix(model, aliases, CONTEXT_SUFFIXES))
  }
}
