/** The configuration records of src/config/structs.rs and their merges. */
module ConfigStructs {
  import opened Wrappers

  /** An `f32` is only copied, never computed with, so its 32-bit pattern stands for it. */
  type Temperature = bv32

  /** `Option::or_else` / `Option::or`: the first value if present, the second otherwise. */
  function OrElse<T>(first: Option<T>, second: Option<T>): (r: Option<T>)
    ensures r.None? <==> first.None? && second.None?
    ensures first.Some? ==> r == first
    ensures first.None? ==> r == second
  {
    if first.Some? then first else second
  }

  /** Field-wise precedence between two optional fields: `top` wins when present. */
  ghost predicate Overlays<T>(top: Option<T>, bottom: Option<T>, r: Option<T>) {
    (top.Some? ==> r == top) && (top.None? ==> r == bottom)
  }

  datatype ModelConfig = ModelConfig(
    modelName: Option<string>,
    baseUrl: Option<string>,
    apiKey: Option<string>,
    temperature: Option<Temperature>)
  {
    predicate AllSome() {
      modelName.Some? && baseUrl.Some? && apiKey.Some? && temperature.Some?
    }

    predicate AllNone() {
      modelName.None? && baseUrl.None? && apiKey.None? && temperature.None?
    }

    /** `ModelConfig::merge_with`: every field of `this` that is set wins over `base`'s. */
    function MergeWith(base: ModelConfig): (r: ModelConfig)
      ensures Overlays(modelName, base.modelName, r.modelName)
      ensures Overlays(baseUrl, base.baseUrl, r.baseUrl)
      ensures Overlays(apiKey, base.apiKey, r.apiKey)
      ensures Overlays(temperature, base.temperature, r.temperature)
      ensures r.AllNone() <==> AllNone() && base.AllNone()
    {
      ModelConfig(
        OrElse(modelName, base.modelName),
        OrElse(baseUrl, base.baseUrl),
        OrElse(apiKey, base.apiKey),
        OrElse(temperature, base.temperature))
    }
  }

  /** Merging a config with itself changes nothing. */
  lemma MergeIdempotent(m: ModelConfig)
    ensures m.MergeWith(m) == m
  {
  }

  /** A fully set config ignores the base; an empty one takes the base whole. */
  lemma MergeExtremes(m: ModelConfig, base: ModelConfig)
    ensures m.AllSome() ==> m.MergeWith(base) == m
    ensures m.AllNone() ==> m.MergeWith(base) == base
  {
  }

  /** Layering is associative, so repeated merges can be grouped either way. */
  lemma MergeAssociative(a: ModelConfig, b: ModelConfig, c: ModelConfig)
    ensures a.MergeWith(b).MergeWith(c) == a.MergeWith(b.MergeWith(c))
  {
  }

  datatype PromptConfig = PromptConfig(content: string) {
    /** `PromptConfig::merge_with`: a non-empty content wins, an empty one takes `base`'s. */
    function MergeWith(base: PromptConfig): (r: PromptConfig)
      ensures content != [] ==> r == this
      ensures content == [] ==> r == base
    {
      PromptConfig(if content == [] then base.content else content)
    }
  }

  lemma PromptMergeIdempotent(p: PromptConfig)
    ensures p.MergeWith(p) == p
  {
  }

  datatype Config = Config(
    models: map<string, ModelConfig>,
    prompts: map<string, PromptConfig>,
    defaultModel: Option<string>,
    defaultPrompt: Option<string>,
    disableStream: bool,
    pure: bool,
    verbose: bool)

  /** `Config::default`: nothing configured and every flag off. */
  function DefaultConfig(): (c: Config)
    ensures |c.models| == 0 && |c.prompts| == 0
    ensures c.defaultModel.None? && c.defaultPrompt.None?
    ensures !c.disableStream && !c.pure && !c.verbose
  {
    Config(map[], map[], None, None, false, false, false)
  }
}
