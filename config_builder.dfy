/**
 * `ConfigBuilder` of src/config/builder.rs. The `With…` functions say what
 * each builder call does to the accumulated `Config`; the `ConfigBuilder`
 * class holds that config and updates it as the Rust methods do.
 */
module Builder {
  import opened Wrappers
  import opened ConfigStructs

  const SampleModelName: string := "sample_model_gpt"
  const SamplePromptName: string := "sample_prompt"

  const SampleModel: ModelConfig :=
    ModelConfig(Some("gpt-5-mini"), Some("https://api.openai.com/v1"), None, None)

  const SamplePrompt: PromptConfig := PromptConfig(
    "You are a terminal assistant. \n"
    + "You are giving help to user in the terminal.\n"
    + "Give concise responses whenever possible.\n"
    + "Because of terminal cannot render markdown, DO NOT contain any markdown syntax(`,```, #, ...) in your response, use plain text only.\n")

  /** Everything but the model map and the default model is as in `b`. */
  predicate SameOutsideModels(a: Config, b: Config) {
    a.prompts == b.prompts && a.defaultPrompt == b.defaultPrompt
    && a.disableStream == b.disableStream && a.pure == b.pure && a.verbose == b.verbose
  }

  /** Everything but the prompt map and the default prompt is as in `b`. */
  predicate SameOutsidePrompts(a: Config, b: Config) {
    a.models == b.models && a.defaultModel == b.defaultModel
    && a.disableStream == b.disableStream && a.pure == b.pure && a.verbose == b.verbose
  }

  /** `set_model`: merge into an existing entry, and name it the default only if there was none. */
  function WithModel(c: Config, name: string, m: ModelConfig): (r: Config)
    ensures r.models.Keys == c.models.Keys + {name}
    ensures name !in c.models ==> r.models[name] == m
    ensures name in c.models ==> r.models[name] == m.MergeWith(c.models[name])
    ensures forall k :: k in c.models && k != name ==> r.models[k] == c.models[k]
    ensures c.defaultModel.None? ==> r.defaultModel == Some(name)
    ensures c.defaultModel.Some? ==> r.defaultModel == c.defaultModel
    ensures SameOutsideModels(r, c)
  {
    var merged := if name in c.models then m.MergeWith(c.models[name]) else m;
    var default := if c.defaultModel.None? then Some(name) else c.defaultModel;
    c.(models := c.models[name := merged], defaultModel := default)
  }

  /** `set_prompt`: the same rule on prompts. */
  function WithPrompt(c: Config, name: string, p: PromptConfig): (r: Config)
    ensures r.prompts.Keys == c.prompts.Keys + {name}
    ensures name !in c.prompts ==> r.prompts[name] == p
    ensures name in c.prompts ==> r.prompts[name] == p.MergeWith(c.prompts[name])
    ensures forall k :: k in c.prompts && k != name ==> r.prompts[k] == c.prompts[k]
    ensures c.defaultPrompt.None? ==> r.defaultPrompt == Some(name)
    ensures c.defaultPrompt.Some? ==> r.defaultPrompt == c.defaultPrompt
    ensures SameOutsidePrompts(r, c)
  {
    var merged := if name in c.prompts then p.MergeWith(c.prompts[name]) else p;
    var default := if c.defaultPrompt.None? then Some(name) else c.defaultPrompt;
    c.(prompts := c.prompts[name := merged], defaultPrompt := default)
  }

  /** `set_default_model`: overwrite the default, whether or not the name is configured. */
  function WithDefaultModel(c: Config, name: string): (r: Config)
    ensures r.defaultModel == Some(name)
    ensures r.models == c.models && SameOutsideModels(r, c)
  {
    c.(defaultModel := Some(name))
  }

  /** `set_default_prompt`. */
  function WithDefaultPrompt(c: Config, name: string): (r: Config)
    ensures r.defaultPrompt == Some(name)
    ensures r.prompts == c.prompts && SameOutsidePrompts(r, c)
  {
    c.(defaultPrompt := Some(name))
  }

  /** `with_defaults`: add the sample model and prompt and make them the defaults. */
  function WithSamples(c: Config): (r: Config)
    ensures r.models.Keys == c.models.Keys + {SampleModelName}
    ensures r.prompts.Keys == c.prompts.Keys + {SamplePromptName}
    ensures r.defaultModel == Some(SampleModelName) && r.defaultPrompt == Some(SamplePromptName)
    ensures r.models[SampleModelName] ==
      if SampleModelName in c.models then SampleModel.MergeWith(c.models[SampleModelName]) else SampleModel
    ensures r.prompts[SamplePromptName] ==
      if SamplePromptName in c.prompts then SamplePrompt.MergeWith(c.prompts[SamplePromptName]) else SamplePrompt
    ensures forall k :: k in c.models && k != SampleModelName ==> r.models[k] == c.models[k]
    ensures forall k :: k in c.prompts && k != SamplePromptName ==> r.prompts[k] == c.prompts[k]
    ensures r.disableStream == c.disableStream && r.pure == c.pure && r.verbose == c.verbose
  {
    var withModel := WithModel(c, SampleModelName, SampleModel);
    var withPrompt := WithPrompt(withModel, SamplePromptName, SamplePrompt);
    WithDefaultPrompt(WithDefaultModel(withPrompt, SampleModelName), SamplePromptName)
  }

  /** Both defaults name a configured entry (or are unset). */
  predicate DefaultsResolve(c: Config) {
    (c.defaultModel.Some? ==> c.defaultModel.value in c.models)
    && (c.defaultPrompt.Some? ==> c.defaultPrompt.value in c.prompts)
  }

  /** `set_model` and `set_prompt` keep the defaults resolvable, and leave a default set. */
  lemma SettersKeepDefaultsResolved(c: Config, name: string, m: ModelConfig, p: PromptConfig)
    requires DefaultsResolve(c)
    ensures DefaultsResolve(WithModel(c, name, m)) && WithModel(c, name, m).defaultModel.Some?
    ensures DefaultsResolve(WithPrompt(c, name, p)) && WithPrompt(c, name, p).defaultPrompt.Some?
  {
  }

  /** `with_defaults` leaves both defaults resolvable, from any starting config. */
  lemma SamplesResolve(c: Config)
    ensures DefaultsResolve(WithSamples(c))
  {
  }

  /** `set_default_model` can name a model that is not configured. */
  lemma DefaultModelMayDangle()
    ensures !DefaultsResolve(WithDefaultModel(DefaultConfig(), SampleModelName))
  {
  }

  /** Setting a model twice with the same config is the same as setting it once. */
  lemma {:induction false} SetModelTwice(c: Config, name: string, m: ModelConfig)
    ensures WithModel(WithModel(c, name, m), name, m) == WithModel(c, name, m)
  {
    var once := WithModel(c, name, m);
    var merged := once.models[name];
    if name in c.models {
      MergeAssociative(m, m, c.models[name]);
      MergeIdempotent(m);
    } else {
      MergeIdempotent(m);
    }
    assert once.models[name := m.MergeWith(merged)] == once.models;
  }

  /** The builder, owning the configuration it accumulates. */
  class ConfigBuilder {
    var config: Config

    /** `ConfigBuilder::new`. */
    constructor (config: Config)
      ensures this.config == config
    {
      this.config := config;
    }

    method SetModel(name: string, model: ModelConfig)
      modifies this
      ensures config == WithModel(old(config), name, model)
    {
      var merged := model;
      if name in config.models {
        merged := model.MergeWith(config.models[name]);
      }
      if config.defaultModel.None? {
        config := config.(defaultModel := Some(name));
      }
      config := config.(models := config.models[name := merged]);
    }

    method SetPrompt(name: string, prompt: PromptConfig)
      modifies this
      ensures config == WithPrompt(old(config), name, prompt)
    {
      var merged := prompt;
      if name in config.prompts {
        merged := prompt.MergeWith(config.prompts[name]);
      }
      if config.defaultPrompt.None? {
        config := config.(defaultPrompt := Some(name));
      }
      config := config.(prompts := config.prompts[name := merged]);
    }

    method SetDefaultModel(name: string)
      modifies this
      ensures config == WithDefaultModel(old(config), name)
    {
      config := config.(defaultModel := Some(name));
    }

    method SetDefaultPrompt(name: string)
      modifies this
      ensures config == WithDefaultPrompt(old(config), name)
    {
      config := config.(defaultPrompt := Some(name));
    }

    /** `with_defaults`, as the chain of four builder calls. */
    method WithDefaults()
      modifies this
      ensures config == WithSamples(old(config))
    {
      SetModel(SampleModelName, SampleModel);
      SetPrompt(SamplePromptName, SamplePrompt);
      SetDefaultModel(SampleModelName);
      SetDefaultPrompt(SamplePromptName);
    }

    /** `build`: hand back the accumulated configuration. */
    method Build() returns (c: Config)
      ensures c == config
    {
      c := config;
    }
  }
}
