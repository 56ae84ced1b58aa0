/**
 * Choice of the system prompt and the model for a run. The list of prompts
 * (read from a configuration file in the source) and the two environment
 * settings are inputs; the chosen configuration is cached in a module-level
 * slot until it is reset.
 */
module SystemPrompt {
  import opened Wrappers

  /** One entry of the prompts configuration. */
  datatype Entry = Entry(version: string, title: string, model: string, prompt: string)

  /** What the selection yields. */
  datatype Config = Config(systemPromptText: string, model: string)

  /** The inputs of the selection: the configured prompts, the prompt index
      setting and the model override setting (empty when unset). */
  datatype PromptEnv = PromptEnv(systemPrompts: seq<Entry>, promptIndex: int, openaiModel: string)

  /** Why no configuration could be chosen: an empty prompts list fails the
      loader's schema, an index at or past the end is reported as out of
      range, and a negative index reads an absent entry and throws. */
  datatype ConfigError = NoPrompts | IndexOutOfRange(index: int, count: nat) | NoSuchEntry(index: int)

  /** `getSystemPromptConfig`. */
  function SelectConfig(env: PromptEnv): (r: Result<Config, ConfigError>)
    ensures env.systemPrompts == [] ==> r == Failure(NoPrompts)
    ensures env.systemPrompts != [] && env.promptIndex >= |env.systemPrompts| ==>
              r == Failure(IndexOutOfRange(env.promptIndex, |env.systemPrompts|))
    ensures r.Success? <==> 0 <= env.promptIndex < |env.systemPrompts|
    ensures r.Success? ==> r.value.systemPromptText == env.systemPrompts[env.promptIndex].prompt
    ensures r.Success? && env.openaiModel != "" ==> r.value.model == env.openaiModel
    ensures r.Success? && env.openaiModel == "" ==> r.value.model == env.systemPrompts[env.promptIndex].model
  {
    var prompts := env.systemPrompts;
    if prompts == [] then Failure(NoPrompts)
    else if env.promptIndex >= |prompts| then Failure(IndexOutOfRange(env.promptIndex, |prompts|))
    else if env.promptIndex < 0 then Failure(NoSuchEntry(env.promptIndex))
    else
      var selected := prompts[env.promptIndex];
      Success(Config(selected.prompt, if env.openaiModel != "" then env.openaiModel else selected.model))
  }

  /** The module-level `cachedConfig` slot. */
  class ConfigCache {
    var cached: Option<Config>

    /** The slot as the module loads: empty. */
    constructor ()
      ensures cached == None
    {
      cached := None;
    }

    /** `getConfig`: the cached configuration, or the selection, cached only
        when it succeeded (a selection that throws leaves the slot empty). */
    method GetConfig(env: PromptEnv) returns (r: Result<Config, ConfigError>)
      modifies this
      ensures old(cached).Some? ==> r == Success(old(cached).value) && cached == old(cached)
      ensures old(cached).None? ==> r == SelectConfig(env)
      ensures old(cached).None? ==> cached == (if r.Success? then Some(r.value) else None)
    {
      if cached.None? {
        r := SelectConfig(env);
        if r.Success? {
          cached := Some(r.value);
        }
      } else {
        r := Success(cached.value);
      }
    }

    /** `getSystemPromptText`. */
    method GetSystemPromptText(env: PromptEnv) returns (r: Result<string, ConfigError>)
      modifies this
      ensures old(cached).Some? ==> r == Success(old(cached).value.systemPromptText) && cached == old(cached)
      ensures old(cached).None? && SelectConfig(env).Success? ==>
                r == Success(SelectConfig(env).value.systemPromptText) && cached == Some(SelectConfig(env).value)
      ensures old(cached).None? && SelectConfig(env).Failure? ==>
                r == Failure(SelectConfig(env).error) && cached == None
    {
      var config := GetConfig(env);
      r := if config.Success? then Success(config.value.systemPromptText) else Failure(config.error);
    }

    /** `getModel`. */
    method GetModel(env: PromptEnv) returns (r: Result<string, ConfigError>)
      modifies this
      ensures old(cached).Some? ==> r == Success(old(cached).value.model) && cached == old(cached)
      ensures old(cached).None? && SelectConfig(env).Success? ==>
                r == Success(SelectConfig(env).value.model) && cached == Some(SelectConfig(env).value)
      ensures old(cached).None? && SelectConfig(env).Failure? ==>
                r == Failure(SelectConfig(env).error) && cached == None
    {
      var config := GetConfig(env);
      r := if config.Success? then Success(config.value.model) else Failure(config.error);
    }

    /** `resetSystemPromptCache`. */
    method Reset()
      modifies this
      ensures cached == None
    {
      cached := None;
    }
  }
}
