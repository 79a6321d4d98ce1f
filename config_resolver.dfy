/** `merge_config` of src/config/resolver.rs: command-line options over the file configuration. */
module Resolver {
  import opened Wrappers
  import opened ConfigStructs

  /** The fields of the command line that `merge_config` reads. */
  datatype Cli = Cli(
    model: Option<string>,
    prompt: Option<string>,
    verbose: bool,
    pure: bool,
    disableStream: bool)

  /** A command line that selects nothing and sets no flag. */
  const NoOptions: Cli := Cli(None, None, false, false, false)

  /**
   * The command line's model and prompt names win over the file's defaults; a
   * flag is on when either source turns it on; the maps come from the file.
   */
  function MergeConfig(file: Config, cli: Cli): (r: Config)
    ensures r.models == file.models && r.prompts == file.prompts
    ensures Overlays(cli.model, file.defaultModel, r.defaultModel)
    ensures Overlays(cli.prompt, file.defaultPrompt, r.defaultPrompt)
    ensures r.disableStream <==> cli.disableStream || file.disableStream
    ensures r.pure <==> cli.pure || file.pure
    ensures r.verbose <==> cli.verbose || file.verbose
  {
    Config(
      file.models,
      file.prompts,
      OrElse(cli.model, file.defaultModel),
      OrElse(cli.prompt, file.defaultPrompt),
      cli.disableStream || file.disableStream,
      cli.pure || file.pure,
      cli.verbose || file.verbose)
  }

  /** Without options the file configuration is used as it is. */
  lemma NoOptionsKeepFile(file: Config)
    ensures MergeConfig(file, NoOptions) == file
  {
  }

  /** Applying the same command line twice is applying it once. */
  lemma MergeConfigIdempotent(file: Config, cli: Cli)
    ensures MergeConfig(MergeConfig(file, cli), cli) == MergeConfig(file, cli)
  {
  }

  /** A flag the file turns on cannot be turned off from the command line. */
  lemma FileFlagsStayOn(file: Config, cli: Cli)
    ensures file.disableStream ==> MergeConfig(file, cli).disableStream
    ensures file.pure ==> MergeConfig(file, cli).pure
    ensures file.verbose ==> MergeConfig(file, cli).verbose
  {
  }
}
