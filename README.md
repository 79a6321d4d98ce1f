# terminal-aichat core, modelled in Dafny

This project models the deterministic core of `terminal-aichat`, a terminal
chat client written in Rust. It covers four parts:

- **The typewriter renderer** (`ResponseRender`). `print_with_interval` splits a
  response fragment into units that end at a whitespace, ASCII-punctuation or
  path-separator character. It prints each unit and sleeps after it. A
  boundary-free tail is printed with no sleep. `render_task_impl` prints the
  status bar unless `pure` is set, then handles each received message: whole
  when `disable_stream` is set, paced otherwise. Output is a trace of `Event`s
  (`Emit`, `Sleep`, `StatusBar`, `Log`). The loops are methods, proved equal to
  the reference functions `Paced` and `Rendered`. Lemmas about those functions
  give the round trip (the emitted text is the input), the exact number of
  sleeps, the shape of every unit, uniqueness of the split, and the single status
  bar at the head of the trace.
- **Configuration** (`ConfigStructs`, `Builder`, `Resolver`). This covers the
  field-wise `Option` precedence of `merge_with` and the builder calls as
  functions on `Config`. A `ConfigBuilder` class holds the accumulated config,
  and its methods are proved equal to those functions. The command-line-over-file
  resolution of `merge_config` is a function too.
- **String helpers** (`Display`, `StringUtils`, `CliStructs`). `truncate`,
  `mask_api_key` and `safe_substring` work on the UTF-8 bytes of a Rust `str`.
  They are modelled over `seq<byte>`, with Rust's rule that a slice must fall on
  a character boundary (`Utf8.IsCharBoundary`) or the program panics. The panic
  is the `Err` of a `Result`. `non_empty_string` is modelled over `string`, using
  Unicode White_Space trimming.
- **The logger** (`Logger`). This covers the ordered level enum, the 5-character
  labels, the `LOG_LEVEL` name mapping, and the process-wide `AtomicU8` level.
  The level is a one-field class (`GlobalLevel`), and `log_impl` is filtered
  against it.

Environment reads, clocks and timestamps are parameters. For example,
`InitLogger` takes the variable's value and `Log` takes the timestamp.

Facts of the code worth noting:

- `'!'` is ASCII punctuation, so a sleep follows `"world!"` in `"hello world!"` (`ResponseRender.HelloWorld`).
- The comment at src/cli/response_render.rs:72 announces a newline at the end, but the code only flushes stdout, so the model emits nothing there.
- The channel carries `String` values only, so a message is always text to write; the task ends when the sender is dropped.

## Model

| member | source | states |
|---|---|---|
| `ResponseRender.PrintWithInterval` | src/cli/response_render.rs:92-115 | the character loop with its `current_word` buffer produces exactly the reference trace `Paced(s)` |
| `ResponseRender.PacedText` | src/cli/response_render.rs:95-114 | round trip: the emitted units concatenate to exactly the input, so nothing is dropped, duplicated or reordered |
| `ResponseRender.PacedSleeps` | src/cli/response_render.rs:99-105 | the number of sleeps equals the number of boundary characters in the input |
| `ResponseRender.PacedIsWellPaced` | src/cli/response_render.rs:96-114 | the trace is words, each ending at its only boundary character and each followed by one sleep, then at most one non-empty boundary-free tail with no sleep after it |
| `ResponseRender.PacedUnique` | src/cli/response_render.rs:95-114 | any trace of that shape that writes `s` is `Paced(s)`, so the split is the only one possible |
| `ResponseRender.WellPacedEvents` | src/cli/response_render.rs:100-111 | a paced trace holds only sleeps and non-empty emits, and no status bar |
| `ResponseRender.EmptyInput` | src/cli/response_render.rs:95-114 | empty input gives no events and no sleep |
| `ResponseRender.SeparatorsArePunctuation` | src/cli/response_render.rs:99 | '/' and '\\' are ASCII punctuation, so the separator test adds no boundary on any target |
| `ResponseRender.HelloWorld` | src/cli/response_render.rs:95-114 | "hello world!" is emitted as "hello " then "world!", each followed by one sleep |
| `ResponseRender.RenderTaskImpl` | src/cli/response_render.rs:52-74 | the receive loop produces `Rendered`: status bar (and trace log line) unless pure, then each message in arrival order, then the debug log line |
| `ResponseRender.BodyText` | src/cli/response_render.rs:62-69 | the message events write the concatenation of the messages in arrival order; sleeps are 0 with `disable_stream`, otherwise the total boundary count |
| `ResponseRender.BodyUnpaced` | src/cli/response_render.rs:64-65 | with `disable_stream`, message i is written whole as event i, with nothing else |
| `ResponseRender.RenderedProperties` | src/cli/response_render.rs:52-74 | the whole render writes the messages' concatenation, and it has exactly one status bar, as its first event, if and only if `pure` is false |
| `Logger.Code` | src/utils/logger.rs:7-15 | the `u8` discriminant is below 5 and is the level's position in declaration order |
| `Logger.CodeIsPosition` | src/utils/logger.rs:7-15 | codes are 0..4 and strictly increase along Error, Warn, Info, Debug, Trace |
| `Logger.AsStr` | src/utils/logger.rs:28-36 | every label is 5 characters with no lower-case letter: the level name, padded with spaces |
| `Logger.FromEnv` | src/utils/logger.rs:38-47 | a value whose upper-cased form is one of the five names gives that level; anything else, unset included, gives Info |
| `Logger.FromEnvIgnoresCase` | src/utils/logger.rs:39 | the mapping gives the same level for a value and its upper-cased form |
| `Logger.FromEnvName` | src/utils/logger.rs:40-44 | every level's name maps back to that level |
| `Logger.ErrorAlwaysPasses` | src/utils/logger.rs:62-65 | an Error message passes the filter at any stored level |
| `Logger.GlobalLevel.constructor` | src/utils/logger.rs:50 | the stored level starts as Info |
| `Logger.GlobalLevel.InitLogger` | src/utils/logger.rs:52-55 | afterwards the stored level is the one `from_env` maps the variable to |
| `Logger.GlobalLevel.SetLogLevel` | src/utils/logger.rs:57-59 | afterwards the stored level is the given one |
| `Logger.GlobalLevel.Enabled` | src/utils/logger.rs:62-65 | a message passes if and only if its code is at most the stored code |
| `Logger.GlobalLevel.Log` | src/utils/logger.rs:61-76 | a line is printed if and only if the level passes; the line is "[label] timestamp message" |
| `Logger.InitialLevelFilter` | src/utils/logger.rs:50 | at the initial level Info, Debug and Trace are suppressed and Error, Warn and Info print |
| `ConfigStructs.OrElse` | src/config/structs.rs:35-38 | the first option if present, else the second; `None` only when both are |
| `ConfigStructs.ModelConfig.MergeWith` | src/config/structs.rs:33-40 | each of the four fields is self's when set and base's otherwise; the result is empty only when both inputs are |
| `ConfigStructs.MergeIdempotent` | src/config/structs.rs:33-40 | merging a model config with itself returns it |
| `ConfigStructs.MergeExtremes` | src/config/structs.rs:35-38 | an all-set self ignores base; an all-unset self returns base |
| `ConfigStructs.MergeAssociative` | src/config/structs.rs:33-40 | repeated merges give the same result however they are grouped |
| `ConfigStructs.PromptConfig.MergeWith` | src/config/structs.rs:44-52 | non-empty content wins; an empty content takes base's |
| `ConfigStructs.PromptMergeIdempotent` | src/config/structs.rs:44-52 | merging a prompt config with itself returns it |
| `ConfigStructs.DefaultConfig` | src/config/structs.rs:56-66 | no models, no prompts, no defaults, all three flags off |
| `Builder.WithModel` | src/config/builder.rs:13-27 | the entry for `name` is the new config, merged over the old entry if one existed; other entries are unchanged; the default model becomes `name` only if there was none; prompts and flags are unchanged |
| `Builder.WithPrompt` | src/config/builder.rs:30-44 | the same rule on prompts and the default prompt; models and flags are unchanged |
| `Builder.WithDefaultModel` | src/config/builder.rs:47-50 | the default model is overwritten unconditionally; nothing else changes |
| `Builder.WithDefaultPrompt` | src/config/builder.rs:53-56 | the default prompt is overwritten unconditionally; nothing else changes |
| `Builder.WithSamples` | src/config/builder.rs:59-85 | the sample model and prompt are present (merged over existing entries), both defaults name them whatever they were, and other entries and flags are unchanged |
| `Builder.SettersKeepDefaultsResolved` | src/config/builder.rs:13-44 | if the defaults named existing entries before, they still do after `set_model`/`set_prompt`, and the corresponding default is then set |
| `Builder.SamplesResolve` | src/config/builder.rs:59-85 | after `with_defaults` both defaults name existing entries, from any start |
| `Builder.DefaultModelMayDangle` | src/config/builder.rs:47-50 | `set_default_model` can name a model that is not configured |
| `Builder.SetModelTwice` | src/config/builder.rs:13-27 | setting the same model config twice is the same as setting it once |
| `Builder.ConfigBuilder.constructor` | src/config/builder.rs:8-10 | the builder starts with the given config |
| `Builder.ConfigBuilder.SetModel` | src/config/builder.rs:13-27 | the new config is `WithModel` of the old one |
| `Builder.ConfigBuilder.SetPrompt` | src/config/builder.rs:30-44 | the new config is `WithPrompt` of the old one |
| `Builder.ConfigBuilder.SetDefaultModel` | src/config/builder.rs:47-50 | the new config is `WithDefaultModel` of the old one |
| `Builder.ConfigBuilder.SetDefaultPrompt` | src/config/builder.rs:53-56 | the new config is `WithDefaultPrompt` of the old one |
| `Builder.ConfigBuilder.WithDefaults` | src/config/builder.rs:59-85 | the chain of four calls leaves `WithSamples` of the old config |
| `Builder.ConfigBuilder.Build` | src/config/builder.rs:88-90 | returns exactly the accumulated config |
| `Resolver.MergeConfig` | src/config/resolver.rs:8-22 | the maps come from the file; each default is the CLI's when given, else the file's; each flag is the OR of CLI and file |
| `Resolver.NoOptionsKeepFile` | src/config/resolver.rs:8-22 | with no CLI names and no flags the result is the file config |
| `Resolver.MergeConfigIdempotent` | src/config/resolver.rs:8-22 | applying the same command line twice is applying it once |
| `Resolver.FileFlagsStayOn` | src/config/resolver.rs:18-20 | a flag set in the file stays set |
| `Display.Truncate` | src/config/display.rs:103-109 | short input is returned unchanged; a successful result is at most `max_len` bytes, and for long input it is exactly `max_len` bytes, the first `max_len-3` then "..."; it panics exactly when the input is long and `max_len < 3` or byte `max_len-3` is inside a character |
| `Display.AsciiTruncateSucceeds` | src/config/display.rs:103-109 | ASCII input never panics when `max_len >= 3` |
| `Display.TruncatePanicsInsideCharacter` | src/config/display.rs:105 | seven 3-byte characters in the 19-byte column make `truncate` panic at byte 16 |
| `Display.TruncateAtBoundary` | src/config/display.rs:103-109 | corrected truncate: never panics, at most `max_len` bytes, cuts at the last character boundary that leaves room for "..." |
| `Display.TruncateAtBoundaryAgrees` | src/config/display.rs:103-109 | wherever `truncate` succeeds the corrected version returns the same string |
| `Display.MaskApiKey` | src/config/display.rs:112-123 | "" maps to ""; a key of 1..8 bytes maps to that many '*'; a longer key maps to its first 4 bytes, "***", its last 4 bytes (11 bytes), and panics exactly when byte 4 or byte len-4 is inside a character |
| `Display.AsciiMaskSucceeds` | src/config/display.rs:112-123 | an ASCII key never panics |
| `StringUtils.SafeSubstring` | src/utils/string.rs:10-19 | the `char_indices` loop returns `FirstChars(s, max_chars)`, the longest prefix with at most `max_chars` characters |
| `StringUtils.FirstChars` | src/utils/string.rs:3-5 | the result is a prefix of the input with at most `n` characters, and one more byte would exceed `n` |
| `StringUtils.FirstCharsCount` | src/utils/string.rs:12-17 | the result holds exactly min(`max_chars`, character count) characters |
| `StringUtils.FirstCharsWhole` | src/utils/string.rs:5 | a string of at most `max_chars` characters is returned whole |
| `StringUtils.FirstCharsOnBoundary` | src/utils/string.rs:3 | the cut never falls inside a character |
| `StringUtils.FirstCharsZero` | src/utils/string.rs:13-16 | `max_chars = 0` gives the empty string |
| `StringUtils.FirstCharsMonotone` | src/utils/string.rs:10-19 | a larger `max_chars` gives a result that extends the smaller one's |
| `CliStructs.TrimStart` | src/cli/structs.rs:141 | drops exactly the leading whitespace: a suffix, all-whitespace before it, non-whitespace first |
| `CliStructs.TrimEnd` | src/cli/structs.rs:141 | drops exactly the trailing whitespace: a prefix, all-whitespace after it, non-whitespace last |
| `CliStructs.TrimEmptyIff` | src/cli/structs.rs:141 | trimming gives "" if and only if every character is whitespace |
| `CliStructs.NonEmptyString` | src/cli/structs.rs:140-146 | `Err("param cannot be empty")` exactly for empty or all-whitespace input; otherwise `Ok` of the untrimmed input |

## Left out

- Tokio: the channel, `tokio::spawn`, the `JoinHandle` and real `sleep` (src/cli/response_render.rs:41-49, 105) are concurrency and timing. Messages are a sequence in arrival order, and sleeps are `Sleep` events.
- The sleep length `Duration::from_secs_f32(1.0 / type_speed)` (src/cli/response_render.rs:59) is floating point and is not modelled; `type_speed` is kept in `RenderConfig` but unused.
- `ResponseRender.RenderTaskImpl`: a `type_speed` of 0 makes line 59 panic on the non-finite duration, right after the status bar and its trace line, before any message is handled. The model renders every message as for a positive speed. The only caller passes 30 (src/chat.rs:37).
- `render_tail_bar` and `ResponseRenderer::new`: both measure elapsed time with `Instant`.
- Terminal styling: the status bar is a `StatusBar` event carrying its three labels. Colours, `LogLevel::color` and the ANSI reset are not modelled.
- `stdout().flush().unwrap()`: flushes are not events, and a failed flush (a panic) is not modelled.
- `print_models`, `print_model_row`, `print_prompts`: terminal table printing. Only their helpers `truncate` and `mask_api_key` are modelled.
- `Logger.FromEnv`: `to_uppercase` is modelled as ASCII upper-casing. Unicode upper-casing also maps a few non-ASCII characters to ASCII (dotless i to 'I', long s to 'S', some ligatures). The only name such a value could then spell is "INFO", which is also the default, so the level is the same.
- `Logger.GlobalLevel`: the atomic's memory ordering and concurrent access are not modelled. The reading of the `LOG_LEVEL` variable is a parameter. The log macros only pass a level to `log_impl`.
- `IsSeparator` is the Unix `is_separator`. The Windows version adds '\\', which is ASCII punctuation already (`SeparatorsArePunctuation`).
- UTF-8 validity of a `str` is not required by `Display` or `StringUtils`. They work on any bytes, with the character-boundary rule. `FirstCharsZero` assumes only what a `str` guarantees: the string starts at a character.
- Network client, encryption, config file I/O, CLI parsing and dispatch, interactive input, the sample binaries and the older config structs (src/chat.rs, src/chat/mod.rs, src/config/crypto.rs, src/crypto/mod.rs, src/config/manager.rs, src/main.rs, src/cli/cli.rs, src/cli/config.rs, src/cli/interactive.rs, src/bin/, src/config/mod.rs): these are I/O or pass-through code outside the core.

## Findings

| source | as written | input that shows it | evidently intended | confidence | as-written member | corrected member |
|---|---|---|---|---|---|---|
| src/config/display.rs:105 | `&s[..max_len - 3]` slices at a byte offset | a model name of seven "一" (21 bytes) in the 19-byte column: byte 16 is inside the sixth character, so the slice panics | cut at the last character boundary at or before `max_len - 3` | not executed; follows from Rust's rule that `str` slices must fall on character boundaries | `Display.Truncate` (counterexample `Display.TruncatePanicsInsideCharacter`) | `Display.TruncateAtBoundary` |
