/**
 * The five-level logger of src/utils/logger.rs: the ordered level enum, its
 * fixed-width labels, the LOG_LEVEL name mapping, and the process-wide
 * current level that decides whether a message is printed.
 */
module Logger {
  import opened Wrappers
  import opened Chars

  /** Declared in this order with `#[repr(u8)]` discriminants 0..4; the derived order follows it. */
  datatype LogLevel = Error | Warn | Info | Debug | Trace

  newtype u8 = x: int | 0 <= x < 256

  /** The levels in declaration order. */
  const Levels: seq<LogLevel> := [Error, Warn, Info, Debug, Trace]

  /** `level as u8`. */
  function Code(l: LogLevel): (c: u8)
    ensures c < 5 && Levels[c] == l
  {
    match l
    case Error => 0
    case Warn => 1
    case Info => 2
    case Debug => 3
    case Trace => 4
  }

  /** The discriminant is the position in the declaration, so codes are distinct and ordered like `Levels`. */
  lemma CodeIsPosition(i: nat)
    requires i < |Levels|
    ensures Code(Levels[i]) as int == i
    ensures forall j :: 0 <= j < i ==> Code(Levels[j]) < Code(Levels[i])
  {
  }

  /** `LogLevel::as_str`: the label printed between brackets. */
  function AsStr(l: LogLevel): (s: string)
    ensures |s| == 5
    ensures UpperAscii(s) == s
    ensures s[..|Name(l)|] == Name(l)
    ensures forall i :: |Name(l)| <= i < 5 ==> s[i] == ' '
  {
    match l
    case Error => "ERROR"
    case Warn => "WARN "
    case Info => "INFO "
    case Debug => "DEBUG"
    case Trace => "TRACE"
  }

  /** The name of a level as the LOG_LEVEL variable spells it (upper case, no padding). */
  function Name(l: LogLevel): string {
    match l
    case Error => "ERROR"
    case Warn => "WARN"
    case Info => "INFO"
    case Debug => "DEBUG"
    case Trace => "TRACE"
  }

  /**
   * The mapping of `LogLevel::from_env`, given the variable's value
   * (`None` when unset or not Unicode, which `unwrap_or_default` turns into "").
   */
  function FromEnv(v: Option<string>): (l: LogLevel)
    ensures forall k :: v.Some? && UpperAscii(v.value) == Name(k) ==> l == k
    ensures (v.None? || forall k :: UpperAscii(v.value) != Name(k)) ==> l == Info
  {
    var s := UpperAscii(if v.Some? then v.value else "");
    if s == Name(Error) then Error
    else if s == Name(Warn) then Warn
    else if s == Name(Info) then Info
    else if s == Name(Debug) then Debug
    else if s == Name(Trace) then Trace
    else Info
  }

  /** Upper-casing twice is upper-casing once. */
  lemma UpperAsciiIdempotent(s: string)
    ensures UpperAscii(UpperAscii(s)) == UpperAscii(s)
  {
  }

  /** The mapping ignores ASCII case: a value and its upper-cased form give the same level. */
  lemma {:induction false} FromEnvIgnoresCase(s: string)
    ensures FromEnv(Some(s)) == FromEnv(Some(UpperAscii(s)))
  {
    UpperAsciiIdempotent(s);
  }

  /** Every level's own name maps back to it. */
  lemma FromEnvName(l: LogLevel)
    ensures FromEnv(Some(Name(l))) == l
  {
    assert UpperAscii(Name(l)) == Name(l);
  }

  /** The filter of `log_impl`: a message passes when its code is at most the stored level. */
  predicate Passes(level: LogLevel, current: u8) {
    !(Code(level) > current)
  }

  /** Error, code 0, is never filtered out, whatever the stored level. */
  lemma ErrorAlwaysPasses(current: u8)
    ensures Passes(Error, current)
  {
  }

  /**
   * The static `CURRENT_LEVEL: AtomicU8`. Every store writes `level as u8`,
   * so the stored value is always the code of some level.
   */
  class GlobalLevel {
    var current: u8

    ghost predicate Valid()
      reads this
    {
      current < 5
    }

    /** The level the stored code stands for. */
    function Level(): (l: LogLevel)
      reads this
      requires Valid()
      ensures Code(l) == current
    {
      Levels[current]
    }

    /** The static initialiser: `AtomicU8::new(LogLevel::Info as u8)`. */
    constructor ()
      ensures Valid() && Level() == Info
    {
      current := Code(Info);
    }

    /** `init_logger`: store the level named by LOG_LEVEL (`env` is the variable's value). */
    method InitLogger(env: Option<string>)
      modifies this
      ensures Valid() && Level() == FromEnv(env)
    {
      var level := FromEnv(env);
      current := Code(level);
    }

    /** `set_log_level`. */
    method SetLogLevel(level: LogLevel)
      modifies this
      ensures Valid() && Level() == level
    {
      current := Code(level);
    }

    /** Whether a message of `level` would be printed now. */
    function Enabled(level: LogLevel): (b: bool)
      reads this
      ensures b <==> Code(level) <= current
    {
      Passes(level, current)
    }

    /**
     * `log_impl`: the line printed for a message, or `None` when the level is
     * filtered out. The timestamp is a parameter; colour codes are not modelled.
     */
    method Log(level: LogLevel, timestamp: string, message: string) returns (line: Option<string>)
      ensures line.Some? <==> Code(level) <= current
      ensures line.Some? ==> line.value == "[" + AsStr(level) + "] " + timestamp + " " + message
    {
      var currentLevel := current;
      if Code(level) > currentLevel {
        return None;
      }
      line := Some("[" + AsStr(level) + "] " + timestamp + " " + message);
    }
  }

  /** With the initial level Info, Debug and Trace are suppressed and the other three print. */
  lemma InitialLevelFilter(g: GlobalLevel)
    requires g.Valid() && g.Level() == Info
    ensures !g.Enabled(Debug) && !g.Enabled(Trace)
    ensures g.Enabled(Error) && g.Enabled(Warn) && g.Enabled(Info)
  {
  }
}
