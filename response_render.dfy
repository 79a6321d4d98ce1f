/**
 * The renderer of src/cli/response_render.rs, with its output written as an
 * explicit trace of events instead of terminal writes and real sleeps.
 */
module ResponseRender {
  import opened Wrappers
  import opened Chars
  import Logger

  newtype u32 = x: int | 0 <= x < 0x1_0000_0000

  /** `RenderConfig`; `typeSpeed` only sets the length of a sleep, which the trace does not record. */
  datatype RenderConfig = RenderConfig(
    pure: bool,
    modelConfigName: string,
    modelName: string,
    promptConfigName: string,
    typeSpeed: u32,
    disableStream: bool)

  /** One observable step of the renderer. */
  datatype Event =
    | Emit(text: string)           // a `print!` of text (paced units are flushed too)
    | Sleep                        // `sleep(word_interval)`
    | StatusBar(modelConfigName: string, modelName: string, promptConfigName: string)
    | Log(level: Logger.LogLevel, message: string)

  /** The test of `print_with_interval` that ends a unit. */
  predicate IsBoundary(c: char) {
    IsWhitespace(c) || IsAsciiPunctuation(c) || IsSeparator(c)
  }

  /** Path separators are ASCII punctuation on every target ('/' and, on Windows, '\\'). */
  lemma SeparatorsArePunctuation(c: char)
    requires c == '/' || c == '\\'
    ensures IsAsciiPunctuation(c)
  {
  }

  predicate NoBoundary(s: string) {
    forall j :: 0 <= j < |s| ==> !IsBoundary(s[j])
  }

  /** The index of the first boundary character of `s`, if there is one. */
  function FirstBoundary(s: string): (r: Option<nat>)
    ensures r.Some? ==> r.value < |s| && IsBoundary(s[r.value]) && NoBoundary(s[..r.value])
    ensures r.None? ==> NoBoundary(s)
  {
    if s == [] then None
    else if IsBoundary(s[0]) then Some(0)
    else match FirstBoundary(s[1..])
      case None => None
      case Some(k) => assert s[..k + 1] == [s[0]] + s[1..][..k]; Some(k + 1)
  }

  /**
   * The reference trace of word pacing: cut the text after its first boundary
   * character, emit that unit and sleep, and repeat on the rest; a rest without
   * a boundary is emitted whole, with no sleep after it.
   */
  function Paced(s: string): seq<Event>
    decreases |s|
  {
    if s == [] then []
    else match FirstBoundary(s)
      case None => [Emit(s)]
      case Some(k) => [Emit(s[..k + 1]), Sleep] + Paced(s[k + 1..])
  }

  /** A unit emitted inside the loop: non-empty, ending at its only boundary character. */
  predicate IsWord(u: string) {
    u != [] && IsBoundary(u[|u| - 1]) && NoBoundary(u[..|u| - 1])
  }

  /** The unit emitted after the loop: non-empty and boundary-free. */
  predicate IsTail(u: string) {
    u != [] && NoBoundary(u)
  }

  /**
   * The shape of a paced trace: words each followed by exactly one sleep,
   * then at most one tail with no sleep after it.
   */
  predicate WellPaced(t: seq<Event>)
    decreases |t|
  {
    || t == []
    || (|t| == 1 && t[0].Emit? && IsTail(t[0].text))
    || (|t| >= 2 && t[0].Emit? && IsWord(t[0].text) && t[1] == Sleep && WellPaced(t[2..]))
  }

  /** The text written by a trace: its emitted strings, in order. */
  function Text(t: seq<Event>): string
    decreases |t|
  {
    if t == [] then []
    else (if t[0].Emit? then t[0].text else []) + Text(t[1..])
  }

  function Sleeps(t: seq<Event>): nat
    decreases |t|
  {
    if t == [] then 0 else (if t[0] == Sleep then 1 else 0) + Sleeps(t[1..])
  }

  function StatusBars(t: seq<Event>): nat
    decreases |t|
  {
    if t == [] then 0 else (if t[0].StatusBar? then 1 else 0) + StatusBars(t[1..])
  }

  function BoundaryCount(s: string): nat
    decreases |s|
  {
    if s == [] then 0 else (if IsBoundary(s[0]) then 1 else 0) + BoundaryCount(s[1..])
  }

  /** Text, sleep count and status-bar count of a concatenation add up. */
  lemma {:induction false} TraceAppend(a: seq<Event>, b: seq<Event>)
    ensures Text(a + b) == Text(a) + Text(b)
    ensures Sleeps(a + b) == Sleeps(a) + Sleeps(b)
    ensures StatusBars(a + b) == StatusBars(a) + StatusBars(b)
    decreases |a|
  {
    if a != [] {
      assert (a + b)[1..] == a[1..] + b;
      TraceAppend(a[1..], b);
    } else {
      assert a + b == b;
    }
  }

  lemma {:induction false} BoundaryCountAppend(a: string, b: string)
    ensures BoundaryCount(a + b) == BoundaryCount(a) + BoundaryCount(b)
    decreases |a|
  {
    if a != [] {
      assert (a + b)[1..] == a[1..] + b;
      BoundaryCountAppend(a[1..], b);
    } else {
      assert a + b == b;
    }
  }

  lemma {:induction false} NoBoundaryCount(s: string)
    requires NoBoundary(s)
    ensures BoundaryCount(s) == 0
    decreases |s|
  {
    if s != [] {
      NoBoundaryCount(s[1..]);
    }
  }

  /** Unfolding `Paced` on a word followed by anything. */
  lemma {:induction false} FirstBoundaryAt(s: string, n: nat)
    requires n < |s| && IsBoundary(s[n]) && NoBoundary(s[..n])
    ensures FirstBoundary(s) == Some(n)
    decreases n
  {
    if n > 0 {
      assert s[..n][0] == s[0];
      assert s[1..][..n - 1] == s[..n][1..];
      FirstBoundaryAt(s[1..], n - 1);
    }
  }

  lemma PacedWord(w: string, rest: string)
    requires IsWord(w)
    ensures Paced(w + rest) == [Emit(w), Sleep] + Paced(rest)
  {
    var s := w + rest;
    var n := |w| - 1;
    assert s[..n] == w[..n];
    FirstBoundaryAt(s, n);
    assert s[..n + 1] == w;
    assert s[n + 1..] == rest;
  }

  /** Unfolding `Paced` on a boundary-free string. */
  lemma PacedTail(w: string)
    requires NoBoundary(w)
    ensures Paced(w) == if w == [] then [] else [Emit(w)]
  {
    if w != [] {
      assert FirstBoundary(w).None?;
    }
  }

  /** The reference trace has the paced shape. */
  lemma {:induction false} PacedIsWellPaced(s: string)
    ensures WellPaced(Paced(s))
    decreases |s|
  {
    if s != [] {
      match FirstBoundary(s)
      case None =>
      case Some(k) =>
        var w := s[..k + 1];
        assert w[..|w| - 1] == s[..k];
        PacedIsWellPaced(s[k + 1..]);
        var t := Paced(s);
        assert t[2..] == Paced(s[k + 1..]);
    }
  }

  /** Round trip: the emitted units concatenate to exactly the input. */
  lemma {:induction false} PacedText(s: string)
    ensures Text(Paced(s)) == s
    decreases |s|
  {
    if s != [] {
      var t := Paced(s);
      match FirstBoundary(s)
      case None =>
        TextOfTail(t);
      case Some(k) =>
        PacedText(s[k + 1..]);
        TextOfWord(t);
        assert t[2..] == Paced(s[k + 1..]);
        assert s[..k + 1] + s[k + 1..] == s;
    }
  }

  /** Exactly one sleep per boundary character of the input. */
  lemma {:induction false} PacedSleeps(s: string)
    ensures Sleeps(Paced(s)) == BoundaryCount(s)
    decreases |s|
  {
    if s != [] {
      match FirstBoundary(s)
      case None =>
        NoBoundaryCount(s);
      case Some(k) =>
        var e := [Emit(s[..k + 1]), Sleep];
        PacedSleeps(s[k + 1..]);
        TraceAppend(e, Paced(s[k + 1..]));
        assert Sleeps(e) == 1 + Sleeps([Sleep][1..]);
        NoBoundaryCount(s[..k]);
        BoundaryCountAppend(s[..k], s[k..]);
        assert s[..k] + s[k..] == s;
        assert s[k..][1..] == s[k + 1..];
    }
  }

  /** The paced trace is the only well-paced trace that writes `s`. */
  lemma {:induction false} PacedUnique(s: string, t: seq<Event>)
    requires WellPaced(t) && Text(t) == s
    ensures t == Paced(s)
    decreases |t|
  {
    if t == [] {
    } else if |t| == 1 {
      TextOfTail(t);
      PacedTail(s);
    } else {
      var w, rest := t[0].text, t[2..];
      TextOfWord(t);
      PacedUnique(Text(rest), rest);
      PacedWord(w, Text(rest));
    }
  }

  lemma TextOfTail(t: seq<Event>)
    requires |t| == 1 && t[0].Emit?
    ensures t == [Emit(Text(t))]
  {
    assert t[1..] == [];
    assert Text(t) == t[0].text + Text([]);
    assert Text(t) == t[0].text;
    assert t == [t[0]];
  }

  lemma TextOfWord(t: seq<Event>)
    requires |t| >= 2 && t[0].Emit? && t[1] == Sleep
    ensures t == [Emit(t[0].text), Sleep] + t[2..]
    ensures Text(t) == t[0].text + Text(t[2..])
  {
    assert t[1..][1..] == t[2..];
    assert Text(t[1..]) == Text(t[2..]);
  }

  /** No well-paced trace emits an empty string or writes anything but text and sleeps. */
  lemma {:induction false} WellPacedEvents(t: seq<Event>)
    requires WellPaced(t)
    ensures forall i :: 0 <= i < |t| ==> t[i] == Sleep || (t[i].Emit? && t[i].text != [])
    ensures StatusBars(t) == 0
    decreases |t|
  {
    if |t| >= 2 && t[0].Emit? && IsWord(t[0].text) && t[1] == Sleep && WellPaced(t[2..]) {
      WellPacedEvents(t[2..]);
      assert t == t[..2] + t[2..];
      TraceAppend(t[..2], t[2..]);
      assert StatusBars(t[..2]) == StatusBars(t[..2][1..]);
    }
  }

  /**
   * `print_with_interval`: push each character onto `current_word`; at a
   * boundary emit the word and sleep; emit a non-empty tail at the end.
   */
  method PrintWithInterval(s: string) returns (out: seq<Event>)
    ensures out == Paced(s)
  {
    var currentWord: string := [];
    out := [];
    assert currentWord + s[0..] == s;
    for i := 0 to |s|
      invariant NoBoundary(currentWord)
      invariant out + Paced(currentWord + s[i..]) == Paced(s)
    {
      var c := s[i];
      PrintStep(currentWord, s, i);
      currentWord := currentWord + [c];
      if IsBoundary(c) {
        out := out + [Emit(currentWord), Sleep];
        currentWord := [];
      }
    }
    PrintEnd(currentWord, s);
    if currentWord != [] {
      out := out + [Emit(currentWord)];
    }
  }

  /** One iteration of `print_with_interval`'s loop, in terms of the reference trace. */
  lemma PrintStep(w: string, s: string, i: nat)
    requires NoBoundary(w) && i < |s|
    ensures IsBoundary(s[i]) ==>
      Paced(w + s[i..]) == [Emit(w + [s[i]]), Sleep] + Paced([] + s[i + 1..])
    ensures !IsBoundary(s[i]) ==>
      NoBoundary(w + [s[i]]) && w + s[i..] == (w + [s[i]]) + s[i + 1..]
  {
    assert w + s[i..] == (w + [s[i]]) + s[i + 1..];
    assert [] + s[i + 1..] == s[i + 1..];
    if IsBoundary(s[i]) {
      assert (w + [s[i]])[..|w|] == w;
      PacedWord(w + [s[i]], s[i + 1..]);
    }
  }

  /** After the loop, the pending word is the whole remaining reference trace. */
  lemma PrintEnd(w: string, s: string)
    requires NoBoundary(w)
    ensures Paced(w + s[|s|..]) == if w == [] then [] else [Emit(w)]
  {
    assert w + s[|s|..] == w;
    PacedTail(w);
  }

  /** The events for one received message. */
  function RenderMessage(config: RenderConfig, m: string): seq<Event> {
    if config.disableStream then [Emit(m)] else Paced(m)
  }

  /** The events for the messages, in arrival order. */
  function Body(config: RenderConfig, msgs: seq<string>): seq<Event>
    decreases |msgs|
  {
    if msgs == [] then []
    else Body(config, msgs[..|msgs| - 1]) + RenderMessage(config, msgs[|msgs| - 1])
  }

  /** A log line of `level`, present only when the level passes the stored one. */
  function Logged(current: Logger.u8, level: Logger.LogLevel, message: string): seq<Event> {
    if Logger.Passes(level, current) then [Log(level, message)] else []
  }

  function Header(config: RenderConfig, current: Logger.u8): seq<Event> {
    if config.pure then []
    else [StatusBar(config.modelConfigName, config.modelName, config.promptConfigName)]
         + Logged(current, Logger.Trace, "Render Status Bar.")
  }

  /** The whole trace of `render_task_impl` for the messages received before the channel closed. */
  function Rendered(config: RenderConfig, msgs: seq<string>, current: Logger.u8): seq<Event> {
    Header(config, current) + Body(config, msgs) + Logged(current, Logger.Debug, "Message Receiver Exit.")
  }

  /** The concatenation of the messages. */
  function Concat(msgs: seq<string>): string
    decreases |msgs|
  {
    if msgs == [] then [] else Concat(msgs[..|msgs| - 1]) + msgs[|msgs| - 1]
  }

  function TotalBoundaries(msgs: seq<string>): nat
    decreases |msgs|
  {
    if msgs == [] then 0 else TotalBoundaries(msgs[..|msgs| - 1]) + BoundaryCount(msgs[|msgs| - 1])
  }

  /**
   * `render_task_impl`: the status bar unless `pure`, then each message,
   * whole when `disable_stream` and paced otherwise. `level` is the logger's
   * global state, read by the two log calls.
   */
  method RenderTaskImpl(config: RenderConfig, messages: seq<string>, level: Logger.GlobalLevel) returns (out: seq<Event>)
    ensures out == Rendered(config, messages, level.current)
  {
    out := [];
    if !config.pure {
      out := out + [StatusBar(config.modelConfigName, config.modelName, config.promptConfigName)];
      if level.Enabled(Logger.Trace) {
        out := out + [Log(Logger.Trace, "Render Status Bar.")];
      }
    }
    ghost var header := out;
    assert header == Header(config, level.current);
    var i := 0;
    while i < |messages|
      invariant 0 <= i <= |messages|
      invariant out == header + Body(config, messages[..i])
    {
      var value := messages[i];
      var rendered: seq<Event>;
      if config.disableStream {
        rendered := [Emit(value)];
      } else {
        rendered := PrintWithInterval(value);
      }
      assert rendered == RenderMessage(config, value);
      BodyStep(config, messages, i);
      AppendAssoc(header, Body(config, messages[..i]), rendered);
      out := out + rendered;
      i := i + 1;
    }
    assert messages[..i] == messages;
    if level.Enabled(Logger.Debug) {
      out := out + [Log(Logger.Debug, "Message Receiver Exit.")];
    }
  }

  lemma AppendAssoc(a: seq<Event>, b: seq<Event>, c: seq<Event>)
    ensures (a + b) + c == a + (b + c)
  {
  }

  /** Receiving one more message appends its events. */
  lemma BodyStep(config: RenderConfig, msgs: seq<string>, i: nat)
    requires i < |msgs|
    ensures Body(config, msgs[..i + 1]) == Body(config, msgs[..i]) + RenderMessage(config, msgs[i])
  {
    assert msgs[..i + 1][..i] == msgs[..i];
  }

  /** The body writes exactly the concatenation of the messages. */
  lemma {:induction false} BodyText(config: RenderConfig, msgs: seq<string>)
    ensures Text(Body(config, msgs)) == Concat(msgs)
    ensures StatusBars(Body(config, msgs)) == 0
    ensures Sleeps(Body(config, msgs)) == if config.disableStream then 0 else TotalBoundaries(msgs)
    decreases |msgs|
  {
    if msgs != [] {
      var init, m := msgs[..|msgs| - 1], msgs[|msgs| - 1];
      BodyText(config, init);
      TraceAppend(Body(config, init), RenderMessage(config, m));
      if config.disableStream {
        assert Text([Emit(m)]) == m + Text([]);
      } else {
        PacedText(m);
        PacedSleeps(m);
        PacedIsWellPaced(m);
        WellPacedEvents(Paced(m));
      }
    }
  }

  /** With `disable_stream`, every message is one emit and there is nothing else, in order. */
  lemma {:induction false} BodyUnpaced(config: RenderConfig, msgs: seq<string>)
    requires config.disableStream
    ensures |Body(config, msgs)| == |msgs|
    ensures forall i :: 0 <= i < |msgs| ==> Body(config, msgs)[i] == Emit(msgs[i])
    decreases |msgs|
  {
    if msgs != [] {
      BodyUnpaced(config, msgs[..|msgs| - 1]);
    }
  }

  /** Log lines write no text, no sleep and no status bar. */
  lemma LoggedFacts(current: Logger.u8, level: Logger.LogLevel, message: string)
    ensures Text(Logged(current, level, message)) == []
    ensures Sleeps(Logged(current, level, message)) == 0
    ensures StatusBars(Logged(current, level, message)) == 0
  {
    var l := Logged(current, level, message);
    if l != [] {
      assert l[1..] == [];
    }
  }

  /** The header is the status bar (and its trace line) unless `pure`, and writes no text. */
  lemma HeaderFacts(config: RenderConfig, current: Logger.u8)
    ensures Text(Header(config, current)) == []
    ensures Sleeps(Header(config, current)) == 0
    ensures StatusBars(Header(config, current)) == if config.pure then 0 else 1
    ensures !config.pure ==> Header(config, current)[0].StatusBar?
  {
    if !config.pure {
      var bar := [StatusBar(config.modelConfigName, config.modelName, config.promptConfigName)];
      var tl := Logged(current, Logger.Trace, "Render Status Bar.");
      LoggedFacts(current, Logger.Trace, "Render Status Bar.");
      TraceAppend(bar, tl);
      assert bar[1..] == [];
    }
  }

  /**
   * What the whole render writes: the messages' concatenation, one sleep per
   * boundary character when paced and none otherwise, and exactly one status
   * bar, as the very first event, unless `pure`.
   */
  lemma RenderedProperties(config: RenderConfig, msgs: seq<string>, current: Logger.u8)
    ensures Text(Rendered(config, msgs, current)) == Concat(msgs)
    ensures Sleeps(Rendered(config, msgs, current)) == if config.disableStream then 0 else TotalBoundaries(msgs)
    ensures StatusBars(Rendered(config, msgs, current)) == if config.pure then 0 else 1
    ensures !config.pure ==> Rendered(config, msgs, current)[0].StatusBar?
  {
    var h, b, f := Header(config, current), Body(config, msgs), Logged(current, Logger.Debug, "Message Receiver Exit.");
    HeaderFacts(config, current);
    LoggedFacts(current, Logger.Debug, "Message Receiver Exit.");
    BodyText(config, msgs);
    TraceAppend(h, b);
    TraceAppend(h + b, f);
  }

  /** Rendering nothing paced writes nothing and never sleeps. */
  lemma EmptyInput()
    ensures Paced("") == []
    ensures Sleeps(Paced("")) == 0
  {
  }

  /** Lower-case ASCII letters never end a unit. */
  lemma LetterIsNotBoundary(c: char)
    requires 'a' <= c <= 'z'
    ensures !IsBoundary(c)
  {
  }

  lemma {:induction false} LettersHaveNoBoundary(s: string)
    requires forall j :: 0 <= j < |s| ==> 'a' <= s[j] <= 'z'
    ensures NoBoundary(s)
  {
    forall j | 0 <= j < |s| ensures !IsBoundary(s[j]) {
      LetterIsNotBoundary(s[j]);
    }
  }

  /**
   * "hello world!" is written as "hello " and "world!", each followed by a
   * sleep: '!' is ASCII punctuation, so the last unit ends at a boundary too.
   */
  lemma HelloWorld(s: string)
    requires s == "hello world!"
    ensures Paced(s) == [Emit("hello "), Sleep, Emit("world!"), Sleep]
  {
    var first, second := s[..6], s[6..];
    assert first == "hello " && second == "world!";
    LettersHaveNoBoundary(first[..5]);
    LettersHaveNoBoundary(second[..5]);
    assert s == first + second;
    PacedTwoWords(first, second);
  }

  lemma PacedTwoWords(a: string, b: string)
    requires IsWord(a) && IsWord(b)
    ensures Paced(a + b) == [Emit(a), Sleep, Emit(b), Sleep]
  {
    PacedWord(a, b);
    assert b + [] == b;
    PacedWord(b, []);
  }
}
