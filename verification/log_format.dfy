/** The installer's log levels and the console-tag framing `log` puts around
    a message before writing it to Composer's IO channel. */
module LogFormat {
  import opened PhpValues

  const LogInfo: int := 1
  const LogWarning: int := 2
  const LogError: int := 3

  /** The console style tags `log` wraps a message in, per level; other
      levels have none. */
  function Frame(level: int): Option<(string, string)> {
    if level == LogInfo then Some(("<info>", "</info>"))
    else if level == LogWarning then Some(("<warning>", "</warning>"))
    else if level == LogError then Some(("<error>", "</error>"))
    else None
  }

  /** Exactly levels 1, 2 and 3 have tags, and each closing tag is its
      opening tag with a slash after the `<`. */
  lemma FramePairs(level: int)
    ensures Frame(level).Some? <==> level == LogInfo || level == LogWarning || level == LogError
    ensures Frame(level).Some? ==>
      var (open, close) := Frame(level).value;
      && |open| >= 3 && open[0] == '<' && open[|open| - 1] == '>'
      && close == "</" + open[1..]
  {
  }

  /** The line `log(level, message)` writes, if any. */
  function Tagged(level: int, message: string): (r: Option<string>)
    ensures r.Some? <==> level == LogInfo || level == LogWarning || level == LogError
  {
    match Frame(level)
    case None => None
    case Some((open, close)) => Some(open + message + close)
  }

  /** The lines a `log` call adds to the channel: one or none. */
  function LinesOf(line: Option<string>): seq<string> {
    if line.Some? then [line.value] else []
  }

  /** Whether `line` is a message framed by `open` and `close`. */
  predicate FramedBy(line: string, open: string, close: string) {
    |open| + |close| <= |line|
    && line[..|open|] == open
    && line[|line| - |close|..] == close
  }

  /** The message inside a framed line. */
  function Unframe(line: string, open: string, close: string): string
    requires FramedBy(line, open, close)
  {
    line[|open|..|line| - |close|]
  }

  /** Reads a log line back into its level and message. */
  function Untag(line: string): Option<(int, string)> {
    if FramedBy(line, "<info>", "</info>") then Some((LogInfo, Unframe(line, "<info>", "</info>")))
    else if FramedBy(line, "<warning>", "</warning>") then Some((LogWarning, Unframe(line, "<warning>", "</warning>")))
    else if FramedBy(line, "<error>", "</error>") then Some((LogError, Unframe(line, "<error>", "</error>")))
    else None
  }

  lemma FramedAround(open: string, message: string, close: string)
    ensures FramedBy(open + message + close, open, close)
    ensures Unframe(open + message + close, open, close) == message
  {
  }

  /** A framed line is its tags around the message inside. */
  lemma FramedRebuilt(line: string, open: string, close: string)
    requires FramedBy(line, open, close)
    ensures open + Unframe(line, open, close) + close == line
  {
    assert line == line[..|open|] + line[|open|..|line| - |close|] + line[|line| - |close|..];
  }

  /** Every line `log` writes can be read back: the level and the message
      are recovered exactly, so distinct calls give distinct lines. */
  lemma TaggedRoundTrip(level: int, message: string)
    requires Tagged(level, message).Some?
    ensures Untag(Tagged(level, message).value) == Some((level, message))
  {
    var (open, close) := Frame(level).value;
    var line := open + message + close;
    FramedAround(open, message, close);
    if level != LogInfo {
      assert line[..|"<info>"|][1] == open[1] != "<info>"[1];
    }
    if level == LogError {
      assert line[..|"<warning>"|][1] == open[1] != "<warning>"[1];
    }
  }

  /** Conversely, every line that reads back is exactly what `log` writes
      for the level and message it reads back as. */
  lemma UntagRoundTrip(line: string)
    requires Untag(line).Some?
    ensures Tagged(Untag(line).value.0, Untag(line).value.1) == Some(line)
  {
    if FramedBy(line, "<info>", "</info>") {
      FramedRebuilt(line, "<info>", "</info>");
    } else if FramedBy(line, "<warning>", "</warning>") {
      FramedRebuilt(line, "<warning>", "</warning>");
    } else {
      FramedRebuilt(line, "<error>", "</error>");
    }
  }

  lemma TaggedInjective(level1: int, message1: string, level2: int, message2: string)
    requires Tagged(level1, message1).Some?
    requires Tagged(level1, message1) == Tagged(level2, message2)
    ensures level1 == level2 && message1 == message2
  {
    TaggedRoundTrip(level1, message1);
    TaggedRoundTrip(level2, message2);
  }
}
