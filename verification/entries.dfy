/**
 The text form of one log entry:

   [<timestamp>] [<LEVEL>] [<channel>] <message>\n

 optionally followed by a traceback block `Traceback:\n<stack>\n`. An entry is
 never kept as an object; it is rendered and appended. `Decode` reads one
 entry back, and the round-trip lemmas show that the rendering loses nothing
 whenever the bracketed fields contain no `]` and the message no line break.
 */
module Entries {
  import opened Wrappers
  import opened Text

  /** The levels the public calls pass to the writer. */
  datatype Level = INFO | WARN | ERROR

  /** The level as it appears between brackets. */
  function LevelName(l: Level): (r: string)
    ensures ']' !in r && |r| > 0
  {
    match l
    case INFO => "INFO"
    case WARN => "WARN"
    case ERROR => "ERROR"
  }

  /** The level a bracketed name stands for, if any. */
  function ParseLevel(s: string): (r: Option<Level>)
    ensures forall l :: r == Some(l) <==> LevelName(l) == s
  {
    if s == "INFO" then Some(INFO)
    else if s == "WARN" then Some(WARN)
    else if s == "ERROR" then Some(ERROR)
    else None
  }

  /** What one call hands to the writer, with the timestamp the writer reads. */
  datatype Entry = Entry(stamp: string, level: Level, channel: string, msg: string, stack: Option<string>)

  /** The first line of an entry. */
  function Header(stamp: string, level: Level, channel: string, msg: string): string {
    "[" + stamp + "] [" + LevelName(level) + "] [" + channel + "] " + msg + "\n"
  }

  /** The block that follows the first line: nothing, or a traceback. */
  function Traceback(stack: Option<string>): string {
    match stack
    case None => ""
    case Some(s) => "Traceback:\n" + s + "\n"
  }

  /** The complete text appended for one entry. */
  function Format(e: Entry): (r: string)
    ensures |r| > 0 && r[|r| - 1] == '\n'
  {
    Header(e.stamp, e.level, e.channel, e.msg) + Traceback(e.stack)
  }

  /** The entries whose text can be read back unambiguously. */
  predicate Decodable(e: Entry) {
    ']' !in e.stamp && ']' !in e.channel && '\n' !in e.msg
  }

  /** Splits `[field]rest` at the first `]`. */
  function Bracketed(s: string): (r: Option<(string, string)>)
    ensures r.Some? ==> s == "[" + r.value.0 + "]" + r.value.1 && ']' !in r.value.0
  {
    if |s| == 0 || s[0] != '[' then None
    else match IndexOf(s[1..], ']')
      case None => None
      case Some(k) =>
        assert s == "[" + s[1..][..k] + "]" + s[k + 2..];
        Some((s[1..][..k], s[k + 2..]))
  }

  /** Splits `line\nrest` at the first line break. */
  function Line(s: string): (r: Option<(string, string)>)
    ensures r.Some? ==> s == r.value.0 + "\n" + r.value.1 && '\n' !in r.value.0
  {
    match IndexOf(s, '\n')
    case None => None
    case Some(k) =>
      assert s == s[..k] + "\n" + s[k + 1..];
      Some((s[..k], s[k + 1..]))
  }

  /** Reads the block after the first line back into an optional stack. */
  function ParseTraceback(s: string): (r: Option<Option<string>>)
    ensures r.Some? ==> Traceback(r.value) == s
  {
    if s == "" then Some(None)
    else if |s| >= 12 && HasPrefix(s, "Traceback:\n") && s[|s| - 1] == '\n' then
      assert s == "Traceback:\n" + s[11..|s| - 1] + "\n";
      Some(Some(s[11..|s| - 1]))
    else None
  }

  /** Drops the single space that separates two fields. */
  function Spaced(s: string): (r: Option<string>)
    ensures r.Some? ==> s == " " + r.value
  {
    if |s| > 0 && s[0] == ' ' then Some(s[1..]) else None
  }

  /** The text after the channel field: ` <message>\n<block>`. */
  function MessagePart(msg: string, stack: Option<string>): string {
    " " + (msg + "\n" + Traceback(stack))
  }

  /** The text after the level field: ` [<channel>]` and the message part. */
  function ChannelPart(channel: string, msg: string, stack: Option<string>): string {
    " " + ("[" + channel + "]" + MessagePart(msg, stack))
  }

  /** The text after the timestamp field: ` [<LEVEL>]` and the channel part. */
  function LevelPart(level: Level, channel: string, msg: string, stack: Option<string>): string {
    " " + ("[" + LevelName(level) + "]" + ChannelPart(channel, msg, stack))
  }

  /** The layout of an entry regrouped field by field, over arbitrary texts. */
  lemma Regrouped(stamp: string, name: string, channel: string, msg: string, block: string)
    ensures "[" + stamp + "] [" + name + "] [" + channel + "] " + msg + "\n" + block
         == "[" + stamp + "]" + (" " + ("[" + name + "]" + (" " + ("[" + channel + "]" + (" " + (msg + "\n" + block))))))
  {
    var m := " " + (msg + "\n" + block);
    var c := " " + ("[" + channel + "]" + m);
    var l := " " + ("[" + name + "]" + c);
    assert "] " + msg + "\n" + block == "]" + m;
    assert "] [" + channel + "] " + msg + "\n" + block == "]" + c;
    assert "] [" + name + "] [" + channel + "] " + msg + "\n" + block == "]" + l;
  }

  /** An entry's text is its bracketed timestamp followed by the level part. */
  lemma FormatParts(e: Entry)
    ensures Format(e) == "[" + e.stamp + "]" + LevelPart(e.level, e.channel, e.msg, e.stack)
  {
    Regrouped(e.stamp, LevelName(e.level), e.channel, e.msg, Traceback(e.stack));
  }

  /** Reads the message part: the message and the optional stack. */
  function DecodeMessage(s: string): (r: Option<(string, Option<string>)>)
    ensures r.Some? ==> '\n' !in r.value.0 && s == MessagePart(r.value.0, r.value.1)
  {
    var s1 :- Spaced(s);
    var (msg, rest) :- Line(s1);
    var stack :- ParseTraceback(rest);
    Some((msg, stack))
  }

  /** Reads the channel part. */
  function DecodeChannel(s: string): (r: Option<(string, string, Option<string>)>)
    ensures r.Some? ==>
      && ']' !in r.value.0 && '\n' !in r.value.1
      && s == ChannelPart(r.value.0, r.value.1, r.value.2)
  {
    var s1 :- Spaced(s);
    var (channel, rest) :- Bracketed(s1);
    var m :- DecodeMessage(rest);
    Some((channel, m.0, m.1))
  }

  /** Reads the level part. */
  function DecodeLevel(s: string): (r: Option<(Level, string, string, Option<string>)>)
    ensures r.Some? ==>
      && ']' !in r.value.1 && '\n' !in r.value.2
      && s == LevelPart(r.value.0, r.value.1, r.value.2, r.value.3)
  {
    var s1 :- Spaced(s);
    var (name, rest) :- Bracketed(s1);
    var level :- ParseLevel(name);
    var c :- DecodeChannel(rest);
    Some((level, c.0, c.1, c.2))
  }

  /** Reads one entry's text back into its fields. */
  function Decode(t: string): (r: Option<Entry>)
    ensures r.Some? ==> Decodable(r.value) && Format(r.value) == t
  {
    var (stamp, rest) :- Bracketed(t);
    var l :- DecodeLevel(rest);
    var e := Entry(stamp, l.0, l.1, l.2, l.3);
    FormatParts(e);
    Some(e)
  }

  lemma BracketedOf(f: string, rest: string)
    requires ']' !in f
    ensures Bracketed("[" + f + "]" + rest) == Some((f, rest))
  {
    var s := "[" + f + "]" + rest;
    assert s[1..] == f + "]" + rest;
    IndexOfAfter(f, ']', rest);
    assert s[1..][..|f|] == f;
  }

  lemma LineOf(l: string, rest: string)
    requires '\n' !in l
    ensures Line(l + "\n" + rest) == Some((l, rest))
  {
    IndexOfAfter(l, '\n', rest);
    assert (l + "\n" + rest)[..|l|] == l;
  }

  lemma ParseTracebackOf(stack: Option<string>)
    ensures ParseTraceback(Traceback(stack)) == Some(stack)
  {
    if stack.Some? {
      var s := Traceback(stack);
      assert s[..11] == "Traceback:\n";
      assert s[11..|s| - 1] == stack.value;
    }
  }

  lemma DecodeMessageOf(msg: string, stack: Option<string>)
    requires '\n' !in msg
    ensures DecodeMessage(MessagePart(msg, stack)) == Some((msg, stack))
  {
    assert MessagePart(msg, stack)[1..] == msg + "\n" + Traceback(stack);
    LineOf(msg, Traceback(stack));
    ParseTracebackOf(stack);
  }

  lemma DecodeChannelOf(channel: string, msg: string, stack: Option<string>)
    requires ']' !in channel && '\n' !in msg
    ensures DecodeChannel(ChannelPart(channel, msg, stack)) == Some((channel, msg, stack))
  {
    assert ChannelPart(channel, msg, stack)[1..] == "[" + channel + "]" + MessagePart(msg, stack);
    BracketedOf(channel, MessagePart(msg, stack));
    DecodeMessageOf(msg, stack);
  }

  lemma DecodeLevelOf(level: Level, channel: string, msg: string, stack: Option<string>)
    requires ']' !in channel && '\n' !in msg
    ensures DecodeLevel(LevelPart(level, channel, msg, stack)) == Some((level, channel, msg, stack))
  {
    var rest := ChannelPart(channel, msg, stack);
    assert LevelPart(level, channel, msg, stack)[1..] == "[" + LevelName(level) + "]" + rest;
    BracketedOf(LevelName(level), rest);
    DecodeChannelOf(channel, msg, stack);
  }

  /** Every decodable entry is read back exactly from its text. */
  lemma DecodeFormat(e: Entry)
    requires Decodable(e)
    ensures Decode(Format(e)) == Some(e)
  {
    FormatParts(e);
    BracketedOf(e.stamp, LevelPart(e.level, e.channel, e.msg, e.stack));
    DecodeLevelOf(e.level, e.channel, e.msg, e.stack);
  }

  /** Distinct decodable entries never share a text. */
  lemma FormatInjective(e1: Entry, e2: Entry)
    requires Decodable(e1) && Decodable(e2)
    requires Format(e1) == Format(e2)
    ensures e1 == e2
  {
    DecodeFormat(e1);
    DecodeFormat(e2);
  }

  /** The layout with everything from the channel on taken as one text. */
  lemma FromChannel(stamp: string, name: string, channel: string, msg: string, block: string)
    ensures "[" + stamp + "] [" + name + "] [" + channel + "] " + msg + "\n" + block
         == "[" + stamp + "] [" + name + "] [" + (channel + "] " + (msg + "\n" + block))
  {
  }

  /**
   Without `Decodable` the text is ambiguous: a channel holding `] [` renders
   like a shorter channel whose message starts with the rest of it.
   */
  lemma ChannelAmbiguous(stamp: string, level: Level, a: string, b: string, msg: string, stack: Option<string>)
    ensures Format(Entry(stamp, level, a + "] [" + b, msg, stack))
         == Format(Entry(stamp, level, a, "[" + b + "] " + msg, stack))
  {
    var block := Traceback(stack);
    FromChannel(stamp, LevelName(level), a + "] [" + b, msg, block);
    FromChannel(stamp, LevelName(level), a, "[" + b + "] " + msg, block);
    assert a + "] [" + b + "] " + (msg + "\n" + block) == a + "] " + ("[" + b + "] " + msg + "\n" + block);
  }

  /** Without `Decodable` a line break in the message can imitate a traceback. */
  lemma MessageAmbiguous(stamp: string, level: Level, channel: string, msg: string, stack: string)
    ensures Format(Entry(stamp, level, channel, msg + "\nTraceback:\n" + stack, None))
         == Format(Entry(stamp, level, channel, msg, Some(stack)))
  {
    var name := LevelName(level);
    FromChannel(stamp, name, channel, msg + "\nTraceback:\n" + stack, "");
    FromChannel(stamp, name, channel, msg, "Traceback:\n" + stack + "\n");
    assert msg + "\nTraceback:\n" + stack + "\n" + "" == msg + "\n" + ("Traceback:\n" + stack + "\n");
  }

  /** A traceback block followed by a line reads as a longer traceback block. */
  lemma BlockAbsorbs(head: string, stack: string, line: string)
    ensures head + ("Traceback:\n" + stack + "\n") + (line + "\n")
         == head + ("Traceback:\n" + (stack + "\n" + line) + "\n")
  {
  }

  /** The line break before a header line, taken as the header's first character. */
  lemma LeadingBreak(stack: string, stamp: string, name: string, channel: string, msg: string)
    ensures stack + "\n[" + stamp + "] [" + name + "] [" + channel + "] " + msg
         == stack + "\n" + ("[" + stamp + "] [" + name + "] [" + channel + "] " + msg)
  {
  }

  /**
   Even among decodable entries a file of several entries does not split
   uniquely: an entry with a stack followed by a plain entry renders like one
   entry whose stack holds the second entry's line.
   */
  lemma ConcatAmbiguous(stamp: string, channel: string, msg: string, stack: string, level: Level, next: string)
    ensures Format(Entry(stamp, ERROR, channel, msg, Some(stack))) + Format(Entry(stamp, level, channel, next, None))
         == Format(Entry(stamp, ERROR, channel, msg,
                         Some(stack + "\n[" + stamp + "] [" + LevelName(level) + "] [" + channel + "] " + next)))
  {
    var head := Header(stamp, ERROR, channel, msg);
    var line := "[" + stamp + "] [" + LevelName(level) + "] [" + channel + "] " + next;
    assert Format(Entry(stamp, level, channel, next, None)) == line + "\n";
    LeadingBreak(stack, stamp, LevelName(level), channel, next);
    BlockAbsorbs(head, stack, line);
  }
}
