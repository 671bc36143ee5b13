// The offset-based reader of the live build log. The code decodes everything
// past the offset, cuts the text at its last newline and measures the kept
// text again to advance; the reference cuts the bytes at each newline first.
module BuildLog {
  import opened Bytes
  import opened Utf8

  // ---------------------------------------------------------------------
  // Reference: what the complete lines of a byte string say.
  // ---------------------------------------------------------------------

  /** The number of bytes up to and including the last newline. */
  function LineEnd(s: seq<byte>): (n: nat)
    ensures n <= |s| && (n > 0 ==> s[n - 1] == NEWLINE)
    ensures NEWLINE !in s[n..]
  {
    if s == [] then 0
    else if s[|s| - 1] == NEWLINE then |s|
    else
      assert s[LineEnd(s[..|s| - 1])..] == s[..|s| - 1][LineEnd(s[..|s| - 1])..] + [s[|s| - 1]];
      LineEnd(s[..|s| - 1])
  }

  predicate WholeLines(s: seq<byte>) {
    s == [] || s[|s| - 1] == NEWLINE
  }

  function FirstNewline(s: seq<byte>): (n: nat)
    ensures n <= |s| && NEWLINE !in s[..n] && (n < |s| ==> s[n] == NEWLINE)
  {
    if s == [] || s[0] == NEWLINE then 0
    else
      assert s[..1 + FirstNewline(s[1..])] == [s[0]] + s[1..][..FirstNewline(s[1..])];
      1 + FirstNewline(s[1..])
  }

  /** Zero or one event. */
  function Parsed<E>(parse: seq<rune> -> Option<E>, line: seq<rune>): seq<E> {
    match parse(line)
    case None => []
    case Some(e) => [e]
  }

  /** The events of the complete lines, in order, once each; lines that do not parse are skipped. */
  function Events<E>(parse: seq<rune> -> Option<E>, s: seq<byte>): seq<E>
    decreases |s|
  {
    var n := FirstNewline(s);
    if n == |s| then [] else Parsed(parse, Decode(s[..n])) + Events(parse, s[n + 1..])
  }

  lemma {:induction false} FirstNewlineIn(line: seq<byte>, rest: seq<byte>)
    requires NEWLINE !in line
    ensures FirstNewline(line + [NEWLINE] + rest) == |line|
    decreases |line|
  {
    var s := line + [NEWLINE] + rest;
    if line != [] {
      assert s[0] == line[0];
      assert s[1..] == line[1..] + [NEWLINE] + rest;
      FirstNewlineIn(line[1..], rest);
    }
  }

  lemma EventsOfLine<E>(parse: seq<rune> -> Option<E>, line: seq<byte>, rest: seq<byte>)
    requires NEWLINE !in line
    ensures Events(parse, line + [NEWLINE] + rest) == Parsed(parse, Decode(line)) + Events(parse, rest)
  {
    var s := line + [NEWLINE] + rest;
    FirstNewlineIn(line, rest);
    assert s[..|line|] == line && s[|line| + 1..] == rest;
  }

  /** Splits off the first line of whole lines. */
  lemma FirstLine(s: seq<byte>) returns (line: seq<byte>, rest: seq<byte>)
    requires s != [] && WholeLines(s)
    ensures s == line + [NEWLINE] + rest && NEWLINE !in line && WholeLines(rest)
  {
    var n := FirstNewline(s);
    assert s[|s| - 1] in s && s[..|s|] == s;
    line, rest := s[..n], s[n + 1..];
    assert s == s[..n] + [s[n]] + s[n + 1..];
  }

  lemma Regroup<T>(x: seq<T>, y: seq<T>, z: seq<T>)
    ensures (x + y) + z == x + (y + z)
  {}

  lemma {:induction false} EventsConcat<E>(parse: seq<rune> -> Option<E>, s: seq<byte>, t: seq<byte>)
    requires WholeLines(s)
    ensures Events(parse, s + t) == Events(parse, s) + Events(parse, t)
    decreases |s|
  {
    if s == [] {
      assert s + t == t;
    } else {
      var line, rest := FirstLine(s);
      Regroup(line + [NEWLINE], rest, t);
      EventsOfLine(parse, line, rest + t);
      EventsOfLine(parse, line, rest);
      EventsConcat(parse, rest, t);
      Regroup(Parsed(parse, Decode(line)), Events(parse, rest), Events(parse, t));
    }
  }

  lemma LineEndUnique(whole: seq<byte>, partial: seq<byte>)
    requires WholeLines(whole) && NEWLINE !in partial
    ensures LineEnd(whole + partial) == |whole|
    decreases |partial|
  {
    if partial == [] {
      assert whole + partial == whole;
    } else {
      var s := whole + partial;
      assert s[|s| - 1] == partial[|partial| - 1];
      assert s[..|s| - 1] == whole + partial[..|partial| - 1];
      LineEndUnique(whole, partial[..|partial| - 1]);
    }
  }

  lemma LineEndAfter(whole: seq<byte>, s: seq<byte>)
    requires WholeLines(whole)
    ensures LineEnd(whole + s) == |whole| + LineEnd(s)
  {
    var n := LineEnd(s);
    assert whole + s == (whole + s[..n]) + s[n..];
    LineEndUnique(whole + s[..n], s[n..]);
  }

  // ---------------------------------------------------------------------
  // The code's way: decode first, then cut the text.
  // ---------------------------------------------------------------------

  /** raw.slice(0, raw.lastIndexOf('\n') + 1) */
  function CompleteText(raw: seq<rune>): (text: seq<rune>)
  {
    if raw == [] then []
    else if raw[|raw| - 1] == NEWLINE as rune then raw
    else CompleteText(raw[..|raw| - 1])
  }

  /** text.split('\n') */
  function Split(text: seq<rune>): (lines: seq<seq<rune>>)
    ensures lines != []
  {
    if text == [] then [[]]
    else
      var rest := Split(text[1..]);
      if text[0] == NEWLINE as rune then [[]] + rest else [[text[0]] + rest[0]] + rest[1..]
  }

  function ParsedAll<E>(parse: seq<rune> -> Option<E>, lines: seq<seq<rune>>): seq<E> {
    if lines == [] then [] else Parsed(parse, lines[0]) + ParsedAll(parse, lines[1..])
  }

  lemma {:induction false} CompleteTextUnique(text: seq<rune>, partial: seq<rune>)
    requires text == [] || text[|text| - 1] == NEWLINE as rune
    requires NEWLINE as rune !in partial
    ensures CompleteText(text + partial) == text
    decreases |partial|
  {
    var raw := text + partial;
    if partial == [] {
      assert raw == text;
    } else {
      assert raw[|raw| - 1] == partial[|partial| - 1];
      assert raw[..|raw| - 1] == text + partial[..|partial| - 1];
      CompleteTextUnique(text, partial[..|partial| - 1]);
    }
  }

  lemma {:induction false} SplitLine(line: seq<rune>, rest: seq<rune>)
    requires NEWLINE as rune !in line
    ensures Split(line + [NEWLINE as rune] + rest) == [line] + Split(rest)
    decreases |line|
  {
    var text := line + [NEWLINE as rune] + rest;
    if line == [] {
      assert text[1..] == rest;
    } else {
      assert text[0] == line[0] && text[1..] == line[1..] + [NEWLINE as rune] + rest;
      SplitLine(line[1..], rest);
      assert [line[0]] + line[1..] == line;
    }
  }

  /** Decoding whole lines and then splitting finds the same events as the reference. */
  lemma {:induction false} DecodedLines<E>(parse: seq<rune> -> Option<E>, s: seq<byte>)
    requires WholeLines(s) && parse([]) == None
    ensures ParsedAll(parse, Split(Decode(s))) == Events(parse, s)
    ensures Decode(s) == [] || Decode(s)[|Decode(s)| - 1] == NEWLINE as rune
    decreases |s|
  {
    if s == [] {
      assert Split([])[1..] == [];
      assert ParsedAll(parse, Split([])) == Parsed(parse, []) + ParsedAll(parse, []);
    } else {
      var line, rest := FirstLine(s);
      DecodeAtNewline(line, rest);
      NoNewlineDecoded(line);
      SplitLine(Decode(line), Decode(rest));
      EventsOfLine(parse, line, rest);
      DecodedLines(parse, rest);
      assert ([Decode(line)] + Split(Decode(rest)))[1..] == Split(Decode(rest));
    }
  }

  /** Cutting the decoded text at its last newline is cutting the bytes there. */
  lemma CompleteTextOfBytes(s: seq<byte>)
    ensures CompleteText(Decode(s)) == Decode(s[..LineEnd(s)])
  {
    var n := LineEnd(s);
    if n == 0 {
      NoNewlineDecoded(s[n..]);
      assert s[n..] == s;
      CompleteTextUnique([], Decode(s));
      assert [] + Decode(s) == Decode(s);
    } else {
      var head := s[..n - 1];
      assert s == head + [NEWLINE] + s[n..];
      assert s[..n] == head + [NEWLINE] + [];
      DecodeAtNewline(head, s[n..]);
      DecodeAtNewline(head, []);
      NoNewlineDecoded(s[n..]);
      assert Decode(s[..n]) == Decode(head) + [NEWLINE as rune];
      CompleteTextUnique(Decode(s[..n]), Decode(s[n..]));
    }
  }

  // ---------------------------------------------------------------------
  // The file and its reader
  // ---------------------------------------------------------------------

  datatype Tail<E> = Tail(lines: seq<E>, nextOffset: int, size: nat)

  /** parsed.slice(-limit) when there are more than `limit`; slice(-0) keeps everything. */
  function Newest<E>(events: seq<E>, limit: nat): (newest: seq<E>)
    ensures |newest| <= |events| && (|newest| == |events| ==> newest == events)
  {
    if |events| > limit && limit > 0 then events[|events| - limit..] else events
  }

  /** Where a read starts: an offset past the end restarts at zero. */
  function ReadFrom(after: int, size: nat): (from: nat)
    ensures from <= size
  {
    if after > size || after < 0 then 0 else after
  }

  /** The bytes one poll looks at, and the whole lines among them. */
  function Unread(bytes: seq<byte>, size: nat, after: int): seq<byte>
    requires size <= |bytes|
  {
    bytes[ReadFrom(after, size)..size]
  }

  function Complete(s: seq<byte>): (whole: seq<byte>)
    ensures WholeLines(whole)
  {
    s[..LineEnd(s)]
  }

  function NextOffset(bytes: seq<byte>, size: nat, after: int): nat
    requires size <= |bytes|
  {
    ReadFrom(after, size) + ByteLength(Decode(Complete(Unread(bytes, size, after))))
  }

  /** Decoding first and cutting the text comes to cutting the bytes first. */
  lemma TextIsBytes<E>(parse: seq<rune> -> Option<E>, s: seq<byte>)
    requires parse([]) == None
    ensures ParsedAll(parse, Split(CompleteText(Decode(s)))) == Events(parse, Complete(s))
    ensures CompleteText(Decode(s)) == Decode(Complete(s))
  {
    CompleteTextOfBytes(s);
    DecodedLines(parse, Complete(s));
  }

  lemma NothingUnread<E>(parse: seq<rune> -> Option<E>, bytes: seq<byte>, size: nat, after: int)
    requires size <= |bytes| && ReadFrom(after, size) == size
    ensures Events(parse, Complete(Unread(bytes, size, after))) == [] && NextOffset(bytes, size, after) == size
  {
    assert Unread(bytes, size, after) == [];
  }

  const MAX_LOG_BYTES: nat := 8 * 1024 * 1024

  class LogFile {
    var bytes: seq<byte>

    constructor ()
      ensures bytes == []
    {
      bytes := [];
    }

    /** One line of JSON text; dropped once the file is over its cap. */
    method AppendBuildLog(json: seq<rune>)
      requires ScalarText(json)
      modifies this
      ensures bytes == old(bytes) + (if |old(bytes)| > MAX_LOG_BYTES then [] else Encode(json + [NEWLINE as rune]))
    {
      if |bytes| > MAX_LOG_BYTES {
        assert bytes + [] == bytes;
        return;
      }
      bytes := bytes + Encode(json + [NEWLINE as rune]);
    }

    /** Every poll of the emptied file goes back to zero. */
    method Truncate()
      modifies this
      ensures bytes == [] && forall after :: NextOffset(bytes, 0, after) == 0
    {
      bytes := [];
    }

    /**
     * One poll. `size` is what stat reported; the writer may have appended
     * since. The result is told in terms of the bytes: the valid complete lines
     * after the start, the newest `limit` of them, and an offset advanced by
     * the encoded length of the decoded complete part.
     */
    method ReadBuildLog<E>(parse: seq<rune> -> Option<E>, size: nat, after: int, limit: nat) returns (tail: Tail<E>)
      requires size <= |bytes| && parse([]) == None
      ensures var events := Events(parse, Complete(Unread(bytes, size, after)));
              tail.lines == if limit == 0 || |events| <= limit then events else events[|events| - limit..]
      ensures tail.nextOffset == NextOffset(bytes, size, after) && tail.size == size
    {
      var from := if after > size then 0 else if after > 0 then after else 0;
      var unread := bytes[from..size];
      if from == size {
        NothingUnread(parse, bytes, size, after);
        return Tail([], size, size);
      }
      var parsed, consumed := ReadLines(parse, unread);
      var newest := parsed;
      if |parsed| > limit && limit > 0 {
        newest := parsed[|parsed| - limit..];
      }
      return Tail(newest, from + consumed, size);
    }
  }

  /** The events of the complete lines, and how many bytes the code takes them to be. */
  method ReadLines<E>(parse: seq<rune> -> Option<E>, unread: seq<byte>) returns (parsed: seq<E>, consumed: nat)
    requires parse([]) == None
    ensures parsed == Events(parse, Complete(unread)) && consumed == ByteLength(Decode(Complete(unread)))
  {
    var raw := Decode(unread);
    var complete := CompleteText(raw);
    consumed := ByteLength(complete);
    parsed := ParseLines(parse, Split(complete));
    TextIsBytes(parse, unread);
  }

  method ParseLines<E>(parse: seq<rune> -> Option<E>, lines: seq<seq<rune>>) returns (parsed: seq<E>)
    ensures parsed == ParsedAll(parse, lines)
  {
    parsed := [];
    for i := 0 to |lines|
      invariant parsed + ParsedAll(parse, lines[i..]) == ParsedAll(parse, lines)
    {
      Regroup(parsed, Parsed(parse, lines[i]), ParsedAll(parse, lines[i..][1..]));
      if parse(lines[i]).Some? {
        parsed := parsed + [parse(lines[i]).value];
      } else {
        assert parsed + [] == parsed;
      }
      assert lines[i..][1..] == lines[i + 1..];
    }
    assert parsed + [] == parsed;
  }

  // ---------------------------------------------------------------------
  // Whole sessions: a writer appends, a reader polls
  // ---------------------------------------------------------------------

  /** Appends may cut the text anywhere, even inside a character. */
  datatype Op = Append(data: seq<byte>) | Poll(size: nat, limit: nat)

  /** `missed` counts the lines that the limits of the polls cut off. */
  datatype Session<E> = Session(file: seq<byte>, seen: nat, offset: nat, missed: nat, delivered: seq<E>)

  /** A poll sees some size between the last one it saw and the present one. */
  predicate Legal<E>(s: Session<E>, op: Op) {
    op.Poll? ==> s.seen <= op.size <= |s.file|
  }

  function Step<E>(parse: seq<rune> -> Option<E>, s: Session<E>, op: Op): Session<E>
    requires Legal(s, op)
  {
    match op
    case Append(data) => s.(file := s.file + data)
    case Poll(size, limit) =>
      var events := Events(parse, Complete(Unread(s.file, size, s.offset)));
      var lines := Newest(events, limit);
      Session(s.file, size, NextOffset(s.file, size, s.offset), s.missed + |events| - |lines|, s.delivered + lines)
  }

  /** A run takes `s` to `last` through the operations. */
  predicate Runs<E(==)>(parse: seq<rune> -> Option<E>, s: Session<E>, ops: seq<Op>, last: Session<E>)
    decreases |ops|
  {
    if ops == [] then s == last
    else Legal(s, ops[0]) && Runs(parse, Step(parse, s, ops[0]), ops[1..], last)
  }

  /** Every line up to the last size seen was delivered once or cut off; if none was cut off, they are all there in order. */
  ghost predicate InStep<E>(parse: seq<rune> -> Option<E>, s: Session<E>) {
    && s.seen <= |s.file|
    && s.offset == LineEnd(s.file[..s.seen])
    && |s.delivered| + s.missed == |Events(parse, s.file[..s.seen])|
    && (s.missed == 0 ==> s.delivered == Events(parse, s.file[..s.seen]))
  }

  lemma {:induction false} EventsOfComplete<E>(parse: seq<rune> -> Option<E>, s: seq<byte>)
    ensures Events(parse, s) == Events(parse, Complete(s))
  {
    var n := LineEnd(s);
    assert s == s[..n] + s[n..];
    EventsConcat(parse, s[..n], s[n..]);
    NoEvents(parse, s[n..]);
  }

  lemma NoEvents<E>(parse: seq<rune> -> Option<E>, s: seq<byte>)
    requires NEWLINE !in s
    ensures Events(parse, s) == []
  {
    assert FirstNewline(s) == |s|;
  }

  /** Whole lines keep their length together exactly when each part does. */
  lemma KeepsLengthParts(s: seq<byte>, t: seq<byte>)
    requires WholeLines(s)
    ensures KeepsLength(s + t) <==> KeepsLength(s) && KeepsLength(t)
  {
    if s == [] {
      assert s + t == t;
    } else {
      var head := s[..|s| - 1];
      assert s == head + [NEWLINE] + [] && s + t == head + [NEWLINE] + t;
      DecodeAtNewline(head, t);
      DecodeAtNewline(head, []);
      assert Decode(s) == Decode(head) + [NEWLINE as rune];
      ByteLengthConcat(Decode(s), Decode(t));
      DecodedLength(s);
      DecodedLength(t);
      DecodedLength(s + t);
    }
  }

  /** What a poll in step looks at: the whole lines between the two line ends. */
  lemma UnreadLines(file: seq<byte>, seen: nat, size: nat)
    requires seen <= size <= |file|
    ensures var offset := LineEnd(file[..seen]);
            offset <= size && Complete(file[..size]) == file[..offset] + Complete(Unread(file, size, offset))
  {
    var offset := LineEnd(file[..seen]);
    var past := file[..offset];
    assert Complete(file[..seen]) == past;
    assert file[..size] == past + file[offset..size];
    CompleteAfter(past, file[offset..size]);
  }

  /**
   * The exact condition for one poll: a reader in step stays in step if and
   * only if every ill-formed piece among the lines it reads is three bytes long.
   */
  lemma PollKeepsStepIff<E>(parse: seq<rune> -> Option<E>, s: Session<E>, size: nat, limit: nat)
    requires InStep(parse, s) && Legal(s, Poll(size, limit))
    ensures InStep(parse, Step(parse, s, Poll(size, limit))) <==> KeepsLength(Complete(Unread(s.file, size, s.offset)))
  {
    var lines := Complete(Unread(s.file, size, s.offset));
    var next := Step(parse, s, Poll(size, limit));
    PollReads(parse, s, size);
    DecodedLength(lines);
    assert next.offset == s.offset + ByteLength(Decode(lines));
    assert next.offset == LineEnd(next.file[..size]) <==> KeepsLength(lines);
  }

  /** What a reader in step finds are the lines that came since. */
  lemma PollReads<E>(parse: seq<rune> -> Option<E>, s: Session<E>, size: nat)
    requires InStep(parse, s) && s.seen <= size <= |s.file|
    ensures Events(parse, s.file[..size]) ==
            Events(parse, s.file[..s.seen]) + Events(parse, Complete(Unread(s.file, size, s.offset)))
    ensures s.offset <= size && LineEnd(s.file[..size]) == s.offset + |Complete(Unread(s.file, size, s.offset))|
  {
    var past, lines := s.file[..s.offset], Complete(Unread(s.file, size, s.offset));
    UnreadLines(s.file, s.seen, size);
    assert s.file[..s.seen][..s.offset] == past;
    EventsOfComplete(parse, s.file[..s.seen]);
    EventsOfComplete(parse, s.file[..size]);
    EventsConcat(parse, past, lines);
  }

  lemma {:induction false} FileGrows<E>(
    parse: seq<rune> -> Option<E>, s: Session<E>, ops: seq<Op>, last: Session<E>)
    returns (more: seq<byte>)
    requires Runs(parse, s, ops, last)
    ensures last.file == s.file + more
    decreases |ops|
  {
    more := [];
    if ops != [] {
      more := FileGrows(parse, Step(parse, s, ops[0]), ops[1..], last);
      if ops[0].Append? {
        Regroup(s.file, ops[0].data, more);
        more := ops[0].data + more;
      }
    }
  }

  lemma CompleteAfter(s: seq<byte>, t: seq<byte>)
    requires WholeLines(s)
    ensures Complete(s + t) == s + Complete(t)
  {
    LineEndAfter(s, t);
  }

  lemma WholePrefixKeepsLength(s: seq<byte>, t: seq<byte>)
    requires WholeLines(s) && KeepsLength(Complete(s + t))
    ensures KeepsLength(s) && KeepsLength(Complete(t))
  {
    var lines := Complete(t);
    CompleteAfter(s, t);
    KeepsLengthParts(s, lines);
  }

  lemma PrefixKeepsLength(s: seq<byte>, t: seq<byte>)
    requires KeepsLength(Complete(s + t))
    ensures KeepsLength(Complete(s))
  {
    var n := LineEnd(s);
    assert s[..n] + (s[n..] + t) == s + t;
    WholePrefixKeepsLength(s[..n], s[n..] + t);
  }

  lemma SuffixKeepsLength(s: seq<byte>, n: nat)
    requires n <= |s| && WholeLines(s[..n]) && KeepsLength(Complete(s))
    ensures KeepsLength(Complete(s[n..]))
  {
    assert s == s[..n] + s[n..];
    WholePrefixKeepsLength(s[..n], s[n..]);
  }

  /** The lines of one poll keep their length when those of the whole file do. */
  lemma PolledLinesKeepLength(file: seq<byte>, seen: nat, size: nat)
    requires seen <= size <= |file| && KeepsLength(Complete(file))
    ensures KeepsLength(Complete(Unread(file, size, LineEnd(file[..seen]))))
  {
    var offset := LineEnd(file[..seen]);
    assert file == file[..size] + file[size..];
    PrefixKeepsLength(file[..size], file[size..]);
    assert file[..size][..offset] == file[..seen][..offset];
    SuffixKeepsLength(file[..size], offset);
    assert file[..size][offset..] == file[offset..size];
  }

  /**
   * Main result: however the text is cut into appends and however polls fall
   * between them, every valid complete line is delivered once or cut off by a
   * limit, and without cuts all of them are delivered in order, as long as the
   * complete lines are UTF-8 that keeps its length.
   */
  lemma {:induction false} TailingLosesAndRepeatsNothing<E>(
    parse: seq<rune> -> Option<E>, s: Session<E>, ops: seq<Op>, last: Session<E>)
    requires InStep(parse, s) && Runs(parse, s, ops, last)
    requires KeepsLength(Complete(last.file))
    ensures InStep(parse, last)
    decreases |ops|
  {
    if ops != [] {
      var s' := Step(parse, s, ops[0]);
      match ops[0] {
        case Append(data) =>
          assert s'.file[..s.seen] == s.file[..s.seen];
        case Poll(size, limit) =>
          var more := FileGrows(parse, s, ops, last);
          PrefixKeepsLength(s.file, more);
          PolledLinesKeepLength(s.file, s.seen, size);
          PollKeepsStepIff(parse, s, size, limit);
      }
      TailingLosesAndRepeatsNothing(parse, s', ops[1..], last);
    }
  }

  /** UTF-8 text meets the condition, even when it has only been written in part. */
  lemma WrittenTextKeepsLength(text: seq<rune>, written: seq<byte>, cut: seq<byte>)
    requires ScalarText(text) && Encode(text) == written + cut
    ensures KeepsLength(Complete(written))
  {
    var s := Encode(text);
    DecodeEncoded(text);
    var n := LineEnd(s);
    assert s == s[..n] + s[n..];
    KeepsLengthParts(s[..n], s[n..]);
    PrefixKeepsLength(written, cut);
  }

  /** So a session over what appendBuildLog writes stays in step. */
  lemma WrittenLogIsTailed<E>(
    parse: seq<rune> -> Option<E>, ops: seq<Op>, last: Session<E>, text: seq<rune>, cut: seq<byte>)
    requires Runs(parse, Session([], 0, 0, 0, []), ops, last)
    requires ScalarText(text) && Encode(text) == last.file + cut
    ensures InStep(parse, last)
  {
    WrittenTextKeepsLength(text, last.file, cut);
    TailingLosesAndRepeatsNothing(parse, Session([], 0, 0, 0, []), ops, last);
  }

  // --- where the code falls short of its own description ----------------------

  /** A first poll of whole lines: where it leaves the offset. */
  lemma FirstPollOffset(file: seq<byte>)
    requires WholeLines(file)
    ensures NextOffset(file, |file|, 0) >= |file|
    ensures NextOffset(file, |file|, 0) == |file| <==> KeepsLength(file)
  {
    DecodedLength(file);
    assert file[0..|file|] == file && Complete(file) == file;
  }

  /** What a poll of whole lines that starts at zero, or past the end, delivers. */
  lemma PollFromStart<E>(parse: seq<rune> -> Option<E>, file: seq<byte>, after: nat)
    requires after == 0 || after > |file|
    ensures Events(parse, Complete(Unread(file, |file|, after))) == Events(parse, file)
  {
    assert file[0..|file|] == file;
    EventsOfComplete(parse, file);
  }

  /**
   * When the first poll of whole lines meets ill-formed bytes that change their
   * length, the offset lands past the end: the next poll delivers everything
   * again. Otherwise the next poll delivers nothing.
   */
  lemma SecondPollRepeatsIff<E>(parse: seq<rune> -> Option<E>, file: seq<byte>)
    requires WholeLines(file) && Events(parse, file) != []
    ensures var again := Events(parse, Complete(Unread(file, |file|, NextOffset(file, |file|, 0))));
            again == (if KeepsLength(file) then [] else Events(parse, file))
  {
    var offset := NextOffset(file, |file|, 0);
    FirstPollOffset(file);
    if KeepsLength(file) {
      assert Unread(file, |file|, offset) == [];
    } else {
      PollFromStart(parse, file, offset);
    }
  }

  lemma Rejoined<T>(s: seq<T>, n: nat, k: nat)
    requires n <= k <= |s|
    ensures s[..k][..n] + s[n..] == s
  {}

  lemma EventsAtCut<E>(parse: seq<rune> -> Option<E>, s: seq<byte>, k: nat)
    requires k <= |s|
    ensures Events(parse, s) == Events(parse, s[..k]) + Events(parse, s[LineEnd(s[..k])..])
  {
    var whole, rest := Complete(s[..k]), s[LineEnd(s[..k])..];
    Rejoined(s, LineEnd(s[..k]), k);
    EventsConcat(parse, whole, rest);
    EventsOfComplete(parse, s[..k]);
  }

  /**
   * When the file grows past an overshot offset (FirstPollOffset) instead, the
   * next poll starts in the middle of what was appended: the lines that end
   * before the offset are never delivered, and the one across it is read from
   * its middle.
   */
  lemma OvershotOffsetLosesLines<E>(parse: seq<rune> -> Option<E>, file: seq<byte>, more: seq<byte>, k: nat)
    requires k <= |more|
    ensures var grown := file + more;
            Events(parse, Complete(Unread(grown, |grown|, |file| + k))) == Events(parse, more[k..])
    ensures Events(parse, more) == Events(parse, more[..k]) + Events(parse, more[LineEnd(more[..k])..])
  {
    var grown := file + more;
    assert grown[|file| + k..|grown|] == more[k..];
    EventsOfComplete(parse, more[k..]);
    EventsAtCut(parse, more, k);
  }

  /** A stray byte moves the offset two bytes too far, and a line of one character is gone. */
  lemma LostLineExample<E>(parse: seq<rune> -> Option<E>, x: byte) returns (file: seq<byte>, more: seq<byte>)
    requires x < 0x80 && x != NEWLINE && parse(Decode([x])).Some?
    ensures WholeLines(file) && NextOffset(file, |file|, 0) == |file + more|
    ensures |Events(parse, more)| == 1
    ensures |Events(parse, Complete(Unread(file + more, |file + more|, NextOffset(file, |file|, 0))))| == 0
  {
    file, more := [0xff, NEWLINE], [x, NEWLINE];
    assert file == [0xff] + [NEWLINE] + [];
    DecodeAtNewline([0xff], []);
    assert Decode([0xff]) == [REPLACEMENT];
    assert Complete(file) == file && file[0..2] == file;
    assert Decode(file) == [REPLACEMENT, NEWLINE as rune];
    assert ByteLength([REPLACEMENT] + [NEWLINE as rune]) == 4 by {
      ByteLengthConcat([REPLACEMENT], [NEWLINE as rune]);
    }
    assert more == [x] + [NEWLINE] + [];
    EventsOfLine(parse, [x], []);
    NoEvents(parse, []);
  }

  /** A poll that sees the emptied file is in step with whatever is written afterwards. */
  lemma PollAfterTruncation<E>(parse: seq<rune> -> Option<E>, after: int, file: seq<byte>)
    ensures Events(parse, Complete(Unread(file, |file|, NextOffset([], 0, after)))) == Events(parse, file)
  {
    PollFromStart(parse, file, 0);
  }

  /** A corrupt line is skipped, the line after it is not. */
  lemma CorruptLineSkipped<E>(parse: seq<rune> -> Option<E>, bad: seq<byte>, line: seq<byte>, rest: seq<byte>)
    requires NEWLINE !in bad && NEWLINE !in line && parse(Decode(bad)) == None
    ensures Events(parse, bad + [NEWLINE] + (line + [NEWLINE] + rest)) == Parsed(parse, Decode(line)) + Events(parse, rest)
  {
    EventsOfLine(parse, bad, line + [NEWLINE] + rest);
    EventsOfLine(parse, line, rest);
  }

  /** One stray byte in a corrupt line is enough to repeat the lines around it. */
  lemma StrayByteChangesLength(line: seq<byte>, rest: seq<byte>)
    ensures !KeepsLength([0xff] + line + [NEWLINE] + rest)
  {
    var s := [0xff] + line + [NEWLINE] + rest;
    assert s[0] == 0xff;
    assert !DecodeFirst(s).formed && DecodeFirst(s).width == 1;
  }

  /**
   * A positive limit keeps the newest lines, as many as it allows; a limit of zero
   * does not limit, so the cap holds exactly for a positive limit or nothing to
   * return.
   */
  lemma LimitHoldsIff<E>(older: seq<E>, newer: seq<E>)
    ensures |newer| > 0 ==> Newest(older + newer, |newer|) == newer
    ensures Newest(newer, |newer| + |older|) == newer && Newest(newer, 0) == newer
    ensures forall limit: nat :: |Newest(newer, limit)| <= limit <==> limit > 0 || newer == []
  {
    assert (older + newer)[|older|..] == newer;
  }

  /**
   * A replaced file that is shorter than the offset is read from its start
   * (PollFromStart); otherwise what stands before the offset is never delivered.
   */
  lemma LongerFileIsSkipped<E>(parse: seq<rune> -> Option<E>, skipped: seq<byte>, rest: seq<byte>)
    requires WholeLines(skipped)
    ensures var file := skipped + rest;
            Events(parse, file) == Events(parse, skipped) + Events(parse, Complete(Unread(file, |file|, |skipped|)))
  {
    var file := skipped + rest;
    assert file[|skipped|..|file|] == rest;
    EventsConcat(parse, skipped, rest);
    EventsOfComplete(parse, rest);
  }
}
