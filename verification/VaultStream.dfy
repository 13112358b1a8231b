/**
 The streaming failure observer (`observeVaultRoutingResponse`): it looks for a failure line in an
 event stream while the bytes pass through, one chunk at a time.
 */
module VaultStream {
  import opened Options
  import opened Text
  import opened Json

  /** `JSON.parse`, absent when it throws. */
  type Parser = string -> Option<Json>

  const MAX_PENDING: nat := 1024 * 1024

  predicate FieldIs(event: Json, key: Key, value: string) {
    event.Obj? && Get(event.fields, key) == Some(Str(value))
  }

  predicate StreamFailed(event: Json) {
    || FieldIs(event, Type, "error")
    || FieldIs(event, Type, "response.failed")
    || (event.Obj? && Response in event.fields && FieldIs(event.fields[Response], Status, "failed"))
  }

  predicate StartsWith(s: string, prefix: string) {
    prefix <= s
  }

  predicate Includes(s: string, part: string) {
    exists i :: 0 <= i <= |s| && StartsWith(s[i..], part)
  }

  predicate AllSpace(s: string) {
    forall i :: 0 <= i < |s| ==> IsSpace(s[i])
  }

  /** The text has `key`, white space, a colon, white space and `value` somewhere in it. */
  predicate IncludesPair(s: string, key: string, value: string) {
    exists i, j, k :: 0 <= i <= j < k <= |s| && PairAt(s, key, value, i, j, k)
  }

  predicate PairAt(s: string, key: string, value: string, i: nat, j: nat, k: nat)
    requires i <= j < k <= |s|
  {
    && i >= |key| && s[i - |key|..i] == key
    && AllSpace(s[i..j]) && s[j] == ':' && AllSpace(s[j + 1..k])
    && StartsWith(s[k..], value)
  }

  /** The cheap test that spares token deltas from being parsed. */
  predicate StreamMayFail(data: string) {
    || Includes(data, "\"response.failed\"")
    || Includes(data, "\"type\":\"error\"")
    || (Includes(data, "\"error\"") && IncludesPair(data, "\"type\"", "\"error\""))
    || (Includes(data, "\"failed\"") && IncludesPair(data, "\"status\"", "\"failed\""))
  }

  /** The substring checks only save work: the test is the one the two patterns and the plain name decide. */
  lemma FastChecksChangeNothing(data: string)
    ensures StreamMayFail(data)
       <==> || Includes(data, "\"response.failed\"")
            || IncludesPair(data, "\"type\"", "\"error\"")
            || IncludesPair(data, "\"status\"", "\"failed\"")
  {
    PairIncludesValue(data, "\"type\"", "\"error\"");
    PairIncludesValue(data, "\"status\"", "\"failed\"");
    TightPair(data, "\"type\"", "\"error\"");
    assert "\"type\"" + ":" + "\"error\"" == "\"type\":\"error\"";
  }

  lemma PairIncludesValue(s: string, key: string, value: string)
    ensures IncludesPair(s, key, value) ==> Includes(s, value)
  {
    if IncludesPair(s, key, value) {
      var i, j, k :| 0 <= i <= j < k <= |s| && PairAt(s, key, value, i, j, k);
      assert StartsWith(s[k..], value);
    }
  }

  lemma TightPair(s: string, key: string, value: string)
    ensures Includes(s, key + ":" + value) ==> IncludesPair(s, key, value)
  {
    var whole := key + ":" + value;
    if Includes(s, whole) {
      var m :| 0 <= m <= |s| && StartsWith(s[m..], whole);
      var i := m + |key|;
      assert s[m..i] == whole[..|key|] == key;
      assert s[m..][|key|] == ':';
      assert s[i + 1..] == s[m..][|key| + 1..];
      assert whole[|key| + 1..] == value;
      assert PairAt(s, key, value, i, i, i + 1);
    }
  }

  /** A line that by itself tells that the stream failed. */
  predicate IsFailureLine(parse: Parser, line: string) {
    || (StartsWith(line, "event:") && Trim(line[6..]) == "error")
    || (StartsWith(line, "data:") && StreamMayFail(line)
        && parse(line[5..]).Some? && StreamFailed(parse(line[5..]).value))
  }

  /** The text has the part somewhere in it. */
  ghost predicate Contains(s: string, part: string) {
    exists before, after :: s == before + part + after
  }

  /** It has the name and the value with a colon between them, and white space at most beside that. */
  ghost predicate ContainsPair(s: string, key: string, value: string) {
    exists before, left, right, after :: IsPairIn(s, key, value, before, left, right, after)
  }

  predicate IsPairIn(s: string, key: string, value: string, before: string, left: string, right: string, after: string)
  {
    && s == before + key + left + ":" + right + value + after
    && (forall c :: c in left + right ==> IsSpace(c))
  }

  lemma IncludesIsContains(s: string, part: string)
    ensures Includes(s, part) <==> Contains(s, part)
  {
    if Includes(s, part) {
      var i :| 0 <= i <= |s| && StartsWith(s[i..], part);
      assert s == s[..i] + part + s[i + |part|..];
    }
    if Contains(s, part) {
      var before, after :| s == before + part + after;
      assert s[|before|..] == part + after;
    }
  }

  lemma IncludesPairIsContains(s: string, key: string, value: string)
    ensures IncludesPair(s, key, value) <==> ContainsPair(s, key, value)
  {
    if IncludesPair(s, key, value) {
      var i, j, k :| 0 <= i <= j < k <= |s| && PairAt(s, key, value, i, j, k);
      PairIsIn(s, key, value, i, j, k);
    }
    if ContainsPair(s, key, value) {
      var before, left, right, after :| IsPairIn(s, key, value, before, left, right, after);
      PairInIsAt(s, key, value, before, left, right, after);
    }
  }

  lemma PairIsIn(s: string, key: string, value: string, i: nat, j: nat, k: nat)
    requires i <= j < k <= |s| && PairAt(s, key, value, i, j, k)
    ensures IsPairIn(s, key, value, s[..i - |key|], s[i..j], s[j + 1..k], s[k + |value|..])
  {
    assert s == s[..i - |key|] + s[i - |key|..i] + s[i..j] + [s[j]] + s[j + 1..k] + s[k..];
    assert s[k..] == value + s[k + |value|..];
  }

  lemma PairInIsAt(s: string, key: string, value: string, before: string, left: string, right: string, after: string)
    requires IsPairIn(s, key, value, before, left, right, after)
    ensures IncludesPair(s, key, value)
  {
    var i := |before| + |key|;
    var j := i + |left|;
    var k := j + 1 + |right|;
    assert s == before + (key + (left + (":" + (right + (value + after)))));
    assert s[|before|..] == key + (left + (":" + (right + (value + after))));
    assert s[i..] == left + (":" + (right + (value + after)));
    assert s[j..] == ":" + (right + (value + after));
    assert s[j + 1..] == right + (value + after);
    assert s[k..] == value + after;
    assert s[|before|..i] == key && s[i..j] == left && s[j + 1..k] == right && s[j] == ':';
    assert forall c :: c in left || c in right ==> c in left + right;
    assert PairAt(s, key, value, i, j, k);
  }

  /** The event says that its response failed: by its type, or by the status of the response it carries. */
  predicate TellsFailure(event: Json) {
    event.Obj? &&
    var fields := event.fields;
    || (Type in fields && fields[Type] in {Str("error"), Str("response.failed")})
    || (Response in fields && fields[Response].Obj?
        && Status in fields[Response].fields && fields[Response].fields[Status] == Str("failed"))
  }

  /**
   The lines that raise the flag: an event line named error, and a data line that parses to an event telling of
   failure and has that event's mark in its text. No other line does, whatever it parses to.
   */
  lemma FailureLinesAre(parse: Parser, line: string, name: string, data: string)
    ensures IsFailureLine(parse, "event:" + name) <==> Trim(name) == "error"
    ensures IsFailureLine(parse, "data:" + data)
       <==> && parse(data).Some? && TellsFailure(parse(data).value)
            && (|| Contains("data:" + data, "\"response.failed\"")
                || ContainsPair("data:" + data, "\"type\"", "\"error\"")
                || ContainsPair("data:" + data, "\"status\"", "\"failed\""))
    ensures !("event:" <= line) && !("data:" <= line) ==> !IsFailureLine(parse, line)
  {
    FastChecksChangeNothing("data:" + data);
    IncludesIsContains("data:" + data, "\"response.failed\"");
    IncludesPairIsContains("data:" + data, "\"type\"", "\"error\"");
    IncludesPairIsContains("data:" + data, "\"status\"", "\"failed\"");
    hide Contains;
    hide ContainsPair;
    hide StreamMayFail;
    hide Includes;
    hide IncludesPair;
    hide Trim;
    assert ("event:" + name)[6..] == name && ("data:" + data)[5..] == data;
    assert ("event:" + name)[0] == 'e' && ("data:" + data)[0] == 'd';
  }

  // ---------------------------------------------------------------------
  // Lines of a whole text
  // ---------------------------------------------------------------------

  /** Index of the first line feed, or the length if there is none. */
  function FirstBreak(text: string): (k: nat)
    ensures k <= |text|
    ensures k < |text| ==> text[k] == '\n'
    ensures forall i :: 0 <= i < k ==> text[i] != '\n'
  {
    if text == "" || text[0] == '\n' then 0 else 1 + FirstBreak(text[1..])
  }

  /** The line-feed separated pieces of the text; there is always a last one, perhaps empty. */
  function Lines(text: string): (lines: seq<string>)
    ensures lines != []
    decreases |text|
  {
    var k := FirstBreak(text);
    if k == |text| then [text] else [text[..k]] + Lines(text[k + 1..])
  }

  function Complete(text: string): seq<string> {
    Lines(text)[..|Lines(text)| - 1]
  }

  function Unfinished(text: string): string {
    Lines(text)[|Lines(text)| - 1]
  }

  /** The lines with a line feed between any two. */
  function Joined(lines: seq<string>): string
    requires lines != []
  {
    if |lines| == 1 then lines[0] else lines[0] + "\n" + Joined(lines[1..])
  }

  lemma JoinFirst(line: string, rest: seq<string>)
    requires rest != []
    ensures Joined([line] + rest) == line + "\n" + Joined(rest)
  {
    assert ([line] + rest)[1..] == rest;
  }

  /** The lines are the text cut at its line feeds and nowhere else. */
  lemma {:induction false} LinesJoinToText(text: string)
    ensures Joined(Lines(text)) == text
    ensures forall line :: line in Lines(text) ==> '\n' !in line
    decreases |text|
  {
    var k := FirstBreak(text);
    if k < |text| {
      LinesJoinToText(text[k + 1..]);
      LinesUnfold(text);
      hide Lines;
      var rest := Lines(text[k + 1..]);
      hide Joined;
      JoinFirst(text[..k], rest);
      assert text == text[..k] + "\n" + text[k + 1..];
    }
  }

  predicate AnyFailure(parse: Parser, lines: seq<string>) {
    exists i :: 0 <= i < |lines| && IsFailureLine(parse, lines[i])
  }

  lemma FailureOfConcat(parse: Parser, a: seq<string>, b: seq<string>)
    ensures AnyFailure(parse, a + b) <==> AnyFailure(parse, a) || AnyFailure(parse, b)
    ensures forall line :: AnyFailure(parse, [line]) <==> IsFailureLine(parse, line)
  {
    hide IsFailureLine;
    assert forall i :: 0 <= i < |a| ==> (a + b)[i] == a[i];
    assert forall i :: 0 <= i < |b| ==> (a + b)[|a| + i] == b[i];
    forall line ensures AnyFailure(parse, [line]) <==> IsFailureLine(parse, line) {
      assert [line][0] == line;
    }
  }

  /** A text with a line feed is its first line and the lines of the rest; one without is one line. */
  lemma {:induction false} LinesUnfold(text: string)
    ensures var k := FirstBreak(text);
            if k < |text| then
              && Lines(text) == [text[..k]] + Lines(text[k + 1..])
              && Complete(text) == [text[..k]] + Complete(text[k + 1..])
              && Unfinished(text) == Unfinished(text[k + 1..])
            else Lines(text) == [text] && Complete(text) == [] && Unfinished(text) == text
  {
    hide FirstBreak;
    var k := FirstBreak(text);
    if k < |text| {
      LinesOfBroken(text, k);
      hide Lines;
      DropLast(text[..k], Lines(text[k + 1..]));
    }
  }

  lemma LinesOfBroken(text: string, k: nat)
    requires k == FirstBreak(text) && k < |text|
    ensures Lines(text) == [text[..k]] + Lines(text[k + 1..])
  {
    hide FirstBreak;
  }

  lemma DropLast(first: string, rest: seq<string>)
    requires rest != []
    ensures ([first] + rest)[..|rest|] == [first] + rest[..|rest| - 1]
    ensures ([first] + rest)[|rest|] == rest[|rest| - 1]
  {
  }

  /** Appending text extends the unfinished line and may finish it. */
  lemma {:induction false} LinesOfAppend(a: string, b: string)
    ensures Lines(a + b) == Complete(a) + Lines(Unfinished(a) + b)
    decreases |a|
  {
    hide Lines;
    hide Complete;
    hide Unfinished;
    LinesUnfold(a);
    var k := FirstBreak(a);
    if k < |a| {
      var rest := a[k + 1..];
      LinesOfAppend(rest, b);
      FirstBreakIs(a + b, k);
      LinesUnfold(a + b);
      assert (a + b)[..k] == a[..k] && (a + b)[k + 1..] == rest + b;
    }
  }

  lemma FirstBreakIs(text: string, k: nat)
    requires k < |text| && text[k] == '\n' && forall i :: 0 <= i < k ==> text[i] != '\n'
    ensures FirstBreak(text) == k
  {
  }

  lemma {:induction false} UnfinishedHasNoBreak(text: string)
    ensures FirstBreak(Unfinished(text)) == |Unfinished(text)|
    ensures |Unfinished(text)| <= |text|
    decreases |text|
  {
    hide Unfinished;
    LinesUnfold(text);
    var k := FirstBreak(text);
    if k < |text| { UnfinishedHasNoBreak(text[k + 1..]); }
  }

  // ---------------------------------------------------------------------
  // The observer
  // ---------------------------------------------------------------------

  /** A chunk of the body and the text the streaming decoder yields for it. */
  datatype Chunk = Chunk(bytes: seq<bv8>, text: string)

  function TextOf(chunks: seq<Chunk>): string {
    if chunks == [] then "" else TextOf(chunks[..|chunks| - 1]) + chunks[|chunks| - 1].text
  }

  /** After some number of the chunks, more than a mebibyte of unfinished line is held back. */
  predicate Overlong(chunks: seq<Chunk>) {
    exists n :: 0 < n <= |chunks| && |Unfinished(TextOf(chunks[..n]))| > MAX_PENDING
  }

  /** Until something failed, only harmless lines were seen and the unfinished one is held. */
  ghost predicate Sound(parse: Parser, seen: seq<Chunk>, pending: string, failed: bool) {
    if failed then AnyFailure(parse, Complete(TextOf(seen))) || Overlong(seen)
    else
      && !AnyFailure(parse, Complete(TextOf(seen)))
      && !Overlong(seen)
      && pending == Unfinished(TextOf(seen))
  }

  /** One more chunk keeps the observer sound: a failure is final, and otherwise the buffer is drained. */
  lemma SoundStep(parse: Parser, seen: seq<Chunk>, pending: string, failed: bool, chunk: Chunk)
    requires Sound(parse, seen, pending, failed)
    ensures var text := pending + chunk.text;
            var found := AnyFailure(parse, Complete(text));
            var long := |Unfinished(text)| > MAX_PENDING;
            if failed then forall p :: Sound(parse, seen + [chunk], p, true)
            else Sound(parse, seen + [chunk], if long then "" else Unfinished(text), found || long)
  {
    hide AnyFailure;
    hide Overlong;
    hide Unfinished;
    hide Complete;
    var before := TextOf(seen);
    assert (seen + [chunk])[..|seen|] == seen;
    assert TextOf(seen + [chunk]) == before + chunk.text;
    OverlongGrows(seen, chunk);
    CompleteGrows(parse, before, chunk.text);
  }

  lemma NoLinesNoFailure(parse: Parser)
    ensures !AnyFailure(parse, [])
  {
  }

  /** Cutting off the first line splits the failures into that line's and the rest's. */
  lemma {:induction false} DrainStep(parse: Parser, text: string)
    ensures var k := FirstBreak(text);
            if k < |text| then
              && Unfinished(text) == Unfinished(text[k + 1..])
              && (AnyFailure(parse, Complete(text))
                  <==> IsFailureLine(parse, text[..k]) || AnyFailure(parse, Complete(text[k + 1..])))
            else Unfinished(text) == text && !AnyFailure(parse, Complete(text))
  {
    hide AnyFailure;
    hide IsFailureLine;
    hide Complete;
    hide Unfinished;
    hide FirstBreak;
    LinesUnfold(text);
    var k := FirstBreak(text);
    if k < |text| {
      FailureOfConcat(parse, [text[..k]], Complete(text[k + 1..]));
    } else {
      NoLinesNoFailure(parse);
    }
  }

  /** A tail without a line feed only extends the last line. */
  lemma {:induction false} LinesOfTail(parse: Parser, text: string, tail: string)
    requires FirstBreak(tail) == |tail|
    ensures AnyFailure(parse, Lines(text + tail))
       <==> AnyFailure(parse, Complete(text)) || IsFailureLine(parse, Unfinished(text) + tail)
  {
    hide AnyFailure;
    hide IsFailureLine;
    LinesOfAppend(text, tail);
    UnfinishedHasNoBreak(text);
    var last := Unfinished(text) + tail;
    NoBreak(Unfinished(text), tail);
    assert Lines(last) == [last];
    FailureOfConcat(parse, Complete(text), [last]);
  }

  lemma NoBreak(a: string, b: string)
    requires FirstBreak(a) == |a| && FirstBreak(b) == |b|
    ensures FirstBreak(a + b) == |a + b|
  {
    assert forall i :: 0 <= i < |a + b| ==> (a + b)[i] == if i < |a| then a[i] else b[i - |a|];
  }

  lemma UnfinishedOfAppend(a: string, b: string)
    ensures Unfinished(a + b) == Unfinished(Unfinished(a) + b)
    ensures Complete(a + b) == Complete(a) + Complete(Unfinished(a) + b)
  {
    LinesOfAppend(a, b);
  }

  /** Complete lines only ever grow, so a failure line once complete stays. */
  lemma CompleteGrows(parse: Parser, a: string, b: string)
    ensures AnyFailure(parse, Complete(a + b))
       <==> AnyFailure(parse, Complete(a)) || AnyFailure(parse, Complete(Unfinished(a) + b))
    ensures Unfinished(a + b) == Unfinished(Unfinished(a) + b)
  {
    UnfinishedOfAppend(a, b);
    FailureOfConcat(parse, Complete(a), Complete(Unfinished(a) + b));
  }

  lemma OverlongGrows(chunks: seq<Chunk>, chunk: Chunk)
    ensures Overlong(chunks + [chunk])
       <==> Overlong(chunks) || |Unfinished(TextOf(chunks + [chunk]))| > MAX_PENDING
  {
    var more := chunks + [chunk];
    assert more[..|more|] == more;
    assert forall n :: 0 < n <= |chunks| ==> more[..n] == chunks[..n];
    if Overlong(chunks) {
      var n :| 0 < n <= |chunks| && |Unfinished(TextOf(chunks[..n]))| > MAX_PENDING;
      assert more[..n] == chunks[..n];
    }
  }

  class Observer {
    const sse: bool
    const parse: Parser
    var pending: string
    var failed: bool
    ghost var seen: seq<Chunk>
    var passed: seq<seq<bv8>>

    ghost predicate Valid()
      reads this
    {
      if sse then Sound(parse, seen, pending, failed) else !failed
    }

    constructor (sse: bool, parse: Parser)
      ensures Valid() && seen == [] && passed == []
      ensures this.sse == sse && this.parse == parse
    {
      this.sse, this.parse := sse, parse;
      pending, failed, seen, passed := "", false, [], [];
      LinesUnfold("");
    }

    method Inspect(line: string)
      modifies this`failed
      ensures failed == (old(failed) || IsFailureLine(parse, line))
    {
      if failed { return; }
      if StartsWith(line, "event:") && Trim(line[6..]) == "error" {
        failed := true;
      }
      if !StartsWith(line, "data:") || !StreamMayFail(line) { return; }
      var event := parse(line[5..]);
      if event.Some? {
        failed := failed || StreamFailed(event.value);
      }
    }

    method Transform(chunk: Chunk)
      requires Valid()
      modifies this
      ensures Valid() && seen == old(seen) + [chunk]
      ensures passed == old(passed) + [chunk.bytes]
    {
      hide Sound;
      hide AnyFailure;
      hide Complete;
      hide Unfinished;
      if sse { SoundStep(parse, seen, pending, failed, chunk); }
      if sse && !failed {
        DrainLines(pending + chunk.text);
        if |pending| > MAX_PENDING {
          failed := true;
          pending := "";
        }
      }
      seen := seen + [chunk];
      passed := passed + [chunk.bytes];
    }

    /** The inner loop: cuts complete lines off the buffer and inspects each. */
    method DrainLines(text: string)
      requires !failed
      modifies this`pending, this`failed
      ensures pending == Unfinished(text)
      ensures failed == AnyFailure(parse, Complete(text))
    {
      hide AnyFailure;
      hide IsFailureLine;
      hide Complete;
      hide Unfinished;
      hide FirstBreak;
      pending := text;
      var newline := FirstBreak(pending);
      DrainStep(parse, pending);
      while newline < |pending|
        invariant newline == FirstBreak(pending)
        invariant Unfinished(pending) == Unfinished(text)
        invariant AnyFailure(parse, Complete(text)) <==> failed || AnyFailure(parse, Complete(pending))
        decreases |pending|
      {
        DrainStep(parse, pending);
        Inspect(pending[..newline]);
        pending := pending[newline + 1..];
        newline := FirstBreak(pending);
      }
      DrainStep(parse, pending);
    }

    /** The end of the stream; `tail` is what the decoder still held. */
    method Flush(tail: string)
      requires Valid() && FirstBreak(tail) == |tail|
      modifies this`failed
      ensures passed == old(passed) && seen == old(seen)
      ensures sse ==> failed == (AnyFailure(parse, Lines(TextOf(seen) + tail)) || Overlong(seen))
      ensures !sse ==> !failed
    {
      hide AnyFailure;
      hide Overlong;
      hide Unfinished;
      hide Complete;
      if sse {
        LinesOfTail(parse, TextOf(seen), tail);
        Inspect(pending + tail);
      }
    }
  }

  // ---------------------------------------------------------------------
  // The whole stream
  // ---------------------------------------------------------------------

  predicate LongLine(lines: seq<string>) {
    exists i :: 0 <= i < |lines| && |lines[i]| > 1_048_576
  }

  /** The bytes pass through unchanged and in order; the flag follows from the text and the cuts. */
  method Observe(sse: bool, parse: Parser, chunks: seq<Chunk>, tail: string)
    returns (failed: bool, passed: seq<seq<bv8>>)
    requires FirstBreak(tail) == |tail|
    ensures passed == Bytes(chunks)
    ensures failed <==> sse && (AnyFailure(parse, Lines(TextOf(chunks) + tail)) || Overlong(chunks))
    ensures sse && !LongLine(Lines(TextOf(chunks) + tail))
            ==> (failed <==> WholeTextFails(parse, TextOf(chunks) + tail))
  {
    OverlongMeansLongLine(chunks, tail);
    var observer := new Observer(sse, parse);
    var i := 0;
    hide Bytes;
    hide TextOf;
    hide Lines;
    hide AnyFailure;
    hide Overlong;
    hide LongLine;
    hide Sound;
    BytesEnds(chunks);
    while i < |chunks|
      invariant 0 <= i <= |chunks|
      invariant observer.Valid() && observer.seen == chunks[..i]
      invariant observer.passed == Bytes(chunks[..i])
      invariant observer.sse == sse && observer.parse == parse
      invariant fresh(observer)
    {
      observer.Transform(chunks[i]);
      BytesStep(chunks, i);
      i := i + 1;
    }
    observer.Flush(tail);
    failed, passed := observer.failed, observer.passed;
  }

  function Bytes(chunks: seq<Chunk>): seq<seq<bv8>> {
    if chunks == [] then [] else Bytes(chunks[..|chunks| - 1]) + [chunks[|chunks| - 1].bytes]
  }

  lemma BytesEnds(chunks: seq<Chunk>)
    ensures chunks[..0] == [] && chunks[..|chunks|] == chunks && Bytes([]) == []
  {
  }

  lemma BytesStep(chunks: seq<Chunk>, i: nat)
    requires i < |chunks|
    ensures chunks[..i + 1] == chunks[..i] + [chunks[i]]
    ensures Bytes(chunks[..i + 1]) == Bytes(chunks[..i]) + [chunks[i].bytes]
  {
    assert chunks[..i + 1][..i] == chunks[..i];
  }

  /** What is held back at some cut is the beginning of a line of the whole text. */
  lemma {:induction false} OverlongMeansLongLine(chunks: seq<Chunk>, tail: string)
    ensures Overlong(chunks) ==> LongLine(Lines(TextOf(chunks) + tail))
  {
    hide Unfinished;
    hide Complete;
    hide Lines;
    if Overlong(chunks) {
      var n :| 0 < n <= |chunks| && |Unfinished(TextOf(chunks[..n]))| > MAX_PENDING;
      var before, after := TextOf(chunks[..n]), TextOf(chunks[n..]) + tail;
      TextOfSplit(chunks, n);
      assert TextOf(chunks) + tail == before + after;
      LinesOfAppend(before, after);
      UnfinishedHasNoBreak(before);
      FirstLineStarts(Unfinished(before), after);
      var m := |Complete(before)|;
      assert |Lines(TextOf(chunks) + tail)[m]| > MAX_PENDING;
    }
  }

  lemma FirstLineStarts(a: string, b: string)
    requires FirstBreak(a) == |a|
    ensures |Lines(a + b)[0]| >= |a|
  {
    assert forall i :: 0 <= i < |a| ==> (a + b)[i] == a[i];
    LinesUnfold(a + b);
  }

  lemma {:induction false} TextOfSplit(chunks: seq<Chunk>, n: nat)
    requires n <= |chunks|
    ensures TextOf(chunks) == TextOf(chunks[..n]) + TextOf(chunks[n..])
    decreases |chunks|
  {
    if n == |chunks| {
      assert chunks[..n] == chunks;
    } else {
      var m := |chunks| - 1;
      TextOfSplit(chunks[..m], n);
      assert chunks[..m][..n] == chunks[..n];
      assert chunks[n..][..m - n] == chunks[..m][n..];
    }
  }

  /** The answer the observer stands for: some line of the whole text is a failure line. */
  predicate WholeTextFails(parse: Parser, text: string) {
    AnyFailure(parse, Lines(text))
  }

  /**
   For every way of cutting the stream: a failure line sets the flag, and the flag is set only by a
   failure line or a line longer than a mebibyte. Without such a line the flag is exactly the
   whole-text answer, so how the stream was cut does not matter.
   */
  lemma {:induction false} FlagAgreesWithWholeText(parse: Parser, chunks: seq<Chunk>, tail: string, failed: bool)
    requires failed <==> AnyFailure(parse, Lines(TextOf(chunks) + tail)) || Overlong(chunks)
    ensures var text := TextOf(chunks) + tail;
            && (WholeTextFails(parse, text) ==> failed)
            && (failed ==> WholeTextFails(parse, text) || LongLine(Lines(text)))
            && (!LongLine(Lines(text)) ==> (failed <==> WholeTextFails(parse, text)))
  {
    OverlongMeansLongLine(chunks, tail);
  }
}
