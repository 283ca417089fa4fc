/**
 Newline framing of the two receivers: in-place buffers against a plain split into lines, as section 3.2 of the
 NDJSON 1.0 specification asks of a parser.
 */
module Framing {
  type Byte = b: int | 0 <= b < 256

  const NEWLINE: Byte := 10
  const CARRIAGE_RETURN: Byte := 13
  const MAX_LINE := 512
  const VEHICLE_BUFFER := 1024
  const VEHICLE_READ := 256
  const BRIDGE_BUFFER := 4096
  const BRIDGE_READ := 512

  type Bytes = seq<Byte>

  // --- the plain split ---

  /** What follows the last newline. */
  function Tail(s: Bytes): Bytes {
    if |s| == 0 || s[|s| - 1] == NEWLINE then [] else Tail(s[..|s| - 1]) + [s[|s| - 1]]
  }

  /** The lines that a newline ends, without it. */
  function Lines(s: Bytes): seq<Bytes> {
    if |s| == 0 then []
    else if s[|s| - 1] == NEWLINE then Lines(s[..|s| - 1]) + [Tail(s[..|s| - 1])]
    else Lines(s[..|s| - 1])
  }

  predicate Fits(line: Bytes) { 0 < |line| <= MAX_LINE }

  /** The lines passed on: empty and oversized ones are dropped. */
  function Kept(lines: seq<Bytes>): seq<Bytes> {
    if |lines| == 0 then []
    else Kept(lines[..|lines| - 1]) + (if Fits(lines[|lines| - 1]) then [lines[|lines| - 1]] else [])
  }

  /** One trailing carriage return is not part of the line. */
  function StripCr(line: Bytes): Bytes {
    if |line| > 0 && line[|line| - 1] == CARRIAGE_RETURN then line[..|line| - 1] else line
  }

  function Stripped(lines: seq<Bytes>): (r: seq<Bytes>)
    ensures |r| == |lines| && forall i :: 0 <= i < |r| ==> r[i] == StripCr(lines[i])
  {
    seq(|lines|, i requires 0 <= i < |lines| => StripCr(lines[i]))
  }

  /** Exactly one trailing carriage return goes. */
  lemma StripCrExactly(line: Bytes)
    ensures StripCr(line + [CARRIAGE_RETURN]) == line
    ensures (|line| == 0 || line[|line| - 1] != CARRIAGE_RETURN) ==> StripCr(line) == line
  {
  }

  lemma StrippedJoin(a: seq<Bytes>, b: seq<Bytes>)
    ensures Stripped(a + b) == Stripped(a) + Stripped(b)
  {
  }

  lemma {:induction false} LinesJoin(s: Bytes, t: Bytes)
    requires Tail(s) == []
    ensures Lines(s + t) == Lines(s) + Lines(t)
    ensures Tail(s + t) == Tail(t)
    decreases |t|
  {
    if |t| == 0 {
      assert s + t == s;
    } else {
      LinesJoin(s, t[..|t| - 1]);
      assert (s + t)[..|s + t| - 1] == s + t[..|t| - 1];
      assert (s + t)[|s + t| - 1] == t[|t| - 1];
    }
  }

  lemma {:induction false} NoNewline(s: Bytes)
    requires NEWLINE !in s
    ensures Lines(s) == [] && Tail(s) == s
  {
    if |s| > 0 {
      NoNewline(s[..|s| - 1]);
      assert s == s[..|s| - 1] + [s[|s| - 1]];
    }
  }

  /** Cutting at the first newline takes off the first line. */
  lemma FirstLine(s: Bytes, k: nat)
    requires k < |s| && s[k] == NEWLINE && NEWLINE !in s[..k]
    ensures Lines(s) == [s[..k]] + Lines(s[k + 1..]) && Tail(s) == Tail(s[k + 1..])
  {
    hide Lines, Tail;
    var line, rest := s[..k], s[k + 1..];
    NoNewline(line);
    OneLine(line);
    LinesJoin(line + [NEWLINE], rest);
    assert s == (line + [NEWLINE]) + rest;
  }

  lemma OneLine(line: Bytes)
    requires Lines(line) == [] && Tail(line) == line
    ensures Lines(line + [NEWLINE]) == [line] && Tail(line + [NEWLINE]) == []
  {
    assert (line + [NEWLINE])[..|line|] == line;
  }

  lemma NoneKept()
    ensures Kept([]) == []
  {
  }

  lemma KeptOne(line: Bytes)
    ensures Kept([line]) == if Fits(line) then [line] else []
  {
    assert [line][..0] == [];
  }

  /** Splitting in two steps: the tail of the first part is continued by the second. */
  lemma {:induction false} SplitContinues(s: Bytes, t: Bytes)
    ensures Lines(s + t) == Lines(s) + Lines(Tail(s) + t)
    ensures Tail(s + t) == Tail(Tail(s) + t)
    decreases |t|
  {
    if |t| == 0 {
      TailHasNoNewline(s);
      NoNewline(Tail(s));
      assert s + t == s && Tail(s) + t == Tail(s);
    } else {
      SplitContinues(s, t[..|t| - 1]);
      assert (s + t)[..|s + t| - 1] == s + t[..|t| - 1];
      assert (Tail(s) + t)[..|Tail(s) + t| - 1] == Tail(s) + t[..|t| - 1];
    }
  }

  lemma {:induction false} TailHasNoNewline(s: Bytes)
    ensures NEWLINE !in Tail(s)
  {
    if |s| > 0 && s[|s| - 1] != NEWLINE {
      TailHasNoNewline(s[..|s| - 1]);
    }
  }

  lemma {:induction false} KeptJoin(a: seq<Bytes>, b: seq<Bytes>)
    ensures Kept(a + b) == Kept(a) + Kept(b)
    decreases |b|
  {
    if |b| == 0 {
      assert a + b == a;
    } else {
      KeptJoin(a, b[..|b| - 1]);
      assert (a + b)[..|a + b| - 1] == a + b[..|b| - 1];
    }
  }

  // --- a receiver with a bounded buffer ---

  datatype Fed = Fed(rest: Bytes, lines: seq<Bytes>)

  /** One received chunk: an overfull buffer is dropped, complete lines are passed on, an overlong rest is dropped. */
  function Feed(limit: nat, buffer: Bytes, chunk: Bytes): Fed {
    if |buffer| + |chunk| > limit then Fed([], [])
    else
      var rest := Tail(buffer + chunk);
      Fed(if |rest| > MAX_LINE then [] else rest, Kept(Lines(buffer + chunk)))
  }

  function FeedAll(limit: nat, chunks: seq<Bytes>): Fed {
    if |chunks| == 0 then Fed([], [])
    else
      var before := FeedAll(limit, chunks[..|chunks| - 1]);
      var fed := Feed(limit, before.rest, chunks[|chunks| - 1]);
      Fed(fed.rest, before.lines + fed.lines)
  }

  function Stream(chunks: seq<Bytes>): Bytes {
    if |chunks| == 0 then [] else Stream(chunks[..|chunks| - 1]) + chunks[|chunks| - 1]
  }

  /** No line of the stream, finished or not, is longer than the limit. */
  predicate LinesFit(s: Bytes) {
    |Tail(s)| <= MAX_LINE && forall i :: 0 <= i < |Lines(s)| ==> |Lines(s)[i]| <= MAX_LINE
  }

  lemma FitsInFront(s: Bytes, t: Bytes)
    requires LinesFit(s + t)
    ensures LinesFit(s)
  {
    SplitContinues(s, t);
    var all := Lines(s + t);
    forall i | 0 <= i < |Lines(s)|
      ensures |Lines(s)[i]| <= MAX_LINE
    {
      assert Lines(s)[i] == all[i];
    }
    TailHasNoNewline(s);
    ContinuationIsLonger(Tail(s), t);
    if |Lines(Tail(s) + t)| > 0 {
      assert Lines(Tail(s) + t)[0] == all[|Lines(s)|];
    }
  }

  /** Bytes without a newline begin the first line, or the rest, of whatever they are continued by. */
  lemma {:induction false} ContinuationIsLonger(s: Bytes, t: Bytes)
    requires NEWLINE !in s
    ensures |Lines(s + t)| > 0 ==> |s| <= |Lines(s + t)[0]|
    ensures |Lines(s + t)| == 0 ==> |s| <= |Tail(s + t)|
    decreases |t|
  {
    if |t| == 0 {
      assert s + t == s;
      NoNewline(s);
    } else {
      ContinuationIsLonger(s, t[..|t| - 1]);
      assert (s + t)[..|s + t| - 1] == s + t[..|t| - 1];
    }
  }

  /**
   However a stream of lines of at most 512 bytes is cut into chunks that the buffer has room for, the receiver
   passes on exactly its non-empty lines, in order, and retains exactly the unfinished one.
   */
  lemma {:induction false} EveryCutDeliversTheLines(limit: nat, read: nat, chunks: seq<Bytes>)
    requires MAX_LINE + read <= limit
    requires forall i :: 0 <= i < |chunks| ==> |chunks[i]| <= read
    requires LinesFit(Stream(chunks))
    ensures FeedAll(limit, chunks) == Fed(Tail(Stream(chunks)), Kept(Lines(Stream(chunks))))
    decreases |chunks|
  {
    if |chunks| > 0 {
      var front, chunk := chunks[..|chunks| - 1], chunks[|chunks| - 1];
      FitsInFront(Stream(front), chunk);
      EveryCutDeliversTheLines(limit, read, front);
      SplitContinues(Stream(front), chunk);
      KeptJoin(Lines(Stream(front)), Lines(Tail(Stream(front)) + chunk));
    }
  }

  // --- streams with overlong lines ---

  /** A piece is left of a line of which more than 512 bytes have been dropped in front. */
  ghost predicate CutOff(piece: Bytes, line: Bytes) {
    |piece| + MAX_LINE < |line| && line[|line| - |piece|..] == piece
  }

  /** Passed on are exactly the non-empty lines that fit and, of an overlong line, nothing or what is left of it. */
  ghost predicate Explains(lines: seq<Bytes>, passed: seq<Bytes>) {
    if |lines| == 0 then passed == []
    else
      var front, line := lines[..|lines| - 1], lines[|lines| - 1];
      if |line| <= MAX_LINE then
        |passed| >= |Kept([line])|
        && passed[|passed| - |Kept([line])|..] == Kept([line]) && Explains(front, passed[..|passed| - |Kept([line])|])
      else
        || Explains(front, passed)
        || (|passed| > 0 && Fits(passed[|passed| - 1]) && CutOff(passed[|passed| - 1], line)
            && Explains(front, passed[..|passed| - 1]))
  }

  /** What is retained of an unfinished line. */
  ghost predicate Retains(rest: Bytes, tail: Bytes) {
    rest == tail || CutOff(rest, tail)
  }

  lemma ExplainsMore(lines: seq<Bytes>, passed: seq<Bytes>, line: Bytes, piece: seq<Bytes>)
    requires Explains(lines, passed)
    requires if |line| <= MAX_LINE then piece == Kept([line])
             else piece == [] || (|piece| == 1 && Fits(piece[0]) && CutOff(piece[0], line))
    ensures Explains(lines + [line], passed + piece)
  {
    hide CutOff, Fits, Kept;
    var all := passed + piece;
    assert (lines + [line])[..|lines|] == lines;
    assert all[..|all| - |piece|] == passed && all[|all| - |piece|..] == piece;
    if piece == [] {
      assert all == passed;
    }
  }

  lemma {:induction false} ExplainsKept(lines: seq<Bytes>, passed: seq<Bytes>, more: seq<Bytes>)
    requires Explains(lines, passed)
    ensures Explains(lines + more, passed + Kept(more))
    decreases |more|
  {
    hide Explains;
    if |more| == 0 {
      assert lines + more == lines && passed + Kept(more) == passed;
    } else {
      var front, line := more[..|more| - 1], more[|more| - 1];
      ExplainsKept(lines, passed, front);
      KeptOne(line);
      ExplainsMore(lines + front, passed + Kept(front), line, Kept([line]));
      assert lines + more == (lines + front) + [line];
      assert passed + Kept(more) == (passed + Kept(front)) + Kept([line]);
    }
  }

  /** Bytes put in front of a stream go to its first line, or to its unfinished one. */
  lemma {:induction false} PrefixGoesFirst(pre: Bytes, s: Bytes)
    requires NEWLINE !in pre
    ensures Lines(s) == [] ==> Lines(pre + s) == [] && Tail(pre + s) == pre + Tail(s)
    ensures Lines(s) != [] ==> Lines(pre + s) == [pre + Lines(s)[0]] + Lines(s)[1..] && Tail(pre + s) == Tail(s)
    decreases |s|
  {
    if |s| == 0 {
      NoNewline(pre);
      assert pre + s == pre;
    } else {
      var front, last := s[..|s| - 1], s[|s| - 1];
      PrefixGoesFirst(pre, front);
      assert (pre + s)[..|pre + s| - 1] == pre + front && (pre + s)[|pre + s| - 1] == last;
    }
  }

  lemma FedExplains(lines: seq<Bytes>, passed: seq<Bytes>, rest: Bytes, tail: Bytes, chunk: Bytes)
    requires Explains(lines, passed) && Retains(rest, tail) && NEWLINE !in tail
    ensures Explains(lines + Lines(tail + chunk), passed + Kept(Lines(rest + chunk)))
    ensures var kept := Tail(rest + chunk); Retains(if |kept| > MAX_LINE then [] else kept, Tail(tail + chunk))
  {
    hide Lines, Tail, Explains, Kept;
    var pre, all := tail[..|tail| - |rest|], rest + chunk;
    assert tail == pre + rest;
    assert tail + chunk == pre + all;
    PrefixGoesFirst(pre, all);
    if Lines(all) == [] {
      NoneKept();
      assert lines + [] == lines && passed + [] == passed;
    } else {
      var first, others := Lines(all)[0], Lines(all)[1..];
      assert Lines(all) == [first] + others;
      KeptOne(first);
      KeptJoin([first], others);
      assert (pre + first)[|pre|..] == first;
      ExplainsMore(lines, passed, pre + first, Kept([first]));
      ExplainsKept(lines + [pre + first], passed + Kept([first]), others);
      assert lines + Lines(tail + chunk) == lines + [pre + first] + others;
      assert passed + Kept(Lines(all)) == passed + Kept([first]) + Kept(others);
    }
  }

  /**
   For any stream and any cut that the buffer has room for: a line that fits is passed on in its place whatever is
   around it, and an overlong line can only leave what follows its first 513 bytes or more.
   */
  lemma {:induction false} OverlongLinesCostNothingElse(limit: nat, read: nat, chunks: seq<Bytes>)
    requires MAX_LINE + read <= limit
    requires forall i :: 0 <= i < |chunks| ==> |chunks[i]| <= read
    ensures Explains(Lines(Stream(chunks)), FeedAll(limit, chunks).lines)
    ensures Retains(FeedAll(limit, chunks).rest, Tail(Stream(chunks)))
    decreases |chunks|
  {
    hide Explains, Lines, Tail, Kept;
    if |chunks| == 0 {
      NoNewline([]);
      NothingExplained();
    } else {
      var front, chunk := chunks[..|chunks| - 1], chunks[|chunks| - 1];
      OverlongLinesCostNothingElse(limit, read, front);
      NeverOverflows(limit, read, front, chunk);
      SplitContinues(Stream(front), chunk);
      TailHasNoNewline(Stream(front));
      var before := FeedAll(limit, front);
      FedExplains(Lines(Stream(front)), before.lines, before.rest, Tail(Stream(front)), chunk);
    }
  }

  lemma NothingExplained()
    ensures Explains([], [])
  {
  }

  // --- what is left of an overlong line depends on the cut ---

  const LETTER_A: Byte := 97
  const LETTER_B: Byte := 98

  function FullRead(): Bytes { seq(VEHICLE_READ, _ => LETTER_A) }

  lemma FedTwice(limit: nat, chunks: seq<Bytes>, chunk: Bytes)
    ensures var before := FeedAll(limit, chunks);
      FeedAll(limit, chunks + [chunk]) == Fed(Feed(limit, before.rest, chunk).rest,
                                              before.lines + Feed(limit, before.rest, chunk).lines)
  {
    assert (chunks + [chunk])[..|chunks|] == chunks;
  }

  /** Bytes without a newline are retained if they fit behind the buffer, and dropped if they are too many. */
  lemma FeedUnfinished(limit: nat, buffer: Bytes, chunk: Bytes)
    requires |buffer| + |chunk| <= limit && NEWLINE !in buffer + chunk
    ensures Feed(limit, buffer, chunk) == Fed(if |buffer| + |chunk| > MAX_LINE then [] else buffer + chunk, [])
  {
    NoNewline(buffer + chunk);
  }

  lemma FeedFinished(limit: nat, buffer: Bytes, line: Bytes)
    requires |buffer| + |line| + 1 <= limit && NEWLINE !in buffer + line
    ensures Feed(limit, buffer, line + [NEWLINE]) == Fed([], if Fits(buffer + line) then [buffer + line] else [])
  {
    NoNewline(buffer + line);
    OneLine(buffer + line);
    KeptOne(buffer + line);
    assert buffer + (line + [NEWLINE]) == (buffer + line) + [NEWLINE];
  }

  lemma TwoReads()
    ensures var full := FullRead(); FeedAll(VEHICLE_BUFFER, [full] + [full]) == Fed(full + full, [])
  {
    hide Feed, FeedAll;
    var full := FullRead();
    FedNothing();
    FedTwice(VEHICLE_BUFFER, [], full);
    FeedUnfinished(VEHICLE_BUFFER, [], full);
    FedTwice(VEHICLE_BUFFER, [full], full);
    FeedUnfinished(VEHICLE_BUFFER, full, full);
    assert [] + full == full && [] + [full] == [full];
  }

  lemma CutAfterTwoReads()
    ensures var full := FullRead();
      FeedAll(VEHICLE_BUFFER, [full] + [full] + [[LETTER_A, LETTER_B] + [NEWLINE]]).lines == []
  {
    hide Feed, FeedAll, FullRead;
    TwoReads();
    FullReads();
    var full := FullRead();
    FedTwice(VEHICLE_BUFFER, [full] + [full], [LETTER_A, LETTER_B] + [NEWLINE]);
    FeedFinished(VEHICLE_BUFFER, full + full, [LETTER_A, LETTER_B]);
  }

  lemma CutBeforeLastByte()
    ensures var full := FullRead();
      FeedAll(VEHICLE_BUFFER, [full] + [full] + [[LETTER_A]] + [[LETTER_B] + [NEWLINE]]).lines == [[LETTER_B]]
  {
    hide Feed, FeedAll, FullRead;
    TwoReads();
    FullReads();
    var full := FullRead();
    FedTwice(VEHICLE_BUFFER, [full] + [full], [LETTER_A]);
    FeedUnfinished(VEHICLE_BUFFER, full + full, [LETTER_A]);
    FedTwice(VEHICLE_BUFFER, [full] + [full] + [[LETTER_A]], [LETTER_B] + [NEWLINE]);
    FeedFinished(VEHICLE_BUFFER, [], [LETTER_B]);
    assert [] + [LETTER_B] == [LETTER_B];
  }

  lemma FullReads()
    ensures var full := FullRead(); |full| == VEHICLE_READ && forall i :: 0 <= i < |full| ==> full[i] == LETTER_A
  {
  }

  /** The same line of 514 bytes is dropped whole in one cut and leaves its last byte in another. */
  lemma CutDecidesWhatIsLeft()
    ensures var full := FullRead();
      && FeedAll(VEHICLE_BUFFER, [full, full, [LETTER_A, LETTER_B, NEWLINE]]).lines == []
      && FeedAll(VEHICLE_BUFFER, [full, full, [LETTER_A], [LETTER_B, NEWLINE]]).lines == [[LETTER_B]]
  {
    hide FeedAll, FullRead;
    var full := FullRead();
    CutAfterTwoReads();
    CutBeforeLastByte();
    assert [LETTER_A, LETTER_B] + [NEWLINE] == [LETTER_A, LETTER_B, NEWLINE];
    assert [LETTER_B] + [NEWLINE] == [LETTER_B, NEWLINE];
    assert [full] + [full] + [[LETTER_A, LETTER_B, NEWLINE]] == [full, full, [LETTER_A, LETTER_B, NEWLINE]];
    assert [full] + [full] + [[LETTER_A]] + [[LETTER_B, NEWLINE]] == [full, full, [LETTER_A], [LETTER_B, NEWLINE]];
  }

  lemma FedNothing()
    ensures FeedAll(VEHICLE_BUFFER, []) == Fed([], [])
  {
  }

  /** Of a stream whose lines fit, exactly the empty lines are not passed on. */
  lemma {:induction false} KeptAreNonEmpty(lines: seq<Bytes>, line: Bytes)
    requires forall i :: 0 <= i < |lines| ==> |lines[i]| <= MAX_LINE
    ensures multiset(Kept(lines))[line] == if line == [] then 0 else multiset(lines)[line]
  {
    if |lines| > 0 {
      KeptAreNonEmpty(lines[..|lines| - 1], line);
      assert lines == lines[..|lines| - 1] + [lines[|lines| - 1]];
    }
  }

  /** Whatever is received, at most 512 bytes are retained, so the next chunk never overflows the buffer. */
  lemma NeverOverflows(limit: nat, read: nat, chunks: seq<Bytes>, chunk: Bytes)
    requires MAX_LINE + read <= limit && |chunk| <= read
    ensures |FeedAll(limit, chunks).rest| + |chunk| <= limit
    ensures |FeedAll(limit, chunks).rest| <= MAX_LINE
  {
  }

  /** A chunk that the buffer has no room for is lost with what was in it. */
  lemma OverflowLosesAll(limit: nat, buffer: Bytes, chunk: Bytes)
    requires |buffer| + |chunk| > limit
    ensures Feed(limit, buffer, chunk) == Fed([], [])
  {
  }

  // --- the vehicle's receiver ---

  /** Taking the first line off: the lines done and to come stay the same, and it is passed on if it fits. */
  lemma OneLineTaken(done: seq<Bytes>, contents: Bytes, newline: nat)
    requires newline < |contents| && contents[newline] == NEWLINE && NEWLINE !in contents[..newline]
    ensures done + Lines(contents) == (done + [contents[..newline]]) + Lines(contents[newline + 1..])
    ensures Tail(contents) == Tail(contents[newline + 1..])
    ensures var line := contents[..newline];
      Stripped(Kept(done + [line])) == Stripped(Kept(done)) + Stripped(if Fits(line) then [line] else [])
  {
    hide Lines, Tail, Kept, Stripped, Fits;
    var line := contents[..newline];
    FirstLine(contents, newline);
    KeptJoin(done, [line]);
    KeptOne(line);
    StrippedJoin(Kept(done), Kept([line]));
  }

  class StreamBuffer {
    const buffer: array<Byte>
    var length: nat

    ghost predicate Valid()
      reads this, buffer
    {
      buffer.Length == VEHICLE_BUFFER && length <= VEHICLE_BUFFER
    }

    ghost function Contents(): Bytes
      reads this, buffer
      requires Valid()
    {
      buffer[..length]
    }

    constructor ()
      ensures Valid() && Contents() == [] && fresh(buffer)
    {
      buffer := new Byte[VEHICLE_BUFFER](_ => 0);
      length := 0;
    }

    /** Append a chunk and pass on its complete lines; `ok` is false when the buffer was reset. */
    method AppendStream(chunk: Bytes) returns (ok: bool, lines: seq<Bytes>)
      requires Valid()
      modifies this, buffer
      ensures Valid()
      ensures var fed := Feed(VEHICLE_BUFFER, old(Contents()), chunk);
        Contents() == fed.rest && lines == Stripped(fed.lines)
      ensures ok <==> old(length) + |chunk| <= VEHICLE_BUFFER && |Tail(old(Contents()) + chunk)| <= MAX_LINE
    {
      hide Lines, Tail, Kept, Stripped, Fits;
      StrippedJoin([], []);
      lines := [];
      if length + |chunk| > buffer.Length {
        length := 0;
        return false, [];
      }
      CopyIn(chunk);
      ghost var all := old(Contents()) + chunk;
      ghost var done: seq<Bytes> := [];
      ok := true;
      NoneKept();
      while true
        invariant Valid() && ok
        invariant Lines(all) == done + Lines(Contents()) && Tail(all) == Tail(Contents())
        invariant lines == Stripped(Kept(done))
        decreases length
      {
        var newline := FindNewline();
        if newline == length {
          NoNewline(Contents());
          assert done + [] == done;
          if length > MAX_LINE {
            length := 0;
            ok := false;
          }
          break;
        }
        OneLineTaken(done, Contents(), newline);
        ghost var line := Contents()[..newline];
        var more := TakeLine(newline);
        lines := lines + more;
        done := done + [line];
      }
    }

    /** Take the first line out of the buffer, and pass it on unless it is empty or oversized. */
    method TakeLine(newline: nat) returns (more: seq<Bytes>)
      requires Valid() && newline < length
      modifies this`length, buffer
      ensures Valid() && Contents() == old(Contents())[newline + 1..] && length < old(length)
      ensures var line := old(Contents())[..newline]; more == Stripped(if Fits(line) then [line] else [])
    {
      ghost var line := Contents()[..newline];
      more := [];
      if 0 < newline <= MAX_LINE {
        var end := if buffer[newline - 1] == CARRIAGE_RETURN then newline - 1 else newline;
        assert buffer[..end] == StripCr(line);
        more := [buffer[..end]];
      }
      MoveDown(newline + 1);
    }

    method CopyIn(chunk: Bytes)
      requires Valid() && length + |chunk| <= buffer.Length
      modifies this`length, buffer
      ensures Valid() && Contents() == old(Contents()) + chunk
    {
      for i := 0 to |chunk|
        invariant length == old(length) && buffer[..length] == old(buffer[..length])
        invariant buffer[length..length + i] == chunk[..i]
      {
        buffer[length + i] := chunk[i];
      }
      length := length + |chunk|;
    }

    /** The index of the first newline, or the length if there is none. */
    method FindNewline() returns (k: nat)
      requires Valid()
      ensures k <= length && NEWLINE !in Contents()[..k]
      ensures k < length ==> Contents()[k] == NEWLINE
    {
      k := 0;
      while k < length && buffer[k] != NEWLINE
        invariant k <= length && forall i :: 0 <= i < k ==> buffer[i] != NEWLINE
      {
        k := k + 1;
      }
    }

    /** Drop the first `consumed` bytes by moving the rest down in place. */
    method MoveDown(consumed: nat)
      requires Valid() && consumed <= length
      modifies this`length, buffer
      ensures Valid() && Contents() == old(Contents())[consumed..]
      ensures length == old(length) - consumed
    {
      var remaining := length - consumed;
      for i := 0 to remaining
        invariant forall j :: 0 <= j < i ==> buffer[j] == old(buffer[consumed + j])
        invariant forall j :: i <= j < buffer.Length ==> buffer[j] == old(buffer[j])
      {
        buffer[i] := buffer[consumed + i];
      }
      length := remaining;
    }
  }

  /** The receive loop of the vehicle: everything passed on over a connection. */
  method Communicate(chunks: seq<Bytes>) returns (lines: seq<Bytes>)
    requires forall i :: 0 <= i < |chunks| ==> |chunks[i]| <= VEHICLE_READ
    ensures lines == Stripped(FeedAll(VEHICLE_BUFFER, chunks).lines)
    ensures LinesFit(Stream(chunks)) ==> lines == Stripped(Kept(Lines(Stream(chunks))))
  {
    hide Feed, LinesFit, Lines, Tail, Kept, Stripped, Stream;
    var stream := new StreamBuffer();
    lines := [];
    StrippedJoin([], []);
    for i := 0 to |chunks|
      invariant fresh(stream) && fresh(stream.buffer) && stream.Valid()
      invariant stream.Contents() == FeedAll(VEHICLE_BUFFER, chunks[..i]).rest
      invariant lines == Stripped(FeedAll(VEHICLE_BUFFER, chunks[..i]).lines)
    {
      assert chunks[..i + 1][..i] == chunks[..i];
      NeverOverflows(VEHICLE_BUFFER, VEHICLE_READ, chunks[..i], chunks[i]);
      ghost var before := FeedAll(VEHICLE_BUFFER, chunks[..i]);
      StrippedJoin(before.lines, Feed(VEHICLE_BUFFER, before.rest, chunks[i]).lines);
      var ok, more := stream.AppendStream(chunks[i]);
      lines := lines + more;
    }
    assert chunks[..|chunks|] == chunks;
    if LinesFit(Stream(chunks)) {
      EveryCutDeliversTheLines(VEHICLE_BUFFER, VEHICLE_READ, chunks);
    }
  }

  // --- the bridge's receiver ---

  class LineDrain {
    var buffer: Bytes

    constructor ()
      ensures buffer == []
    {
      buffer := [];
    }

    method Receive(chunk: Bytes) returns (lines: seq<Bytes>)
      modifies this
      ensures var fed := Feed(BRIDGE_BUFFER, old(buffer), chunk); buffer == fed.rest && lines == fed.lines
    {
      buffer := buffer + chunk;
      if |buffer| > BRIDGE_BUFFER {
        buffer := [];
        return [];
      }
      lines := DrainLines();
    }

    method DrainLines() returns (lines: seq<Bytes>)
      modifies this
      ensures lines == Kept(Lines(old(buffer)))
      ensures buffer == if |Tail(old(buffer))| > MAX_LINE then [] else Tail(old(buffer))
    {
      lines := [];
      ghost var done: seq<Bytes> := [];
      while true
        invariant Lines(old(buffer)) == done + Lines(buffer) && Tail(old(buffer)) == Tail(buffer)
        invariant lines == Kept(done)
        decreases |buffer|
      {
        var newline := Find(buffer);
        if newline == |buffer| {
          NoNewline(buffer);
          assert done + [] == done;
          if |buffer| > MAX_LINE {
            buffer := [];
          }
          return;
        }
        FirstLine(buffer, newline);
        var raw := buffer[..newline];
        KeptJoin(done, [raw]);
        done := done + [raw];
        buffer := buffer[newline + 1..];
        if |raw| == 0 || |raw| > MAX_LINE {
          continue;
        }
        lines := lines + [raw];
      }
    }
  }

  method Find(s: Bytes) returns (k: nat)
    ensures k <= |s| && NEWLINE !in s[..k] && (k < |s| ==> s[k] == NEWLINE)
  {
    k := 0;
    while k < |s| && s[k] != NEWLINE
      invariant k <= |s| && NEWLINE !in s[..k]
    {
      k := k + 1;
    }
  }

  /** The read loop of the bridge: everything passed on over a connection. */
  method HandleClient(chunks: seq<Bytes>) returns (lines: seq<Bytes>)
    requires forall i :: 0 <= i < |chunks| ==> |chunks[i]| <= BRIDGE_READ
    ensures lines == FeedAll(BRIDGE_BUFFER, chunks).lines
    ensures LinesFit(Stream(chunks)) ==> lines == Kept(Lines(Stream(chunks)))
  {
    hide Feed, LinesFit, Lines, Tail, Kept, Stream;
    var drain := new LineDrain();
    lines := [];
    for i := 0 to |chunks|
      invariant fresh(drain)
      invariant drain.buffer == FeedAll(BRIDGE_BUFFER, chunks[..i]).rest
      invariant lines == FeedAll(BRIDGE_BUFFER, chunks[..i]).lines
    {
      assert chunks[..i + 1][..i] == chunks[..i];
      var more := drain.Receive(chunks[i]);
      lines := lines + more;
    }
    assert chunks[..|chunks|] == chunks;
    if LinesFit(Stream(chunks)) {
      EveryCutDeliversTheLines(BRIDGE_BUFFER, BRIDGE_READ, chunks);
    }
  }
}
