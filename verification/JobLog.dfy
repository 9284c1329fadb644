/**
The tail of a job log: a byte stream read through a buffered reader, split into lines, each cut to a
bounded length, and the last n kept.
*/
module JobLog {
  import opened Common

  const MAX_LINE_LENGTH: nat := 4096
  const MAX_LOG_BYTES: nat := 67108864
  const BUFFER_SIZE: nat := 65536
  const LF: Byte := 10
  const CR: Byte := 13

  // ---------------------------------------------------------------------------------------------
  // The buffered reader
  // ---------------------------------------------------------------------------------------------

  /** The position of the first line feed, or the length. */
  function LineEnd(b: seq<Byte>): (i: nat)
    ensures i <= |b| && (i < |b| ==> b[i] == LF)
    ensures forall k :: 0 <= k < i ==> b[k] != LF
  {
    if b == [] || b[0] == LF then 0 else 1 + LineEnd(b[1..])
  }

  function WithoutCR(b: seq<Byte>): seq<Byte> {
    if b != [] && b[|b| - 1] == CR then b[..|b| - 1] else b
  }

  /** One answer of the buffered reader, and how many bytes it used up. */
  datatype Fragment = Fragment(bytes: seq<Byte>, more: bool, taken: nat)

  /**
  What the reader hands out of b: a line without its line end, or a full buffer of one, holding back
  a carriage return that a line feed might follow. `eager` says that the stream reports its end
  along with its last bytes, not on a read of its own.
  */
  function First(b: seq<Byte>, size: nat, eager: bool): (f: Fragment)
    requires b != [] && size >= 16
    ensures 0 < f.taken <= |b|
  {
    var i := LineEnd(b);
    if i < |b| && i < size then Fragment(WithoutCR(b[..i]), false, i + 1)
    else if |b| < size || (|b| == size && eager) then Fragment(b, false, |b|)
    else if b[size - 1] == CR then Fragment(b[..size - 1], true, size - 1)
    else Fragment(b[..size], true, size)
  }

  datatype Read = Part(bytes: seq<Byte>, more: bool) | Eof | Failed

  /** A buffered reader over a stream that ends, in an error when it is broken. */
  class Reader {
    var rest: seq<Byte>
    const size: nat
    const eager: bool
    const broken: bool

    constructor (stream: seq<Byte>, size: nat, eager: bool, broken: bool)
      ensures rest == stream && this.size == size && this.eager == eager && this.broken == broken
    {
      rest := stream;
      this.size := size;
      this.eager := eager;
      this.broken := broken;
    }

    method ReadLine() returns (r: Read)
      requires size >= 16
      modifies this
      ensures old(rest) == [] ==> rest == [] && r == if broken then Failed else Eof
      ensures old(rest) != [] ==>
                var f := First(old(rest), size, eager);
                r == Part(f.bytes, f.more) && rest == old(rest)[f.taken..]
    {
      if rest == [] {
        return if broken then Failed else Eof;
      }
      var f := First(rest, size, eager);
      rest := rest[f.taken..];
      return Part(f.bytes, f.more);
    }
  }

  /** A whole line and what follows it. */
  datatype Line = Line(bytes: seq<Byte>, rest: seq<Byte>)

  /** The fragments of the next line joined up; none when the stream ends before its last fragment. */
  function Whole(b: seq<Byte>, size: nat, eager: bool): (l: Option<Line>)
    requires size >= 16
    ensures l.Some? ==> |l.value.rest| < |b|
    decreases |b|
  {
    if b == [] then None
    else
      var f := First(b, size, eager);
      if !f.more then Some(Line(f.bytes, b[f.taken..]))
      else
        var l := Whole(b[f.taken..], size, eager);
        if l.None? then None else Some(Line(f.bytes + l.value.bytes, l.value.rest))
  }

  // ---------------------------------------------------------------------------------------------
  // UTF-8, sections 3 and 4 of RFC 3629
  // ---------------------------------------------------------------------------------------------

  function Width(lead: Byte): nat {
    if lead < 0x80 then 1
    else if 0xC2 <= lead <= 0xDF then 2
    else if 0xE0 <= lead <= 0xEF then 3
    else if 0xF0 <= lead <= 0xF4 then 4
    else 0
  }

  predicate Continues(b: Byte) {
    0x80 <= b <= 0xBF
  }

  predicate SecondFits(lead: Byte, b: Byte) {
    && Continues(b)
    && (lead == 0xE0 ==> b >= 0xA0)
    && (lead == 0xED ==> b <= 0x9F)
    && (lead == 0xF0 ==> b >= 0x90)
    && (lead == 0xF4 ==> b <= 0x8F)
  }

  /** The length of the rune b starts with; 0 when it starts with none. */
  function RuneLength(b: seq<Byte>): (w: nat)
    requires b != []
    ensures w <= |b| && w <= 4
  {
    var w := Width(b[0]);
    if w > |b| then 0
    else if w >= 2 && !SecondFits(b[0], b[1]) then 0
    else if w >= 3 && !Continues(b[2]) then 0
    else if w >= 4 && !Continues(b[3]) then 0
    else w
  }

  predicate ValidUtf8(b: seq<Byte>) {
    b == [] || (RuneLength(b) > 0 && ValidUtf8(b[RuneLength(b)..]))
  }

  /** How many bytes past the last rune boundary a cut of b after k bytes falls. */
  function Dangling(b: seq<Byte>, k: nat): nat
    requires ValidUtf8(b) && k <= |b|
  {
    if b == [] then 0
    else if k < RuneLength(b) then k
    else Dangling(b[RuneLength(b)..], k - RuneLength(b))
  }

  // ---------------------------------------------------------------------------------------------
  // Cutting one line
  // ---------------------------------------------------------------------------------------------

  function Cut(b: seq<Byte>): seq<Byte> {
    if |b| <= MAX_LINE_LENGTH then b else b[..MAX_LINE_LENGTH]
  }

  /** What a line's cut is shown as: it loses a trailing CR, or a last byte that breaks a rune. */
  function Finished(line: seq<Byte>): seq<Byte>
    requires |line| <= MAX_LINE_LENGTH
  {
    var trimmed := WithoutCR(line);
    if |trimmed| == MAX_LINE_LENGTH && !ValidUtf8(trimmed) then trimmed[..|trimmed| - 1] else trimmed
  }

  function Shown(b: seq<Byte>): seq<Byte> {
    Finished(Cut(b))
  }

  method FinishLine(line: seq<Byte>) returns (text: seq<Byte>)
    requires |line| <= MAX_LINE_LENGTH
    ensures text == Finished(line)
  {
    text := WithoutCR(line);
    while |text| > 0 && !ValidUtf8(text) && |text| == MAX_LINE_LENGTH
      invariant text == WithoutCR(line) || (|text| < MAX_LINE_LENGTH && text == Finished(line))
      decreases |text|
    {
      text := text[..|text| - 1];
    }
  }

  /** A shown line is a prefix of its line, within the bound, and at most one byte short of the cut. */
  lemma ShownBounds(b: seq<Byte>)
    ensures Shown(b) <= b && |Shown(b)| <= MAX_LINE_LENGTH
    ensures |Cut(b)| - 1 <= |Shown(b)|
    ensures |Shown(b)| < |Cut(b)| ==>
              b[|Cut(b)| - 1] == CR || (|b| >= MAX_LINE_LENGTH && !ValidUtf8(Cut(b)))
  {
    hide ValidUtf8;
  }

  lemma RuneOfPrefix(b: seq<Byte>, k: nat)
    requires b != [] && RuneLength(b) > 0 && 0 < k <= |b|
    ensures RuneLength(b[..k]) == if k < RuneLength(b) then 0 else RuneLength(b)
  {
  }

  lemma {:induction false} PrefixIsValid(b: seq<Byte>, k: nat)
    requires ValidUtf8(b) && k <= |b|
    ensures ValidUtf8(b[..k]) <==> Dangling(b, k) == 0
    ensures Dangling(b, k) <= 3 && Dangling(b, k) <= k
  {
    if k == 0 {
      if b != [] {
        assert RuneLength(b) > 0;
      }
    } else {
      RuneOfPrefix(b, k);
      var w := RuneLength(b);
      hide RuneLength;
      if w <= k {
        PrefixIsValid(b[w..], k - w);
        assert b[..k][w..] == b[w..][..k - w];
      }
    }
  }

  lemma {:induction false} DanglingOneLess(b: seq<Byte>, k: nat)
    requires ValidUtf8(b) && 0 < k <= |b|
    ensures Dangling(b, k) > 0 ==> Dangling(b, k - 1) == Dangling(b, k) - 1
    ensures b[k - 1] < 0x80 ==> Dangling(b, k) == 0 && Dangling(b, k - 1) == 0
  {
    var w := RuneLength(b);
    assert 0 < w;
    if k <= w {
      if w > 1 {
        RuneBytes(b);
      }
      hide RuneLength;
      if k == w {
        assert Dangling(b, k) == Dangling(b[w..], 0);
        DanglingAtZero(b[w..]);
      }
    } else {
      hide RuneLength;
      DanglingOneLess(b[w..], k - w);
    }
  }

  lemma RuneBytes(b: seq<Byte>)
    requires b != [] && RuneLength(b) > 1
    ensures forall k :: 0 <= k < RuneLength(b) ==> b[k] >= 0x80
  {
  }

  lemma DanglingAtZero(b: seq<Byte>)
    requires ValidUtf8(b)
    ensures Dangling(b, 0) == 0
  {
  }

  /**
  The cut of a well-formed line falls on a rune boundary exactly when at most one byte of a broken
  rune is left at the bound: the loop that looks for a boundary stops after its first step.
  */
  lemma CutKeepsRunes(b: seq<Byte>)
    requires ValidUtf8(b)
    ensures ValidUtf8(Shown(b)) <==> Dangling(b, |Cut(b)|) <= 1
  {
    var k := |Cut(b)|;
    PrefixIsValid(b, k);
    assert Cut(b) == b[..k];
    if k > 0 {
      DanglingOneLess(b, k);
      PrefixIsValid(b, k - 1);
      assert b[..k][..k - 1] == b[..k - 1];
    }
    hide ValidUtf8;
    hide Dangling;
  }

  // ---------------------------------------------------------------------------------------------
  // Reading lines
  // ---------------------------------------------------------------------------------------------

  datatype LogLine = Text(line: seq<Byte>) | NoMore | Broken

  lemma CutGrows(sofar: seq<Byte>, part: seq<Byte>)
    ensures |Cut(sofar)| < MAX_LINE_LENGTH ==>
              var room := MAX_LINE_LENGTH - |Cut(sofar)|;
              Cut(sofar + part) == Cut(sofar) + part[..if room < |part| then room else |part|]
    ensures |Cut(sofar)| == MAX_LINE_LENGTH ==> Cut(sofar + part) == Cut(sofar)
  {
  }

  /** What a line is once `sofar` has been read of it and `rest` is to come. */
  function Continued(sofar: seq<Byte>, rest: seq<Byte>, size: nat, eager: bool): Option<Line>
    requires size >= 16
  {
    var l := Whole(rest, size, eager);
    if l.None? then None else Some(Line(sofar + l.value.bytes, l.value.rest))
  }

  lemma ContinuedStep(sofar: seq<Byte>, rest: seq<Byte>, size: nat, eager: bool)
    requires size >= 16 && rest != []
    ensures var f := First(rest, size, eager);
            Continued(sofar, rest, size, eager) ==
            if f.more then Continued(sofar + f.bytes, rest[f.taken..], size, eager)
            else Some(Line(sofar + f.bytes, rest[f.taken..]))
  {
    hide First;
    var f := First(rest, size, eager);
    var l := Whole(rest[f.taken..], size, eager);
    if f.more && l.Some? {
      assert sofar + (f.bytes + l.value.bytes) == sofar + f.bytes + l.value.bytes;
    }
  }

  lemma NothingRead(rest: seq<Byte>, size: nat, eager: bool)
    requires size >= 16
    ensures Cut([]) == [] && Continued([], rest, size, eager) == Whole(rest, size, eager)
  {
    var l := Whole(rest, size, eager);
    if l.Some? {
      assert [] + l.value.bytes == l.value.bytes;
    }
  }

  method ReadLogLine(r: Reader) returns (line: LogLine)
    requires r.size >= 16
    modifies r
    ensures var l := Whole(old(r.rest), r.size, r.eager);
            if l.Some? then line == Text(Shown(l.value.bytes)) && r.rest == l.value.rest
            else line == (if r.broken then Broken else NoMore) && r.rest == []
  {
    hide First;
    hide Finished;
    hide Cut;
    var text: seq<Byte> := [];
    ghost var sofar: seq<Byte> := [];
    ghost var all := r.rest;
    NothingRead(all, r.size, r.eager);
    while true
      invariant text == Cut(sofar) && |text| <= MAX_LINE_LENGTH
      invariant Continued(sofar, r.rest, r.size, r.eager) == Whole(all, r.size, r.eager)
      decreases |r.rest|
    {
      ghost var before := r.rest;
      var part := r.ReadLine();
      match part {
        case Eof => return NoMore;
        case Failed => return Broken;
        case Part(bytes, more) =>
          ContinuedStep(sofar, before, r.size, r.eager);
          CutGrows(sofar, bytes);
          var room := MAX_LINE_LENGTH - |text|;
          if room > 0 {
            text := text + bytes[..if room < |bytes| then room else |bytes|];
          }
          sofar := sofar + bytes;
          if !more {
            var shown := FinishLine(text);
            return Text(shown);
          }
      }
    }
  }

  // ---------------------------------------------------------------------------------------------
  // The tail
  // ---------------------------------------------------------------------------------------------

  /** Every line the reader yields, as shown. */
  function Lines(b: seq<Byte>, size: nat, eager: bool): seq<seq<Byte>>
    requires size >= 16
    decreases |b|
  {
    var l := Whole(b, size, eager);
    if l.None? then [] else [Shown(l.value.bytes)] + Lines(l.value.rest, size, eager)
  }

  function Last<T>(s: seq<T>, n: nat): seq<T> {
    if |s| <= n then s else s[|s| - n..]
  }

  lemma LastSnoc<T>(s: seq<T>, x: T, n: nat)
    requires n >= 1
    ensures Last(s + [x], n) == (if |Last(s, n)| == n then Last(s, n)[1..] else Last(s, n)) + [x]
  {
  }

  lemma NoLines(size: nat, eager: bool, n: nat)
    requires size >= 16
    ensures Lines([], size, eager) == [] && Last<seq<Byte>>([], n) == []
  {
  }

  lemma LinesStep(seen: seq<seq<Byte>>, b: seq<Byte>, size: nat, eager: bool)
    requires size >= 16
    ensures var l := Whole(b, size, eager);
            seen + Lines(b, size, eager) ==
            if l.None? then seen
            else seen + [Shown(l.value.bytes)] + Lines(l.value.rest, size, eager)
  {
    hide Shown;
  }

  datatype Tail = Tail(lines: seq<seq<Byte>>, truncated: bool)

  /** At least one line is asked for. */
  function Wanted(n: int): nat {
    if n < 1 then 1 else n
  }

  /** The last lines of what the reader yields, however many there were before. */
  method KeepTail(r: Reader, n: int) returns (tail: Result<Tail>)
    requires r.size >= 16
    modifies r
    ensures tail == if r.broken then Err
                    else var all := Lines(old(r.rest), r.size, r.eager);
                         Ok(Tail(Last(all, Wanted(n)), |all| > Wanted(n)))
  {
    var kept := Wanted(n);
    hide Whole;
    hide Shown;
    hide Lines;
    hide Last;
    NoLines(r.size, r.eager, kept);
    var ring: seq<seq<Byte>> := [];
    var total := 0;
    ghost var seen: seq<seq<Byte>> := [];
    while true
      invariant seen + Lines(r.rest, r.size, r.eager) == Lines(old(r.rest), r.size, r.eager)
      invariant total == |seen| && ring == Last(seen, kept)
      decreases |r.rest|
    {
      ghost var before := r.rest;
      LinesStep(seen, before, r.size, r.eager);
      var line := ReadLogLine(r);
      match line {
        case NoMore =>
          return Ok(Tail(ring, total > kept));
        case Broken => return Err;
        case Text(text) =>
          total := total + 1;
          LastSnoc(seen, text, kept);
          if |ring| == kept {
            ring := ring[1..];
          }
          ring := ring + [text];
          seen := seen + [text];
      }
    }
  }

  /** What is kept of a log that can be read: no more than its first 64 MiB counts. */
  function TailOf(log: seq<Byte>, n: int, eager: bool): Tail {
    var all := Lines(Capped(log), BUFFER_SIZE, AtEnd(log, eager));
    Tail(Last(all, Wanted(n)), |all| > Wanted(n))
  }

  lemma CappedReads(log: seq<Byte>)
    ensures Capped(log) == if |log| < 67108864 then log else log[..67108864]
  {
    assert |log| == 67108864 ==> log[..67108864] == log;
  }

  lemma LastReads<T>(s: seq<T>, n: nat)
    ensures Last(s, n) == s[if |s| < n then 0 else |s| - n..]
  {
    assert s[0..] == s;
  }

  lemma TailReads(log: seq<Byte>, n: int, eager: bool)
    ensures var tail := TailOf(log, n, eager);
            var read := if |log| < 67108864 then log else log[..67108864];
            var all := Lines(read, 65536, eager && |log| <= 67108864);
            var kept := if n < 1 then 1 else n;
            && tail.lines == all[if |all| < kept then 0 else |all| - kept..]
            && (tail.truncated <==> |all| > kept)
  {
    hide Lines;
    CappedReads(log);
    hide Capped;
    LastReads(Lines(Capped(log), 65536, eager && |log| <= 67108864), Wanted(n));
    hide Last;
  }

  method TailLines(log: seq<Byte>, n: int, eager: bool, broken: bool) returns (tail: Result<Tail>)
    ensures tail == if broken && |log| < MAX_LOG_BYTES then Err else Ok(TailOf(log, n, eager))
    ensures tail.Err? <==> broken && |log| < 67108864
    ensures tail.Ok? ==>
              var read := if |log| < 67108864 then log else log[..67108864];
              var all := Lines(read, 65536, eager && |log| <= 67108864);
              var kept := if n < 1 then 1 else n;
              && tail.value.lines == all[if |all| < kept then 0 else |all| - kept..]
              && (tail.value.truncated <==> |all| > kept)
  {
    TailReads(log, n, eager);
    hide Lines;
    hide Last;
    var r := new Reader(Capped(log), BUFFER_SIZE, AtEnd(log, eager), broken && |log| < MAX_LOG_BYTES);
    tail := KeepTail(r, n);
  }

  function Capped(log: seq<Byte>): seq<Byte> {
    if |log| <= MAX_LOG_BYTES then log else log[..MAX_LOG_BYTES]
  }

  /** At the cap the stream's end always takes a read of its own. */
  predicate AtEnd(log: seq<Byte>, eager: bool) {
    eager && |log| <= MAX_LOG_BYTES
  }

  // ---------------------------------------------------------------------------------------------
  // What the lines are, whatever the buffer
  // ---------------------------------------------------------------------------------------------

  /** The lines of a log with no buffer in sight: its text split at line feeds. */
  function Records(b: seq<Byte>): seq<seq<Byte>> {
    if b == [] then []
    else
      var i := LineEnd(b);
      if i < |b| then [Shown(WithoutCR(b[..i]))] + Records(b[i + 1..]) else [Shown(b)]
  }

  /** What follows the last line feed. */
  function Unended(b: seq<Byte>): (u: seq<Byte>)
    ensures LF !in u
  {
    if b == [] then []
    else
      var i := LineEnd(b);
      if i < |b| then Unended(b[i + 1..]) else b
  }

  /** Whether buffers keep coming back full until nothing is left of an unended line. */
  predicate Dropped(u: seq<Byte>, size: nat, eager: bool)
    requires size >= 16
  {
    u != [] && Whole(u, size, eager).None?
  }

  lemma {:induction false} LineEndIs(b: seq<Byte>, i: nat)
    requires i <= |b| && (i < |b| ==> b[i] == LF)
    requires forall k :: 0 <= k < i ==> b[k] != LF
    ensures LineEnd(b) == i
  {
  }

  lemma LineEndShifts(b: seq<Byte>, k: nat)
    requires k <= LineEnd(b)
    ensures LineEnd(b[k..]) == LineEnd(b) - k
  {
    LineEndIs(b[k..], LineEnd(b) - k);
  }

  lemma NoLineEnd(b: seq<Byte>)
    requires LF !in b
    ensures LineEnd(b) == |b|
  {
    assert forall k :: 0 <= k < |b| ==> b[k] in b;
  }

  lemma WithoutCRAfter(x: seq<Byte>, y: seq<Byte>)
    requires y != [] || (x != [] && x[|x| - 1] != CR)
    ensures WithoutCR(x + y) == x + WithoutCR(y)
  {
    if y == [] {
      assert x + y == x;
    } else {
      assert (x + y)[..|x + y| - 1] == x + y[..|y| - 1];
    }
  }

  /** A full buffer stops short of the line's end, and never on a carriage return that could be part of it. */
  lemma FullBuffer(b: seq<Byte>, size: nat, eager: bool)
    requires b != [] && size >= 16 && First(b, size, eager).more
    ensures var f := First(b, size, eager);
            && f.bytes == b[..f.taken] && 0 < f.taken <= LineEnd(b)
            && (f.taken < LineEnd(b) || b[f.taken - 1] != CR)
  {
    hide LineEnd;
  }

  lemma SplitAt(b: seq<Byte>, k: nat, i: nat)
    requires k <= i <= |b|
    ensures b[..i] == b[..k] + b[k..][..i - k]
  {
  }

  lemma SplitLine(b: seq<Byte>, k: nat, i: nat)
    requires 0 < k <= i < |b|
    requires k < i || b[k - 1] != CR
    ensures WithoutCR(b[..i]) == b[..k] + WithoutCR(b[k..][..i - k])
    ensures b[k..][i - k + 1..] == b[i + 1..]
  {
    SplitAt(b, k, i);
    WithoutCRAfter(b[..k], b[k..][..i - k]);
  }

  lemma EndedFirst(b: seq<Byte>, size: nat, eager: bool)
    requires size >= 16 && LineEnd(b) < |b| && !First(b, size, eager).more
    ensures First(b, size, eager) == Fragment(WithoutCR(b[..LineEnd(b)]), false, LineEnd(b) + 1)
  {
  }

  lemma WholeUnfolds(b: seq<Byte>, size: nat, eager: bool)
    requires size >= 16 && b != []
    ensures var f := First(b, size, eager);
            var l := Whole(b[f.taken..], size, eager);
            Whole(b, size, eager) ==
            if !f.more then Some(Line(f.bytes, b[f.taken..]))
            else if l.None? then None
            else Some(Line(f.bytes + l.value.bytes, l.value.rest))
  {
    hide First;
  }

  /** The line that starts b, as its buffers leave it. */
  function EndedAt(b: seq<Byte>, i: nat): Line
    requires i < |b|
  {
    Line(WithoutCR(b[..i]), b[i + 1..])
  }

  lemma EndedMore(b: seq<Byte>, size: nat, eager: bool)
    requires size >= 16 && LineEnd(b) < |b| && First(b, size, eager).more
    ensures var k := First(b, size, eager).taken;
            && LineEnd(b[k..]) == LineEnd(b) - k < |b[k..]|
            && EndedAt(b, LineEnd(b)).rest == EndedAt(b[k..], LineEnd(b) - k).rest
            && EndedAt(b, LineEnd(b)).bytes == First(b, size, eager).bytes + EndedAt(b[k..], LineEnd(b) - k).bytes
  {
    FullBuffer(b, size, eager);
    hide First;
    LineEndShifts(b, First(b, size, eager).taken);
    EndedShift(b, First(b, size, eager).taken, LineEnd(b));
    hide LineEnd;
    hide EndedAt;
  }

  lemma EndedShift(b: seq<Byte>, k: nat, i: nat)
    requires 0 < k <= i < |b|
    requires k < i || b[k - 1] != CR
    ensures EndedAt(b, i).rest == EndedAt(b[k..], i - k).rest
    ensures EndedAt(b, i).bytes == b[..k] + EndedAt(b[k..], i - k).bytes
  {
    SplitLine(b, k, i);
    hide WithoutCR;
  }

  /** The carriage return before a line feed is dropped even when a buffer ends between the two. */
  lemma {:induction false} EndedLine(b: seq<Byte>, size: nat, eager: bool)
    requires size >= 16 && LineEnd(b) < |b|
    ensures Whole(b, size, eager) == Some(EndedAt(b, LineEnd(b)))
    decreases |b|
  {
    WholeUnfolds(b, size, eager);
    var f := First(b, size, eager);
    hide Whole;
    if f.more {
      EndedMore(b, size, eager);
      hide First;
      hide LineEnd;
      hide EndedAt;
      EndedLine(b[f.taken..], size, eager);
    } else {
      EndedFirst(b, size, eager);
    }
  }

  lemma {:induction false} UnendedLine(b: seq<Byte>, size: nat, eager: bool)
    requires size >= 16 && b != [] && LineEnd(b) == |b|
    ensures Whole(b, size, eager).Some? ==> Whole(b, size, eager) == Some(Line(b, []))
    decreases |b|
  {
    var f := First(b, size, eager);
    if f.more {
      FullBuffer(b, size, eager);
      hide First;
      LineEndShifts(b, f.taken);
      if b[f.taken..] != [] {
        UnendedLine(b[f.taken..], size, eager);
        assert b[..f.taken] + b[f.taken..] == b;
      }
    } else {
      assert b[..|b|] == b;
    }
  }

  /** All of s, or all but its last element. */
  function Surviving<T>(s: seq<T>, dropped: bool): seq<T> {
    if dropped && s != [] then s[..|s| - 1] else s
  }

  lemma SurvivingAfter<T>(x: T, s: seq<T>, dropped: bool)
    requires dropped ==> s != []
    ensures Surviving([x] + s, dropped) == [x] + Surviving(s, dropped)
  {
  }

  function FirstShown(b: seq<Byte>): seq<Byte>
    requires LineEnd(b) < |b|
  {
    Shown(WithoutCR(b[..LineEnd(b)]))
  }

  lemma FirstRecord(b: seq<Byte>, rest: seq<Byte>, size: nat, eager: bool)
    requires size >= 16 && LineEnd(b) < |b| && rest == b[LineEnd(b) + 1..]
    ensures && Lines(b, size, eager) == [FirstShown(b)] + Lines(rest, size, eager)
            && Records(b) == [FirstShown(b)] + Records(rest)
            && Unended(b) == Unended(rest)
  {
    EndedLine(b, size, eager);
    hide Whole;
    hide Shown;
    hide WithoutCR;
    hide LineEnd;
  }

  lemma LastRecord(b: seq<Byte>, size: nat, eager: bool)
    requires size >= 16 && b != [] && LineEnd(b) == |b|
    ensures Records(b) == [Shown(b)] && Unended(b) == b
    ensures Lines(b, size, eager) == if Dropped(b, size, eager) then [] else [Shown(b)]
  {
    UnendedLine(b, size, eager);
    NoLines(size, eager, 0);
    hide Shown;
    hide LineEnd;
    hide First;
  }

  predicate Agree(b: seq<Byte>, size: nat, eager: bool)
    requires size >= 16
  {
    && (Dropped(Unended(b), size, eager) ==> Records(b) != [])
    && Lines(b, size, eager) == Surviving(Records(b), Dropped(Unended(b), size, eager))
  }

  lemma AgreeAfter(b: seq<Byte>, rest: seq<Byte>, size: nat, eager: bool)
    requires size >= 16 && LineEnd(b) < |b| && rest == b[LineEnd(b) + 1..] && Agree(rest, size, eager)
    ensures Agree(b, size, eager)
  {
    hide *;
    FirstRecord(b, rest, size, eager);
    AgreeFrom(b, rest, FirstShown(b), size, eager);
  }

  lemma AgreeFrom(b: seq<Byte>, rest: seq<Byte>, first: seq<Byte>, size: nat, eager: bool)
    requires size >= 16 && Agree(rest, size, eager)
    requires Lines(b, size, eager) == [first] + Lines(rest, size, eager)
    requires Records(b) == [first] + Records(rest) && Unended(b) == Unended(rest)
    ensures Agree(b, size, eager)
  {
    hide Dropped;
    hide Lines;
    hide Records;
    hide Unended;
    SurvivingAfter(first, Records(rest), Dropped(Unended(rest), size, eager));
    hide Surviving;
  }

  lemma {:induction false} AlwaysAgree(b: seq<Byte>, size: nat, eager: bool)
    requires size >= 16
    ensures Agree(b, size, eager)
    decreases |b|
  {
    if b == [] {
    } else if LineEnd(b) < |b| {
      hide Agree;
      var rest := b[LineEnd(b) + 1..];
      AlwaysAgree(rest, size, eager);
      AgreeAfter(b, rest, size, eager);
    } else {
      LastRecord(b, size, eager);
      hide Lines;
      hide Records;
      hide Unended;
    }
  }

  /**
  The lines read are the log split at its line feeds, whatever the buffer's size; an unended last
  line goes missing exactly when it fills its last buffer to the brim.
  */
  lemma LinesAreRecords(b: seq<Byte>, size: nat, eager: bool)
    requires size >= 16
    ensures Dropped(Unended(b), size, eager) ==> Records(b) != []
    ensures Lines(b, size, eager) ==
            if Dropped(Unended(b), size, eager) then Records(b)[..|Records(b)| - 1] else Records(b)
  {
    AlwaysAgree(b, size, eager);
    hide Lines;
    hide Records;
    hide Unended;
    hide Dropped;
  }

  lemma {:induction false} EndedLog(b: seq<Byte>)
    requires b != [] && b[|b| - 1] == LF
    ensures Unended(b) == []
    decreases |b|
  {
    var i := LineEnd(b);
    assert i < |b|;
    if i + 1 < |b| {
      EndedLog(b[i + 1..]);
    } else {
      assert b[i + 1..] == [];
    }
  }

  /** A log within the cap that ends in a line feed is read in full. */
  lemma EndedLogInFull(log: seq<Byte>, eager: bool)
    requires 0 < |log| <= MAX_LOG_BYTES && log[|log| - 1] == LF
    ensures Lines(Capped(log), BUFFER_SIZE, AtEnd(log, eager)) == Records(log)
  {
    EndedLog(log);
    hide Unended;
    LinesAreRecords(log, BUFFER_SIZE, AtEnd(log, eager));
    hide Lines;
    hide Records;
  }

  lemma WholeStep(u: seq<Byte>, eager: bool)
    requires LF !in u && CR !in u && u != []
    ensures |u| < BUFFER_SIZE || (|u| == BUFFER_SIZE && eager) ==> !Dropped(u, BUFFER_SIZE, eager)
    ensures |u| > BUFFER_SIZE ==>
              Dropped(u, BUFFER_SIZE, eager) == Dropped(u[BUFFER_SIZE..], BUFFER_SIZE, eager)
    ensures |u| == BUFFER_SIZE && !eager ==> Dropped(u, BUFFER_SIZE, eager)
  {
    NoLineEnd(u);
    hide LineEnd;
    if |u| >= BUFFER_SIZE {
      assert u[BUFFER_SIZE - 1] in u;
      assert |u[BUFFER_SIZE..]| == |u| - BUFFER_SIZE;
    }
  }

  /** Without carriage returns, the dropped last lines are those whole buffers long. */
  lemma {:induction false} DroppedLengths(u: seq<Byte>, eager: bool)
    requires LF !in u && CR !in u
    ensures Dropped(u, BUFFER_SIZE, eager) <==> !eager && u != [] && |u| % BUFFER_SIZE == 0
    decreases |u|
  {
    if u != [] {
      WholeStep(u, eager);
      hide Dropped;
      if |u| > BUFFER_SIZE {
        DroppedLengths(u[BUFFER_SIZE..], eager);
      }
    }
  }

  // ---------------------------------------------------------------------------------------------
  // Which last lines are dropped, carriage returns and all
  // ---------------------------------------------------------------------------------------------

  function Flat(pieces: seq<seq<Byte>>): seq<Byte> {
    if pieces == [] then [] else pieces[0] + Flat(pieces[1..])
  }

  /**
  Buffers full to the brim, the last one too. A buffer whose last byte is a carriage return leaves it
  to the next one.
  */
  predicate Brimful(pieces: seq<seq<Byte>>, size: nat) {
    && pieces != [] && pieces[0] != []
    && (if |pieces| == 1 then |pieces[0]| == size && pieces[0][size - 1] != CR
        else
          && ((|pieces[0]| == size && pieces[0][size - 1] != CR) ||
              (|pieces[0]| == size - 1 && pieces[1] != [] && pieces[1][0] == CR))
          && Brimful(pieces[1..], size))
  }

  lemma FirstOfUnended(u: seq<Byte>, size: nat)
    requires size >= 16 && LF !in u && u != []
    ensures var f := First(u, size, false);
            && f.bytes == u[..f.taken]
            && (f.more <==> |u| >= size)
            && (f.more ==> f.taken == if u[size - 1] == CR then size - 1 else size)
  {
    NoLineEnd(u);
    hide LineEnd;
    assert u[..|u|] == u;
  }

  lemma DroppedStep(u: seq<Byte>, size: nat)
    requires size >= 16 && LF !in u && u != []
    ensures Dropped(u, size, false) <==>
            |u| >= size && var k := if u[size - 1] == CR then size - 1 else size;
                           u[k..] == [] || Dropped(u[k..], size, false)
  {
    FirstOfUnended(u, size);
    hide First;
  }

  lemma {:induction false} BrimfulDropped(pieces: seq<seq<Byte>>, size: nat)
    requires size >= 16 && Brimful(pieces, size) && LF !in Flat(pieces)
    ensures Flat(pieces) != [] && Dropped(Flat(pieces), size, false)
    decreases |pieces|
  {
    var u, rest := Flat(pieces), Flat(pieces[1..]);
    assert u == pieces[0] + rest && forall b :: b in rest ==> b in u;
    DroppedStep(u, size);
    hide Dropped;
    if |pieces| == 1 {
      assert rest == [] && u == pieces[0] && u[size..] == [];
    } else {
      BrimfulDropped(pieces[1..], size);
      hide Brimful;
      assert rest == pieces[1] + Flat(pieces[1..][1..]);
      assert u[|pieces[0]|..] == rest;
    }
  }

  lemma {:induction false} DroppedBrimful(u: seq<Byte>, size: nat) returns (pieces: seq<seq<Byte>>)
    requires size >= 16 && LF !in u && Dropped(u, size, false)
    ensures Brimful(pieces, size) && Flat(pieces) == u
    decreases |u|
  {
    DroppedStep(u, size);
    var k := if u[size - 1] == CR then size - 1 else size;
    var rest := u[k..];
    assert u == u[..k] + rest;
    if rest == [] {
      pieces := [u[..k]];
      assert Flat(pieces[1..]) == [] && Flat(pieces) == u[..k] + [];
    } else {
      var more := DroppedBrimful(rest, size);
      pieces := [u[..k]] + more;
      hide Dropped;
      hide Flat;
      hide Brimful;
      BrimfulMore(u, size, more);
    }
  }

  lemma BrimfulMore(u: seq<Byte>, size: nat, more: seq<seq<Byte>>)
    requires size >= 16 && |u| >= size
    requires var k := if u[size - 1] == CR then size - 1 else size;
             Brimful(more, size) && Flat(more) == u[k..] && u[k..] != []
    ensures var k := if u[size - 1] == CR then size - 1 else size;
            Brimful([u[..k]] + more, size) && Flat([u[..k]] + more) == u
  {
    var k := if u[size - 1] == CR then size - 1 else size;
    var pieces := [u[..k]] + more;
    assert pieces[1..] == more;
    assert more[0][0] == Flat(more)[0];
    assert u == u[..k] + u[k..];
  }

  /**
  Exactly which unended last lines go missing: none where the stream's end comes with its last bytes,
  else those that fill every buffer to the brim.
  */
  lemma DroppedLines(u: seq<Byte>, size: nat, eager: bool)
    requires size >= 16 && LF !in u
    ensures Dropped(u, size, eager) <==> !eager && exists pieces :: Brimful(pieces, size) && Flat(pieces) == u
  {
    if eager {
      EagerKeeps(u, size);
    } else {
      if Dropped(u, size, false) {
        var pieces := DroppedBrimful(u, size);
      }
      if pieces :| Brimful(pieces, size) && Flat(pieces) == u {
        BrimfulDropped(pieces, size);
      }
    }
  }

  lemma {:induction false} EagerKeeps(u: seq<Byte>, size: nat)
    requires size >= 16 && LF !in u
    ensures !Dropped(u, size, true)
    decreases |u|
  {
    if u != [] {
      NoLineEnd(u);
      hide LineEnd;
      var f := First(u, size, true);
      if f.more {
        assert |u[f.taken..]| > 0;
        EagerKeeps(u[f.taken..], size);
      }
    }
  }

  // ---------------------------------------------------------------------------------------------
  // What the flag says
  // ---------------------------------------------------------------------------------------------

  /** Truncated says of a tail that the log has more lines than it holds. */
  predicate FlagHolds(log: seq<Byte>, tail: Tail) {
    tail.truncated <==> |Records(log)| > |tail.lines|
  }

  /** Exactly when it is right within the cap: no last line was dropped, or there are more others than wanted. */
  lemma FlagWithinCap(log: seq<Byte>, n: int, eager: bool)
    requires |log| <= MAX_LOG_BYTES
    ensures FlagHolds(log, TailOf(log, n, eager)) <==>
            !Dropped(Unended(log), BUFFER_SIZE, AtEnd(log, eager)) || |Records(log)| > Wanted(n) + 1
  {
    LinesAreRecords(log, BUFFER_SIZE, AtEnd(log, eager));
    hide Lines;
    hide Records;
    hide Unended;
    hide Dropped;
  }

  lemma EndedCount(b: seq<Byte>, i: nat, rest: seq<Byte>)
    requires i < |b| && LineEnd(b) == i && rest == b[i + 1..]
    ensures |Records(b)| == 1 + |Records(rest)| && Unended(b) == Unended(rest)
  {
    hide Shown;
    hide WithoutCR;
    hide LineEnd;
  }

  lemma UnendedCount(b: seq<Byte>)
    requires b != [] && LineEnd(b) == |b|
    ensures |Records(b)| == 1 && Unended(b) == b
  {
    hide Shown;
    hide LineEnd;
  }

  /** The rest of an unended line joins on to it. */
  lemma JoinedLine(b: seq<Byte>, c: seq<Byte>)
    requires c != [] && b != [] && LineEnd(b) == |b|
    ensures |Records(b + c)| == |Records(c)|
  {
    var i := LineEnd(c);
    LineEndIs(b + c, |b| + i);
    hide LineEnd;
    hide Records;
    hide Unended;
    if i < |c| {
      assert (b + c)[|b| + i + 1..] == c[i + 1..];
      EndedCount(b + c, |b| + i, c[i + 1..]);
      EndedCount(c, i, c[i + 1..]);
    } else {
      UnendedCount(b + c);
      UnendedCount(c);
    }
  }

  lemma {:induction false} RecordsJoin(b: seq<Byte>, c: seq<Byte>)
    requires c != []
    ensures |Records(b + c)| == |Records(b)| + |Records(c)| - if Unended(b) != [] then 1 else 0
    decreases |b|
  {
    var i := LineEnd(b);
    if b == [] {
      assert b + c == c;
    } else if i < |b| {
      var rest := b[i + 1..];
      LineEndIs(b + c, i);
      hide LineEnd;
      hide Records;
      hide Unended;
      assert (b + c)[i + 1..] == rest + c;
      EndedCount(b, i, rest);
      EndedCount(b + c, i, rest + c);
      RecordsJoin(rest, c);
    } else {
      UnendedCount(b);
      hide LineEnd;
      hide Records;
      hide Unended;
      JoinedLine(b, c);
    }
  }

  lemma OneRecord(c: seq<Byte>)
    requires c != []
    ensures |Records(c)| >= 1 && (|Records(c)| == 1 <==> LineEnd(c) + 1 >= |c|)
  {
    hide Shown;
    hide WithoutCR;
    var i := LineEnd(c);
    hide LineEnd;
    if i + 1 < |c| {
      assert c[i + 1..] != [] && |Records(c[i + 1..])| >= 1;
    } else if i < |c| {
      assert c[i + 1..] == [];
    }
  }

  /**
  Past the cap the flag is set exactly when enough lines were read before it, and it is right exactly
  then or when nothing more than the rest of one line, itself read in part, lies past the cap.
  */
  lemma FlagPastCap(log: seq<Byte>, n: int, eager: bool)
    requires |log| > MAX_LOG_BYTES
    ensures var tail, u, rest := TailOf(log, n, eager), Unended(Capped(log)), log[MAX_LOG_BYTES..];
            var dropped := Dropped(u, BUFFER_SIZE, false);
            var enough := |Records(Capped(log))| > Wanted(n) + if dropped then 1 else 0;
            && (tail.truncated <==> enough)
            && (FlagHolds(log, tail) <==> enough || (u != [] && !dropped && LineEnd(rest) + 1 >= |rest|))
  {
    var capped, rest := Capped(log), log[MAX_LOG_BYTES..];
    assert capped + rest == log;
    LinesAreRecords(capped, BUFFER_SIZE, false);
    RecordsJoin(capped, rest);
    OneRecord(rest);
    hide Lines;
    hide Records;
    hide Unended;
    hide Dropped;
    hide LineEnd;
  }

  /**
  So a log whose first 64 MiB is one line without a carriage return is shown as empty, and the flag
  says that this is all of it.
  */
  lemma LongLineVanishes(log: seq<Byte>, n: int, eager: bool)
    requires |log| > MAX_LOG_BYTES && LF !in Capped(log) && CR !in Capped(log)
    ensures TailOf(log, n, eager) == Tail([], false) && |Records(log)| > 0
    ensures !FlagHolds(log, TailOf(log, n, eager))
  {
    var b := Capped(log);
    assert |b| % BUFFER_SIZE == 0;
    NoLineEnd(b);
    DroppedLengths(b, false);
    LinesAreRecords(b, BUFFER_SIZE, false);
    OneRecord(log);
    hide LineEnd;
    hide Lines;
    hide Whole;
    hide Shown;
    assert Unended(b) == b;
    assert |Records(b)| == 1;
  }

  // ---------------------------------------------------------------------------------------------
  // The same in bytes
  // ---------------------------------------------------------------------------------------------

  /** What is shown of a line: no CR at its end, and no more than 4096 bytes, less one if they are not UTF-8. */
  lemma ShownReads(b: seq<Byte>)
    ensures |b| <= 4096 && b != [] && b[|b| - 1] == 13 ==> Shown(b) == b[..|b| - 1]
    ensures |b| < 4096 && (b == [] || b[|b| - 1] != 13) ==> Shown(b) == b
    ensures |b| >= 4096 && b[4095] == 13 ==> Shown(b) == b[..4095]
    ensures |b| >= 4096 && b[4095] != 13 && ValidUtf8(b[..4096]) ==> Shown(b) == b[..4096]
    ensures |b| >= 4096 && b[4095] != 13 && !ValidUtf8(b[..4096]) ==> Shown(b) == b[..4095]
  {
    assert |b| == 4096 ==> b[..4096] == b;
    hide ValidUtf8;
  }

  /** Lines end at line feeds, and lose one CR before it; what follows the last one is a line if there is any of it. */
  lemma RecordsRead(line: seq<Byte>, rest: seq<Byte>)
    requires 10 !in line
    ensures Records([]) == []
    ensures line != [] ==> Records(line) == [Shown(line)]
    ensures Records(line + [10] + rest) ==
            [Shown(if line != [] && line[|line| - 1] == 13 then line[..|line| - 1] else line)] + Records(rest)
  {
    var b := line + [10] + rest;
    NoLineEnd(line);
    assert forall k :: 0 <= k < |line| ==> b[k] == line[k] && line[k] in line;
    LineEndIs(b, |line|);
    assert b[..|line|] == line && b[|line| + 1..] == rest;
    hide LineEnd;
    hide Shown;
  }

  /** A Unicode scalar value. */
  predicate IsScalar(c: nat) {
    c < 0xD800 || 0xE000 <= c < 0x110000
  }

  /** Its bytes, by the table of section 3 of RFC 3629. */
  function Encoded(c: nat): (b: seq<Byte>)
    requires IsScalar(c)
    ensures 1 <= |b| <= 4
  {
    if c < 0x80 then [c]
    else if c < 0x800 then [0xC0 + c / 0x40, 0x80 + c % 0x40]
    else if c < 0x10000 then [0xE0 + c / 0x1000, 0x80 + c / 0x40 % 0x40, 0x80 + c % 0x40]
    else [0xF0 + c / 0x40000, 0x80 + c / 0x1000 % 0x40, 0x80 + c / 0x40 % 0x40, 0x80 + c % 0x40]
  }

  /** The bytes of a scalar are a rune, whatever follows them. */
  lemma EncodedIsRune(c: nat, rest: seq<Byte>)
    requires IsScalar(c)
    ensures RuneLength(Encoded(c) + rest) == |Encoded(c)|
  {
    EncodedFits(c);
    hide Encoded;
    hide Width;
    hide SecondFits;
    hide Continues;
  }

  lemma EncodedFits(c: nat)
    requires IsScalar(c)
    ensures var e := Encoded(c);
            && Width(e[0]) == |e|
            && (|e| >= 2 ==> SecondFits(e[0], e[1]))
            && (|e| >= 3 ==> Continues(e[2])) && (|e| >= 4 ==> Continues(e[3]))
  {
    var q, r, t := c / 0x40, c / 0x1000, c / 0x40000;
    if c < 0x800 {
      assert c >= 0x80 ==> 2 <= q < 0x20;
    } else if c < 0x10000 {
      assert r < 0x10 && q == r * 0x40 + q % 0x40;
      assert r == 0 ==> q % 0x40 >= 0x20;
      assert r == 0xD ==> q % 0x40 < 0x20;
    } else {
      assert t < 5 && r == t * 0x40 + r % 0x40;
      assert t == 0 ==> r % 0x40 >= 0x10;
      assert t == 4 ==> r % 0x40 < 0x10;
    }
  }

  lemma TwoBytes(b0: int, b1: int)
    requires 0xC2 <= b0 <= 0xDF && 0x80 <= b1 <= 0xBF
    ensures var c := (b0 - 0xC0) * 0x40 + (b1 - 0x80); 0x80 <= c < 0x800 && Encoded(c) == [b0, b1]
  {
  }

  /** Six bits each, from the lowest on. */
  lemma Places(x0: int, x1: int, x2: int, x3: int)
    requires 0 <= x0 && 0 <= x1 < 0x40 && 0 <= x2 < 0x40 && 0 <= x3 < 0x40
    ensures var c := x0 * 0x40000 + x1 * 0x1000 + x2 * 0x40 + x3;
            c / 0x40000 == x0 && c / 0x1000 % 0x40 == x1 && c / 0x40 % 0x40 == x2 && c % 0x40 == x3
  {
    var c := x0 * 0x40000 + x1 * 0x1000 + x2 * 0x40 + x3;
    assert c / 0x40 == x0 * 0x1000 + x1 * 0x40 + x2;
    assert c / 0x1000 == x0 * 0x40 + x1;
  }

  lemma ThreeBytes(b0: int, b1: int, b2: int)
    requires 0xE0 <= b0 <= 0xEF && 0x80 <= b1 <= 0xBF && 0x80 <= b2 <= 0xBF
    requires (b0 == 0xE0 ==> b1 >= 0xA0) && (b0 == 0xED ==> b1 <= 0x9F)
    ensures var c := (b0 - 0xE0) * 0x1000 + (b1 - 0x80) * 0x40 + (b2 - 0x80);
            0x800 <= c < 0x10000 && IsScalar(c) && Encoded(c) == [b0, b1, b2]
  {
    var c := (b0 - 0xE0) * 0x1000 + (b1 - 0x80) * 0x40 + (b2 - 0x80);
    Places(0, b0 - 0xE0, b1 - 0x80, b2 - 0x80);
    assert c / 0x1000 == b0 - 0xE0;
  }

  lemma FourBytes(b0: int, b1: int, b2: int, b3: int)
    requires 0xF0 <= b0 <= 0xF4 && 0x80 <= b1 <= 0xBF && 0x80 <= b2 <= 0xBF && 0x80 <= b3 <= 0xBF
    requires (b0 == 0xF0 ==> b1 >= 0x90) && (b0 == 0xF4 ==> b1 <= 0x8F)
    ensures var c := (b0 - 0xF0) * 0x40000 + (b1 - 0x80) * 0x1000 + (b2 - 0x80) * 0x40 + (b3 - 0x80);
            0x10000 <= c < 0x110000 && Encoded(c) == [b0, b1, b2, b3]
  {
    Places(b0 - 0xF0, b1 - 0x80, b2 - 0x80, b3 - 0x80);
  }

  /** And every rune is the bytes of a scalar. */
  lemma RuneIsEncoded(b: seq<Byte>)
    requires b != [] && RuneLength(b) > 0
    ensures exists c :: IsScalar(c) && b[..RuneLength(b)] == Encoded(c)
  {
    var w := RuneLength(b);
    if w == 1 {
      assert b[..1] == [b[0]] == Encoded(b[0]);
    } else if w == 2 {
      TwoBytes(b[0], b[1]);
      assert b[..2] == [b[0], b[1]];
    } else if w == 3 {
      ThreeBytes(b[0], b[1], b[2]);
      assert b[..3] == [b[0], b[1], b[2]];
    } else {
      FourBytes(b[0], b[1], b[2], b[3]);
      assert b[..4] == [b[0], b[1], b[2], b[3]];
    }
    hide Encoded;
  }
}
