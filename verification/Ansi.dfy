/**
CI log lines to styled text: escape sequences are taken out of each line, and the Select Graphic
Rendition ones set the colour and weight of the text after them, on that line and the next ones.
Sections 5.4 and 8.3.117 of ECMA-48 name the sequences.
*/
module Ansi {
  import opened Common

  /** A UTF-16 code unit, which is what a JavaScript string and a pattern without the u flag see. */
  type Unit = u: int | 0 <= u < 0x1_0000

  type Text = seq<Unit>

  const ESC: Unit := 0x1b
  const BEL: Unit := 0x07
  const TAB: Unit := 0x09
  const OPEN: Unit := 0x5b
  const CLOSE: Unit := 0x5d
  const BACKSLASH: Unit := 0x5c
  const LETTER_M: Unit := 0x6d
  const SEMICOLON: Unit := 0x3b
  const COLON: Unit := 0x3a

  datatype Hue = Black | Red | Green | Yellow | Blue | Magenta | Cyan | White

  datatype Colour = Base(hue: Hue) | Bright(hue: Hue)

  const HUES: seq<Hue> := [Black, Red, Green, Yellow, Blue, Magenta, Cyan, White]

  datatype Style = Style(fg: Option<Colour>, bold: bool)

  const PLAIN: Style := Style(None, false)

  datatype Segment = Segment(text: Text, fg: Option<Colour>, bold: bool)

  // ---------------------------------------------------------------------------------------------
  // Escape sequences
  // ---------------------------------------------------------------------------------------------

  predicate IsParameter(u: Unit) {
    0x30 <= u <= 0x3f
  }

  predicate IsIntermediate(u: Unit) {
    0x20 <= u <= 0x2f
  }

  predicate IsFinal(u: Unit) {
    0x40 <= u <= 0x7e
  }

  function Parameters(s: Text): (n: nat)
    ensures n <= |s| && (n < |s| ==> !IsParameter(s[n]))
    ensures forall k :: 0 <= k < n ==> IsParameter(s[k])
  {
    if s == [] || !IsParameter(s[0]) then 0 else 1 + Parameters(s[1..])
  }

  function Intermediates(s: Text): (n: nat)
    ensures n <= |s| && (n < |s| ==> !IsIntermediate(s[n]))
    ensures forall k :: 0 <= k < n ==> IsIntermediate(s[k])
  {
    if s == [] || !IsIntermediate(s[0]) then 0 else 1 + Intermediates(s[1..])
  }

  /** The length of the control sequence s starts with; 0 when it starts with none. */
  function ControlLength(s: Text): (n: nat)
    ensures n <= |s|
  {
    if |s| < 2 || s[0] != ESC || s[1] != OPEN then 0
    else
      var p := 2 + Parameters(s[2..]);
      var i := p + Intermediates(s[p..]);
      if i < |s| && IsFinal(s[i]) then i + 1 else 0
  }

  function Payload(s: Text): (n: nat)
    ensures n <= |s|
  {
    if s == [] || s[0] == BEL || s[0] == ESC then 0 else 1 + Payload(s[1..])
  }

  /** An operating system command, with its terminator if it has one. */
  function CommandLength(s: Text): (n: nat)
    ensures n <= |s|
  {
    if |s| < 2 || s[0] != ESC || s[1] != CLOSE then 0
    else
      var p := 2 + Payload(s[2..]);
      if p < |s| && s[p] == BEL then p + 1
      else if p + 1 < |s| && s[p] == ESC && s[p + 1] == BACKSLASH then p + 2
      else p
  }

  /** The first alternative that fits: a control sequence, a command, or an escape and one unit. */
  function EscapeLength(s: Text): (n: nat)
    ensures n <= |s|
  {
    if ControlLength(s) > 0 then ControlLength(s)
    else if CommandLength(s) > 0 then CommandLength(s)
    else if |s| >= 2 && s[0] == ESC then 2
    else 0
  }

  /** The parameters of the SGR sequence s starts with, if it does. */
  function SgrParameters(s: Text): Option<Text> {
    if ControlLength(s) == 0 then None
    else
      var p := 2 + Parameters(s[2..]);
      if ControlLength(s) == p + 1 && s[p] == LETTER_M then Some(s[2..p]) else None
  }

  /** The control sequences as section 5.4 of ECMA-48 builds them. */
  ghost predicate IsControlSequence(t: Text) {
    exists p: nat, i: nat :: Built(t, p, i)
  }

  predicate Built(t: Text, p: nat, i: nat) {
    && |t| == p + i + 3 && t[0] == 0x1b && t[1] == 0x5b
    && (forall k :: 2 <= k < 2 + p ==> 0x30 <= t[k] <= 0x3f)
    && (forall k :: 2 + p <= k < 2 + p + i ==> 0x20 <= t[k] <= 0x2f)
    && 0x40 <= t[|t| - 1] <= 0x7e
  }

  lemma {:induction false} ParametersAre(s: Text, n: nat)
    requires n <= |s| && (n < |s| ==> !IsParameter(s[n]))
    requires forall k :: 0 <= k < n ==> IsParameter(s[k])
    ensures Parameters(s) == n
  {
  }

  lemma {:induction false} IntermediatesAre(s: Text, n: nat)
    requires n <= |s| && (n < |s| ==> !IsIntermediate(s[n]))
    requires forall k :: 0 <= k < n ==> IsIntermediate(s[k])
    ensures Intermediates(s) == n
  {
  }

  lemma BuiltIsFound(s: Text, n: nat, p: nat, i: nat)
    requires n <= |s| && Built(s[..n], p, i)
    ensures ControlLength(s) == n
  {
    var t := s[..n];
    assert forall k :: 0 <= k < n ==> t[k] == s[k];
    assert s[2 + p] == t[2 + p];
    ParametersAre(s[2..], p);
    IntermediatesAre(s[2 + p..], i);
  }

  lemma FoundIsBuilt(s: Text)
    requires ControlLength(s) > 0
    ensures var p := Parameters(s[2..]);
            ControlLength(s) >= p + 3 && Built(s[..ControlLength(s)], p, ControlLength(s) - p - 3)
  {
    var p := Parameters(s[2..]);
    var i := Intermediates(s[2 + p..]);
    var t := s[..ControlLength(s)];
    forall k | 2 <= k < 2 + p
      ensures IsParameter(t[k])
    {
      assert t[k] == s[2..][k - 2];
    }
    forall k | 2 + p <= k < 2 + p + i
      ensures IsIntermediate(t[k])
    {
      assert t[k] == s[2 + p..][k - 2 - p];
    }
  }

  /** The scan finds a control sequence exactly where one stands, and no other length will do. */
  lemma ControlSequences(s: Text, n: nat)
    requires 0 < n <= |s|
    ensures ControlLength(s) == n <==> IsControlSequence(s[..n])
  {
    if ControlLength(s) == n {
      FoundIsBuilt(s);
    }
    if IsControlSequence(s[..n]) {
      var p: nat, i: nat :| Built(s[..n], p, i);
      BuiltIsFound(s, n, p, i);
    }
  }

  /** Operating system commands: their payload, then no terminator, BEL, or ESC and a backslash. */
  ghost predicate IsCommand(t: Text) {
    exists p: nat :: Commanded(t, p)
  }

  predicate Commanded(t: Text, p: nat) {
    && |t| >= p + 2 && t[0] == 0x1b && t[1] == 0x5d
    && (forall k :: 2 <= k < 2 + p ==> t[k] != 0x07 && t[k] != 0x1b)
    && (t[2 + p..] == [] || t[2 + p..] == [0x07] || t[2 + p..] == [0x1b, 0x5c])
  }

  lemma {:induction false} PayloadIs(s: Text)
    ensures var n := Payload(s);
            && (n < |s| ==> s[n] == BEL || s[n] == ESC)
            && forall k :: 0 <= k < n ==> s[k] != BEL && s[k] != ESC
  {
    if s != [] && s[0] != BEL && s[0] != ESC {
      PayloadIs(s[1..]);
    }
  }

  lemma CommandFound(s: Text)
    requires CommandLength(s) > 0
    ensures Commanded(s[..CommandLength(s)], Payload(s[2..]))
  {
    var p := Payload(s[2..]);
    var t := s[..CommandLength(s)];
    PayloadIs(s[2..]);
    hide Payload;
    forall k | 2 <= k < 2 + p
      ensures t[k] != BEL && t[k] != ESC
    {
      assert t[k] == s[2..][k - 2];
    }
    assert t[2 + p..] == s[2 + p..CommandLength(s)];
  }

  lemma CommandFits(s: Text, m: nat, p: nat)
    requires m <= |s| && Commanded(s[..m], p)
    ensures m <= CommandLength(s)
  {
    var t, n := s[..m], Payload(s[2..]);
    PayloadIs(s[2..]);
    hide Payload;
    assert s[0] == t[0] && s[1] == t[1];
    assert forall k :: 2 <= k < m ==> t[k] == s[k] && s[k] == s[2..][k - 2];
    assert m > p + 2 ==> t[p + 2] == t[p + 2..][0];
    assert m > p + 3 ==> t[p + 3] == t[p + 2..][1];
    assert p <= n && (p < n ==> m == p + 2);
  }

  /** The scan takes the longest command that stands there. */
  lemma Commands(s: Text, n: nat)
    requires 0 < n <= |s|
    ensures CommandLength(s) == n <==> IsCommand(s[..n]) && forall m: nat :: n < m <= |s| ==> !IsCommand(s[..m])
  {
    forall m: nat | m <= |s| && IsCommand(s[..m])
      ensures m <= CommandLength(s)
    {
      var p: nat :| Commanded(s[..m], p);
      CommandFits(s, m, p);
    }
    if CommandLength(s) > 0 {
      CommandFound(s);
      assert IsCommand(s[..CommandLength(s)]);
    }
    hide CommandLength;
    hide Commanded;
  }

  // ---------------------------------------------------------------------------------------------
  // Select Graphic Rendition
  // ---------------------------------------------------------------------------------------------

  /** A parameter's number: nothing counts as 0, and a private-use mark makes it no number. */
  function Number(digits: Text): Option<nat> {
    if digits == [] then Some(0)
    else
      var last := digits[|digits| - 1];
      var front := Number(digits[..|digits| - 1]);
      if front.None? || !(0x30 <= last <= 0x39) then None else Some(10 * front.value + (last - 0x30))
  }

  predicate Separates(u: Unit) {
    u == SEMICOLON || u == COLON
  }

  function Codes(params: Text): (codes: seq<Option<nat>>)
    ensures codes != []
  {
    CodesFrom([], params)
  }

  function CodesFrom(piece: Text, rest: Text): (codes: seq<Option<nat>>)
    ensures codes != []
    decreases |rest|
  {
    if rest == [] then [Number(piece)]
    else if Separates(rest[0]) then [Number(piece)] + CodesFrom([], rest[1..])
    else CodesFrom(piece + [rest[0]], rest[1..])
  }

  /** What one code does to the style. */
  function WithCode(style: Style, code: Option<nat>): Style {
    if code.None? then style
    else if code.value == 0 then PLAIN
    else if code.value == 1 then style.(bold := true)
    else if code.value == 22 then style.(bold := false)
    else if 30 <= code.value <= 37 then style.(fg := Some(Base(HUES[code.value - 30])))
    else if code.value == 39 then style.(fg := None)
    else if 90 <= code.value <= 97 then style.(fg := Some(Bright(HUES[code.value - 90])))
    else style
  }

  predicate Extends(code: Option<nat>) {
    code == Some(38) || code == Some(48)
  }

  /** How many codes the first one takes up with its operands. */
  function Group(codes: seq<Option<nat>>): (n: nat)
    requires codes != []
    ensures 0 < n <= |codes|
  {
    if !Extends(codes[0]) || |codes| == 1 then 1
    else if codes[1] == Some(5) then (if |codes| < 3 then |codes| else 3)
    else if codes[1] == Some(2) then (if |codes| < 5 then |codes| else 5)
    else 1
  }

  function WithCodes(style: Style, codes: seq<Option<nat>>): Style
    decreases |codes|
  {
    if codes == [] then style
    else WithCodes(WithCode(style, codes[0]), codes[Group(codes)..])
  }

  function WithParameters(style: Style, params: Text): Style {
    WithCodes(style, Codes(params))
  }

  method ApplySgr(style: Style, params: Text) returns (next: Style)
    ensures next == WithParameters(style, params)
  {
    next := style;
    var codes := Codes(params);
    var i := 0;
    while i < |codes|
      invariant 0 <= i
      invariant WithCodes(style, codes) == if i < |codes| then WithCodes(next, codes[i..]) else next
    {
      var code := codes[i];
      ghost var before, at := next, i;
      if code == Some(0) {
        next := next.(fg := None, bold := false);
      } else if code == Some(1) {
        next := next.(bold := true);
      } else if code == Some(22) {
        next := next.(bold := false);
      } else if code.Some? && 30 <= code.value <= 37 {
        next := next.(fg := Some(Base(HUES[code.value - 30])));
      } else if code == Some(39) {
        next := next.(fg := None);
      } else if code.Some? && 90 <= code.value <= 97 {
        next := next.(fg := Some(Bright(HUES[code.value - 90])));
      } else if code == Some(38) || code == Some(48) {
        i := i + if i + 1 < |codes| && codes[i + 1] == Some(5) then 2
                 else if i + 1 < |codes| && codes[i + 1] == Some(2) then 4
                 else 0;
      }
      i := i + 1;
      CodeTaken(before, next, codes, at, i);
    }
  }

  lemma CodeTaken(before: Style, next: Style, codes: seq<Option<nat>>, at: nat, i: nat)
    requires at < |codes| && next == WithCode(before, codes[at])
    requires if i < |codes| then i == at + Group(codes[at..]) else at + Group(codes[at..]) == |codes|
    ensures WithCodes(before, codes[at..]) == if i < |codes| then WithCodes(next, codes[i..]) else next
  {
    var n := Group(codes[at..]);
    hide Group;
    hide WithCode;
    assert codes[at..][n..] == codes[at + n..];
  }

  /** An extended colour's operands are not read as codes, and change nothing themselves. */
  lemma OperandsSkipped(
    style: Style, a: Option<nat>, b: Option<nat>, c: Option<nat>, rest: seq<Option<nat>>, back: bool)
    ensures var code := Some(if back then 48 else 38);
            && WithCodes(style, [code, Some(5), a] + rest) == WithCodes(style, rest)
            && WithCodes(style, [code, Some(2), a, b, c] + rest) == WithCodes(style, rest)
  {
    var code: Option<nat> := Some(if back then 48 else 38);
    assert ([code, Some(5), a] + rest)[3..] == rest;
    assert ([code, Some(2), a, b, c] + rest)[5..] == rest;
  }

  /** One without its operands, or with too few of them, changes nothing either. */
  lemma OperandsMissing(style: Style, a: Option<nat>, rest: seq<Option<nat>>, back: bool)
    ensures var code := Some(if back then 48 else 38);
            && (a != Some(5) && a != Some(2) ==> WithCodes(style, [code, a] + rest) == WithCodes(style, [a] + rest))
            && WithCodes(style, [code]) == WithCodes(style, [code, Some(5)]) == style
            && (|rest| < 3 ==> WithCodes(style, [code, Some(2)] + rest) == style)
  {
    var code: Option<nat> := Some(if back then 48 else 38);
    assert ([code, a] + rest)[1..] == [a] + rest;
  }

  // ---------------------------------------------------------------------------------------------
  // What a line looks like, unit by unit
  // ---------------------------------------------------------------------------------------------

  predicate IsControl(u: Unit) {
    (u < 0x20 && u != TAB) || u == 0x7f
  }

  /** The text with its control characters stripped. */
  function Visible(raw: Text): Text {
    if raw == [] then []
    else (if IsControl(raw[0]) then [] else [raw[0]]) + Visible(raw[1..])
  }

  /** A line minus its escape sequences and control characters. */
  function Clean(s: Text): Text
    decreases |s|
  {
    if s == [] then []
    else if EscapeLength(s) > 0 then Clean(s[EscapeLength(s)..])
    else (if IsControl(s[0]) then [] else [s[0]]) + Clean(s[1..])
  }

  /** The parameters of a line's SGR sequences, in order. */
  function Renditions(s: Text): seq<Text>
    decreases |s|
  {
    if s == [] then []
    else if EscapeLength(s) > 0 then
      (if SgrParameters(s).Some? then [SgrParameters(s).value] else []) + Renditions(s[EscapeLength(s)..])
    else Renditions(s[1..])
  }

  /** All renditions folded onto a style. */
  function Fold(style: Style, renditions: seq<Text>): Style
    decreases |renditions|
  {
    if renditions == [] then style
    else Fold(WithParameters(style, renditions[0]), renditions[1..])
  }

  datatype Glyph = Glyph(u: Unit, style: Style)

  function Styled(text: Text, style: Style): seq<Glyph> {
    seq(|text|, i requires 0 <= i < |text| => Glyph(text[i], style))
  }

  /** Each unit of the clean line, in the style all SGR sequences before it add up to. */
  function Render(s: Text, style: Style): seq<Glyph>
    decreases |s|
  {
    if s == [] then []
    else if EscapeLength(s) > 0 then
      Render(s[EscapeLength(s)..],
             if SgrParameters(s).Some? then WithParameters(style, SgrParameters(s).value) else style)
    else Styled(if IsControl(s[0]) then [] else [s[0]], style) + Render(s[1..], style)
  }

  function Glyphs(segments: seq<Segment>): seq<Glyph> {
    if segments == [] then []
    else
      var last := segments[|segments| - 1];
      Glyphs(segments[..|segments| - 1]) + Styled(last.text, Style(last.fg, last.bold))
  }

  function Texts(segments: seq<Segment>): Text {
    if segments == [] then []
    else Texts(segments[..|segments| - 1]) + segments[|segments| - 1].text
  }

  function Units(glyphs: seq<Glyph>): Text {
    seq(|glyphs|, i requires 0 <= i < |glyphs| => glyphs[i].u)
  }

  // ---------------------------------------------------------------------------------------------
  // Parsing
  // ---------------------------------------------------------------------------------------------

  function StyleAfter(s: Text, style: Style): Style
    requires EscapeLength(s) > 0
  {
    if SgrParameters(s).Some? then WithParameters(style, SgrParameters(s).value) else style
  }

  /** Where the next escape sequence starts, from a position on. */
  function NextEscape(line: Text, from: nat): (i: nat)
    requires from <= |line|
    ensures from <= i <= |line|
    ensures i < |line| ==> EscapeLength(line[i..]) > 0
    decreases |line| - from
  {
    if from == |line| || EscapeLength(line[from..]) > 0 then from else NextEscape(line, from + 1)
  }

  /** A stretch of text as a segment, if anything of it is visible. */
  function Piece(raw: Text, style: Style): seq<Segment> {
    if Visible(raw) == [] then [] else [Segment(Visible(raw), style.fg, style.bold)]
  }

  /** The segments of a line from a position on: a stretch up to each escape sequence. */
  function SegmentsFrom(line: Text, from: nat, style: Style): seq<Segment>
    requires from <= |line|
    decreases |line| - from
  {
    var i := NextEscape(line, from);
    if i == |line| then Piece(line[from..], style)
    else Piece(line[from..i], style) + SegmentsFrom(line, i + EscapeLength(line[i..]), StyleAfter(line[i..], style))
  }

  /** A segment for what is visible of raw, or none. */
  method Push(segments: seq<Segment>, raw: Text, style: Style) returns (more: seq<Segment>)
    ensures more == segments + Piece(raw, style)
    ensures Glyphs(more) == Glyphs(segments) + Styled(Visible(raw), style)
    ensures NoneEmpty(segments) ==> NoneEmpty(more)
  {
    var text := Visible(raw);
    if text == [] {
      assert Glyphs(segments) + Styled(text, style) == Glyphs(segments) && segments + [] == segments;
      return segments;
    }
    var segment := Segment(text, style.fg, style.bold);
    more := segments + [segment];
    assert more[..|more| - 1] == segments;
  }

  ghost predicate NoneEmpty(segments: seq<Segment>) {
    forall x :: x in segments ==> x.text != []
  }

  lemma VisibleSteps(raw: Text, style: Style)
    requires raw != []
    ensures Styled(Visible(raw), style) ==
            Styled(if IsControl(raw[0]) then [] else [raw[0]], style) + Styled(Visible(raw[1..]), style)
  {
    hide IsControl;
  }

  /** Up to the next escape sequence the line shows its visible units in one style. */
  lemma PlainRun(line: Text, from: nat, style: Style)
    requires from <= |line|
    ensures var i := NextEscape(line, from);
            && Render(line[from..], style) == Styled(Visible(line[from..i]), style) + Render(line[i..], style)
            && Renditions(line[from..]) == Renditions(line[i..])
  {
    NoneBefore(line, from);
    PlainUpTo(line, from, NextEscape(line, from), style);
  }

  lemma {:induction false} NoneBefore(line: Text, from: nat)
    requires from <= |line|
    ensures forall k :: from <= k < NextEscape(line, from) ==> EscapeLength(line[k..]) == 0
    decreases |line| - from
  {
    hide EscapeLength;
    if from < NextEscape(line, from) {
      NoneBefore(line, from + 1);
    }
  }

  lemma {:induction false} PlainUpTo(line: Text, from: nat, i: nat, style: Style)
    requires from <= i <= |line|
    requires forall k :: from <= k < i ==> EscapeLength(line[k..]) == 0
    ensures Render(line[from..], style) == Styled(Visible(line[from..i]), style) + Render(line[i..], style)
    ensures Renditions(line[from..]) == Renditions(line[i..])
    decreases i - from
  {
    hide EscapeLength;
    hide Visible;
    hide Styled;
    hide Render;
    hide Renditions;
    if from == i {
      EmptyRun(line[from..from], style);
    } else {
      PlainUpTo(line, from + 1, i, style);
      PlainStep(line, from, i, style);
    }
  }

  lemma EmptyRun(raw: Text, style: Style)
    requires raw == []
    ensures Styled(Visible(raw), style) == []
  {
  }

  lemma PlainStep(line: Text, from: nat, i: nat, style: Style)
    requires from < i <= |line| && EscapeLength(line[from..]) == 0
    requires Render(line[from + 1..], style) == Styled(Visible(line[from + 1..i]), style) + Render(line[i..], style)
    ensures Render(line[from..], style) == Styled(Visible(line[from..i]), style) + Render(line[i..], style)
    ensures Renditions(line[from..]) == Renditions(line[from + 1..])
  {
    var first: Text := if IsControl(line[from]) then [] else [line[from]];
    SliceSteps(line, from, i);
    VisibleSteps(line[from..i], style);
    RenderSteps(line[from..], style);
    hide EscapeLength;
    hide Visible;
    hide Styled;
    hide Render;
    hide IsControl;
    Regroup(Styled(first, style), Styled(Visible(line[from + 1..i]), style), Render(line[i..], style));
  }

  lemma SliceSteps(line: Text, from: nat, i: nat)
    requires from < i <= |line|
    ensures line[from..][1..] == line[from + 1..] && line[from..][0] == line[from]
    ensures line[from..i][1..] == line[from + 1..i] && line[from..i][0] == line[from]
  {
  }

  lemma Regroup<T>(a: seq<T>, b: seq<T>, c: seq<T>)
    ensures a + (b + c) == a + b + c
  {
  }

  lemma RenderSteps(s: Text, style: Style)
    requires s != [] && EscapeLength(s) == 0
    ensures Render(s, style) == Styled(if IsControl(s[0]) then [] else [s[0]], style) + Render(s[1..], style)
    ensures Renditions(s) == Renditions(s[1..])
  {
    hide Styled;
    hide EscapeLength;
  }

  lemma EscapeRendered(s: Text, style: Style)
    requires EscapeLength(s) > 0
    ensures Render(s, style) == Render(s[EscapeLength(s)..], StyleAfter(s, style))
  {
    hide EscapeLength;
    hide SgrParameters;
    hide WithParameters;
  }

  lemma EscapeFolded(s: Text, style: Style)
    requires EscapeLength(s) > 0
    ensures Fold(style, Renditions(s)) == Fold(StyleAfter(s, style), Renditions(s[EscapeLength(s)..]))
  {
    var params, rest := SgrParameters(s), Renditions(s[EscapeLength(s)..]);
    hide EscapeLength;
    hide SgrParameters;
    assert Renditions(s) == (if params.Some? then [params.value] else []) + rest;
    hide Renditions;
    hide WithParameters;
    if params.Some? {
      assert ([params.value] + rest)[1..] == rest;
    } else {
      assert [] + rest == rest;
    }
  }

  lemma EscapeTaken(line: Text, i: nat, style: Style)
    requires i < |line| && EscapeLength(line[i..]) > 0
    ensures var j := i + EscapeLength(line[i..]);
            && j <= |line|
            && Render(line[i..], style) == Render(line[j..], StyleAfter(line[i..], style))
            && Fold(style, Renditions(line[i..])) == Fold(StyleAfter(line[i..], style), Renditions(line[j..]))
  {
    EscapeRendered(line[i..], style);
    EscapeFolded(line[i..], style);
    assert line[i..][EscapeLength(line[i..])..] == line[i + EscapeLength(line[i..])..];
    hide *;
  }

  /** The line has been read up to `last`: what is made of it and what is left add up to the whole. */
  ghost predicate ReadTo(line: Text, start: Style, last: nat, segments: seq<Segment>, style: Style) {
    && last <= |line|
    && Glyphs(segments) + Render(line[last..], style) == Render(line, start)
    && Fold(style, Renditions(line[last..])) == Fold(start, Renditions(line))
    && segments + SegmentsFrom(line, last, style) == SegmentsFrom(line, 0, start)
    && NoneEmpty(segments)
  }

  lemma ReadNothing(line: Text, start: Style)
    ensures ReadTo(line, start, 0, [], start)
  {
    assert line[0..] == line;
    assert Glyphs([]) + Render(line, start) == Render(line, start);
    assert [] + SegmentsFrom(line, 0, start) == SegmentsFrom(line, 0, start);
  }

  /** The segments of a line, and the style its end is left in. */
  method ParseLine(line: Text, start: Style) returns (segments: seq<Segment>, style: Style)
    ensures segments == SegmentsFrom(line, 0, start)
    ensures Glyphs(segments) == Render(line, start)
    ensures style == Fold(start, Renditions(line))
    ensures NoneEmpty(segments)
  {
    hide ReadTo;
    hide Glyphs;
    hide Render;
    hide Renditions;
    hide NoneEmpty;
    hide EscapeLength;
    segments := [];
    style := start;
    var last := 0;
    var i := NextEscape(line, 0);
    ReadNothing(line, start);
    while i < |line|
      invariant last <= i <= |line| && i == NextEscape(line, last)
      invariant ReadTo(line, start, last, segments, style)
      decreases |line| - last
    {
      segments, style := Match(line, start, last, segments, style);
      last := i + EscapeLength(line[i..]);
      i := NextEscape(line, last);
    }
    segments := PushRest(line, start, last, segments, style);
  }

  /** After the last match the rest of the line becomes a segment. */
  method PushRest(line: Text, start: Style, last: nat, before: seq<Segment>, style: Style)
    returns (segments: seq<Segment>)
    requires last <= |line| && NextEscape(line, last) == |line| && ReadTo(line, start, last, before, style)
    ensures segments == SegmentsFrom(line, 0, start)
    ensures Glyphs(segments) == Render(line, start) && style == Fold(start, Renditions(line))
    ensures NoneEmpty(segments)
  {
    hide Glyphs;
    hide EscapeLength;
    hide Styled;
    hide Visible;
    hide Piece;
    assert SegmentsFrom(line, last, style) == Piece(line[last..], style);
    hide SegmentsFrom;
    PlainRun(line, last, style);
    LineEnds(line, style);
    hide Render;
    hide Renditions;
    hide NextEscape;
    segments := Push(before, line[last..], style);
    assert line[last..|line|] == line[last..];
  }

  lemma LineEnds(line: Text, style: Style)
    ensures Render(line[|line|..], style) == [] && Renditions(line[|line|..]) == []
  {
  }

  lemma MatchKept(
    line: Text, start: Style, last: nat, before: seq<Segment>, style: Style, segments: seq<Segment>, i: nat)
    requires ReadTo(line, start, last, before, style) && i == NextEscape(line, last) < |line|
    requires Glyphs(segments) == Glyphs(before) + Styled(Visible(line[last..i]), style) && NoneEmpty(segments)
    requires segments == before + Piece(line[last..i], style)
    ensures var j := i + EscapeLength(line[i..]);
            i < j <= |line| && ReadTo(line, start, j, segments, StyleAfter(line[i..], style))
  {
    hide Glyphs;
    hide EscapeLength;
    hide StyleAfter;
    hide Styled;
    hide Visible;
    hide NoneEmpty;
    hide Render;
    hide Renditions;
    hide NextEscape;
    hide Fold;
    hide Piece;
    PlainRun(line, last, style);
    EscapeTaken(line, i, style);
    var rest := SegmentsFrom(line, i + EscapeLength(line[i..]), StyleAfter(line[i..], style));
    assert SegmentsFrom(line, last, style) == Piece(line[last..i], style) + rest;
    hide SegmentsFrom;
    Regroup(before, Piece(line[last..i], style), rest);
    Regroup(
      Glyphs(before), Styled(Visible(line[last..i]), style),
      Render(line[i + EscapeLength(line[i..])..], StyleAfter(line[i..], style)));
  }

  /** One match: the text before it becomes a segment, and an SGR sequence changes the style. */
  method Match(line: Text, start: Style, last: nat, before: seq<Segment>, style: Style)
    returns (segments: seq<Segment>, next: Style)
    requires ReadTo(line, start, last, before, style) && NextEscape(line, last) < |line|
    ensures var i := NextEscape(line, last);
            var j := i + EscapeLength(line[i..]);
            i < j <= |line| && ReadTo(line, start, j, segments, next)
  {
    hide Glyphs;
    hide Render;
    hide Renditions;
    hide Fold;
    hide NextEscape;
    hide EscapeLength;
    hide SgrParameters;
    hide WithParameters;
    hide Styled;
    hide Visible;
    hide Piece;
    hide SegmentsFrom;
    var i := NextEscape(line, last);
    segments := Push(before, line[last..i], style);
    MatchKept(line, start, last, before, style, segments, i);
    next := style;
    var params := SgrParameters(line[i..]);
    if params.Some? {
      next := ApplySgr(style, params.value);
    }
  }

  /** What parsing gives, from a style on. */
  function Parsed(lines: seq<Text>, start: Style): seq<seq<Segment>> {
    if lines == [] then []
    else [SegmentsFrom(lines[0], 0, start)] + Parsed(lines[1..], Fold(start, Renditions(lines[0])))
  }

  /** The lines in order, the style carried from each to the next. */
  method ParseAnsiLines(lines: seq<Text>) returns (parsed: seq<seq<Segment>>)
    ensures parsed == Parsed(lines, PLAIN) && |parsed| == |lines|
    ensures forall k :: 0 <= k < |lines| ==>
              && Glyphs(parsed[k]) == Render(lines[k], StyleBefore(lines, k))
              && NoneEmpty(parsed[k])
  {
    hide Glyphs;
    hide Render;
    hide NoneEmpty;
    hide SegmentsFrom;
    hide Renditions;
    hide Parsed;
    var style := PLAIN;
    parsed := [];
    NoneParsed(lines);
    for n := 0 to |lines|
      invariant |parsed| == n && style == StyleBefore(lines, n)
      invariant parsed + Parsed(lines[n..], style) == Parsed(lines, PLAIN)
      invariant forall k :: 0 <= k < n ==>
                  && Glyphs(parsed[k]) == Render(lines[k], StyleBefore(lines, k))
                  && NoneEmpty(parsed[k])
    {
      var segments, next := ParseLine(lines[n], style);
      StyleCarried(lines, n);
      hide StyleBefore;
      OneParsed(parsed, lines, n, style);
      style := next;
      parsed := parsed + [segments];
    }
    AllParsed(parsed, lines, style);
  }

  lemma NoneParsed(lines: seq<Text>)
    ensures [] + Parsed(lines[0..], PLAIN) == Parsed(lines, PLAIN)
    ensures StyleBefore(lines, 0) == PLAIN
  {
    assert lines[0..] == lines;
  }

  lemma OneParsed(parsed: seq<seq<Segment>>, lines: seq<Text>, n: nat, style: Style)
    requires n < |lines|
    ensures parsed + Parsed(lines[n..], style) ==
            parsed + [SegmentsFrom(lines[n], 0, style)] + Parsed(lines[n + 1..], Fold(style, Renditions(lines[n])))
  {
    hide SegmentsFrom;
    hide Renditions;
    hide Fold;
    assert lines[n..][1..] == lines[n + 1..] && lines[n..][0] == lines[n];
  }

  lemma AllParsed(parsed: seq<seq<Segment>>, lines: seq<Text>, style: Style)
    ensures parsed + Parsed(lines[|lines|..], style) == parsed
  {
  }

  // ---------------------------------------------------------------------------------------------
  // What parsing promises
  // ---------------------------------------------------------------------------------------------

  /** All renditions of all lines, in order. */
  function AllRenditions(lines: seq<Text>): seq<Text> {
    if lines == [] then [] else Renditions(lines[0]) + AllRenditions(lines[1..])
  }

  /** The style line k starts in: every rendition of every earlier line, folded. */
  function StyleBefore(lines: seq<Text>, k: nat): Style
    requires k <= |lines|
  {
    Fold(PLAIN, AllRenditions(lines[..k]))
  }

  lemma {:induction false} FoldAppend(style: Style, a: seq<Text>, b: seq<Text>)
    ensures Fold(style, a + b) == Fold(Fold(style, a), b)
    decreases |a|
  {
    hide WithParameters;
    if a == [] {
      assert a + b == b;
    } else {
      assert (a + b)[1..] == a[1..] + b;
      FoldAppend(WithParameters(style, a[0]), a[1..], b);
    }
  }

  lemma {:induction false} AllAppend(a: seq<Text>, b: seq<Text>)
    ensures AllRenditions(a + b) == AllRenditions(a) + AllRenditions(b)
  {
    hide Renditions;
    if a == [] {
      assert a + b == b;
    } else {
      assert (a + b)[1..] == a[1..] + b;
      AllAppend(a[1..], b);
    }
  }

  lemma StyleCarried(lines: seq<Text>, k: nat)
    requires k < |lines|
    ensures StyleBefore(lines, k + 1) == Fold(StyleBefore(lines, k), Renditions(lines[k]))
  {
    hide Renditions;
    hide Fold;
    assert lines[..k + 1] == lines[..k] + [lines[k]];
    AllAppend(lines[..k], [lines[k]]);
    assert AllRenditions([lines[k]]) == Renditions(lines[k]);
    FoldAppend(PLAIN, AllRenditions(lines[..k]), Renditions(lines[k]));
  }

  /** Parsing two runs of lines is parsing the first, then the second from the first's last style. */
  lemma {:induction false} LinesAppend(a: seq<Text>, b: seq<Text>, start: Style)
    ensures Parsed(a + b, start) == Parsed(a, start) + Parsed(b, Fold(start, AllRenditions(a)))
    decreases |a|
  {
    hide SegmentsFrom;
    hide Renditions;
    hide WithParameters;
    if a == [] {
      assert a + b == b;
    } else {
      assert (a + b)[1..] == a[1..] + b && (a + b)[0] == a[0];
      FoldAppend(start, Renditions(a[0]), AllRenditions(a[1..]));
      var next := Fold(start, Renditions(a[0]));
      hide Fold;
      LinesAppend(a[1..], b, next);
    }
  }

  lemma UnitsAppend(a: seq<Glyph>, b: seq<Glyph>)
    ensures Units(a + b) == Units(a) + Units(b)
  {
  }

  lemma UnitsStyled(text: Text, style: Style)
    ensures Units(Styled(text, style)) == text
  {
  }

  lemma {:induction false} TextsAre(segments: seq<Segment>)
    ensures Texts(segments) == Units(Glyphs(segments))
  {
    if segments != [] {
      var last := segments[|segments| - 1];
      TextsAre(segments[..|segments| - 1]);
      UnitsAppend(Glyphs(segments[..|segments| - 1]), Styled(last.text, Style(last.fg, last.bold)));
      UnitsStyled(last.text, Style(last.fg, last.bold));
      hide Units;
      hide Styled;
    }
  }

  lemma {:induction false} RenderedUnits(s: Text, style: Style)
    ensures Units(Render(s, style)) == Clean(s)
    decreases |s|
  {
    hide EscapeLength;
    hide SgrParameters;
    hide IsControl;
    if s == [] {
    } else if EscapeLength(s) > 0 {
      RenderedUnits(s[EscapeLength(s)..], StyleAfter(s, style));
    } else {
      RenderedUnits(s[1..], style);
      var first: Text := if IsControl(s[0]) then [] else [s[0]];
      UnitsAppend(Styled(first, style), Render(s[1..], style));
      UnitsStyled(first, style);
    }
  }

  /**
  However a line's segments are cut, if they show what the line shows then their texts join up to the
  line minus its escape sequences and control characters.
  */
  lemma TextsJoinUp(line: Text, start: Style, segments: seq<Segment>)
    requires Glyphs(segments) == Render(line, start)
    ensures Texts(segments) == Clean(line)
  {
    TextsAre(segments);
    RenderedUnits(line, start);
  }

  /** Nothing shown is a control character, a tab apart: no escape gets through. */
  lemma {:induction false} CleanIsPrintable(s: Text)
    ensures forall u :: u in Clean(s) ==> u == TAB || (u >= 0x20 && u != 0x7f)
    decreases |s|
  {
    hide EscapeLength;
    if s == [] {
    } else if EscapeLength(s) > 0 {
      CleanIsPrintable(s[EscapeLength(s)..]);
    } else {
      CleanIsPrintable(s[1..]);
    }
  }
}
