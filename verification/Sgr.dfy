/**
What Select Graphic Rendition does to the text of a log line, in the numbers and the units a log
holds: which style a sequence's parameters give, and which text comes out in which style.
*/
module Sgr {
  import opened Common
  import opened Ansi

  // ---------------------------------------------------------------------------------------------
  // The numbers of a parameter text
  // ---------------------------------------------------------------------------------------------

  /** n in decimal digits, with no digit for 0. */
  function Numeral(n: nat): Text {
    if n == 0 then [] else Numeral(n / 10) + [0x30 + n % 10]
  }

  /** The piece is n written out, with any number of zeros in front; nothing at all is 0. */
  ghost predicate Reads(piece: Text, n: nat) {
    exists z :: 0 <= z <= |piece| && piece[z..] == Numeral(n) && forall k :: 0 <= k < z ==> piece[k] == 0x30
  }

  /** Pieces without a separator, with one separator between each two. */
  ghost predicate Pieces(pieces: seq<Text>, separators: Text) {
    && |pieces| == |separators| + 1
    && (forall k, u :: 0 <= k < |pieces| && u in pieces[k] ==> u != 0x3b && u != 0x3a)
    && (forall k :: 0 <= k < |separators| ==> separators[k] == 0x3b || separators[k] == 0x3a)
  }

  function Joined(pieces: seq<Text>, separators: Text): Text
    requires |pieces| == |separators| + 1
  {
    if separators == [] then pieces[0]
    else pieces[0] + [separators[0]] + Joined(pieces[1..], separators[1..])
  }

  lemma NumberSnoc(front: Text, last: Unit)
    ensures Number(front + [last]) ==
            if Number(front).None? || !(0x30 <= last <= 0x39) then None
            else Some(10 * Number(front).value + (last - 0x30))
  {
    assert (front + [last])[..|front|] == front;
  }

  lemma {:induction false} NumberOfNumeral(zeros: Text, n: nat)
    requires forall k :: 0 <= k < |zeros| ==> zeros[k] == 0x30
    ensures Number(zeros + Numeral(n)) == Some(n)
    decreases |zeros| + n
  {
    hide Number;
    if n > 0 {
      NumberOfNumeral(zeros, n / 10);
      NumberSnoc(zeros + Numeral(n / 10), 0x30 + n % 10);
      assert zeros + Numeral(n) == zeros + Numeral(n / 10) + [0x30 + n % 10];
    } else if zeros != [] {
      var front := zeros[..|zeros| - 1];
      NumberOfNumeral(front, 0);
      NumberSnoc(front, 0x30);
      assert zeros + Numeral(0) == front + [0x30] && front + Numeral(0) == front;
    } else {
      NumberOfNothing();
      assert zeros + Numeral(0) == [];
    }
  }

  lemma NumberOfNothing()
    ensures Number([]) == Some(0)
  {
  }

  lemma ReadsSnoc(front: Text, m: nat, d: nat)
    requires Reads(front, m) && d < 10
    ensures Reads(front + [0x30 + d], 10 * m + d)
  {
    var s, n := front + [0x30 + d], 10 * m + d;
    var z :| 0 <= z <= |front| && front[z..] == Numeral(m) && forall k :: 0 <= k < z ==> front[k] == 0x30;
    assert n / 10 == m && n % 10 == d;
    assert s[z..] == front[z..] + [0x30 + d] && s[|s|..] == [];
    assert n > 0 ==> Numeral(n) == Numeral(m) + [0x30 + d];
    assert n == 0 ==> m == 0 && d == 0 && Numeral(m) == [];
    hide Numeral;
    var from := if n == 0 then |s| else z;
    assert forall k :: 0 <= k < from ==> s[k] == 0x30;
    assert s[from..] == Numeral(n) by {
      NumeralOfZero();
    }
  }

  lemma NumeralOfZero()
    ensures Numeral(0) == []
  {
  }

  lemma {:induction false} NumeralOfNumber(s: Text)
    requires Number(s).Some?
    ensures Reads(s, Number(s).value)
  {
    if s == [] {
      assert s[0..] == Numeral(0);
    } else {
      var front, last := s[..|s| - 1], s[|s| - 1];
      assert s == front + [last];
      NumberSnoc(front, last);
      hide Number;
      NumeralOfNumber(front);
      hide Reads;
      ReadsSnoc(front, Number(front).value, last - 0x30);
    }
  }

  /** A parameter is the number it writes out in decimal, and no number if it holds anything but digits. */
  lemma NumberReads(s: Text, n: nat)
    ensures Number(s) == Some(n) <==> Reads(s, n)
  {
    hide Number;
    hide Numeral;
    if Reads(s, n) {
      var z :| 0 <= z <= |s| && s[z..] == Numeral(n) && forall k :: 0 <= k < z ==> s[k] == 0x30;
      NumberOfNumeral(s[..z], n);
      assert s == s[..z] + Numeral(n);
    }
    if Number(s) == Some(n) {
      hide Reads;
      NumeralOfNumber(s);
    }
  }

  lemma {:induction false} NumbersAreDigits(s: Text)
    ensures Number(s).Some? <==> forall k :: 0 <= k < |s| ==> 0x30 <= s[k] <= 0x39
  {
    if s != [] {
      NumbersAreDigits(s[..|s| - 1]);
    }
  }

  lemma {:induction false} OnePiece(front: Text, piece: Text, rest: Text)
    requires forall u :: u in piece ==> u != 0x3b && u != 0x3a
    ensures CodesFrom(front, piece + rest) == CodesFrom(front + piece, rest)
    decreases |piece|
  {
    if piece == [] {
      assert piece + rest == rest && front + piece == front;
    } else {
      assert (piece + rest)[1..] == piece[1..] + rest && (piece + rest)[0] == piece[0];
      assert piece[0] in piece && forall u :: u in piece[1..] ==> u in piece;
      OnePiece(front + [piece[0]], piece[1..], rest);
      assert front + [piece[0]] + piece[1..] == front + piece;
    }
  }

  /** A parameter text has one code for each piece between separators: the piece's number. */
  lemma {:induction false} CodesOfPieces(pieces: seq<Text>, separators: Text)
    requires Pieces(pieces, separators)
    ensures var codes := Codes(Joined(pieces, separators));
            |codes| == |pieces| && forall k :: 0 <= k < |codes| ==> codes[k] == Number(pieces[k])
    decreases |pieces|
  {
    hide Number;
    var params := Joined(pieces, separators);
    if separators == [] {
      OnePiece([], pieces[0], []);
      assert pieces[0] + [] == params && [] + pieces[0] == pieces[0];
    } else {
      var rest := Joined(pieces[1..], separators[1..]);
      CodesOfPieces(pieces[1..], separators[1..]);
      OnePiece([], pieces[0], [separators[0]] + rest);
      assert params == pieces[0] + ([separators[0]] + rest) && [] + pieces[0] == pieces[0];
      assert ([separators[0]] + rest)[1..] == rest;
    }
  }

  /** Every parameter text falls into such pieces. */
  lemma {:induction false} TextHasPieces(params: Text) returns (pieces: seq<Text>, separators: Text)
    ensures Pieces(pieces, separators) && Joined(pieces, separators) == params
  {
    if params == [] {
      pieces, separators := [[]], [];
    } else {
      var u := params[0];
      var more, between := TextHasPieces(params[1..]);
      if u == 0x3b || u == 0x3a {
        pieces, separators := [[]] + more, [u] + between;
        assert pieces[1..] == more && separators[1..] == between;
      } else {
        pieces, separators := [[u] + more[0]] + more[1..], between;
        assert pieces[1..] == more[1..];
      }
    }
  }

  // ---------------------------------------------------------------------------------------------
  // The style codes give
  // ---------------------------------------------------------------------------------------------

  predicate Weighs(code: Option<nat>) {
    code in [Some(0), Some(1), Some(22)]
  }

  predicate Colours(code: Option<nat>) {
    code.Some? && (code.value == 0 || 30 <= code.value <= 37 || code.value == 39 || 90 <= code.value <= 97)
  }

  predicate NoneExtended(codes: seq<Option<nat>>) {
    forall k :: 0 <= k < |codes| ==> codes[k] != Some(38) && codes[k] != Some(48)
  }

  /** The weight is up to the last of the codes 0, 1 and 22. */
  lemma {:induction false} WeightOfCodes(style: Style, codes: seq<Option<nat>>)
    requires NoneExtended(codes)
    ensures (forall k :: 0 <= k < |codes| ==> !Weighs(codes[k])) ==> WithCodes(style, codes).bold == style.bold
    ensures forall k ::
              0 <= k < |codes| && Weighs(codes[k]) && (forall j :: k < j < |codes| ==> !Weighs(codes[j])) ==>
                WithCodes(style, codes).bold == (codes[k] == Some(1))
    decreases |codes|
  {
    if codes != [] {
      var next, rest := WithCode(style, codes[0]), codes[1..];
      assert forall k :: 0 <= k < |rest| ==> rest[k] == codes[k + 1];
      WeightOfCodes(next, rest);
      assert WithCodes(style, codes) == WithCodes(next, rest);
      assert forall k :: 0 <= k < |codes| ==> codes[k] == if k == 0 then codes[0] else rest[k - 1];
    }
  }

  lemma {:induction false} NoColourOfCodes(style: Style, codes: seq<Option<nat>>)
    requires NoneExtended(codes) && forall k :: 0 <= k < |codes| ==> !Colours(codes[k])
    ensures WithCodes(style, codes).fg == style.fg
    decreases |codes|
  {
    if codes != [] {
      assert !Colours(codes[0]);
      NoColourOfCodes(WithCode(style, codes[0]), codes[1..]);
    }
  }

  /** The colour is up to the last code that stands for one. */
  lemma {:induction false} ColourOfCodes(style: Style, codes: seq<Option<nat>>, k: nat)
    requires NoneExtended(codes) && k < |codes| && Colours(codes[k])
    requires forall j :: k < j < |codes| ==> !Colours(codes[j])
    ensures WithCodes(style, codes).fg == WithCode(PLAIN, codes[k]).fg
    decreases |codes|
  {
    var next := WithCode(style, codes[0]);
    if k == 0 {
      NoColourOfCodes(next, codes[1..]);
    } else {
      ColourOfCodes(next, codes[1..], k - 1);
    }
  }

  /** The colour each number stands for. */
  ghost predicate Stands(n: nat, fg: Option<Colour>) {
    && (n in [0, 39] ==> fg == None)
    && (n == 30 ==> fg == Some(Base(Black))) && (n == 90 ==> fg == Some(Bright(Black)))
    && (n == 31 ==> fg == Some(Base(Red))) && (n == 91 ==> fg == Some(Bright(Red)))
    && (n == 32 ==> fg == Some(Base(Green))) && (n == 92 ==> fg == Some(Bright(Green)))
    && (n == 33 ==> fg == Some(Base(Yellow))) && (n == 93 ==> fg == Some(Bright(Yellow)))
    && (n == 34 ==> fg == Some(Base(Blue))) && (n == 94 ==> fg == Some(Bright(Blue)))
    && (n == 35 ==> fg == Some(Base(Magenta))) && (n == 95 ==> fg == Some(Bright(Magenta)))
    && (n == 36 ==> fg == Some(Base(Cyan))) && (n == 96 ==> fg == Some(Bright(Cyan)))
    && (n == 37 ==> fg == Some(Base(White))) && (n == 97 ==> fg == Some(Bright(White)))
  }

  lemma ColourStands(n: nat)
    ensures Stands(n, WithCode(PLAIN, Some(n)).fg)
  {
  }

  /** A parameter text without extended colours, by its pieces. */
  ghost predicate Plainly(pieces: seq<Text>, separators: Text) {
    && Pieces(pieces, separators)
    && forall k :: 0 <= k < |pieces| ==> !Reads(pieces[k], 38) && !Reads(pieces[k], 48)
  }

  ghost predicate ReadsWeight(piece: Text) {
    Reads(piece, 0) || Reads(piece, 1) || Reads(piece, 22)
  }

  ghost predicate ReadsColour(piece: Text) {
    exists n :: Reads(piece, n) && (n == 0 || 30 <= n <= 37 || n == 39 || 90 <= n <= 97)
  }

  lemma PiecesAsCodes(pieces: seq<Text>, separators: Text)
    requires Plainly(pieces, separators)
    ensures var codes := Codes(Joined(pieces, separators));
            && |codes| == |pieces| && NoneExtended(codes)
            && forall k :: 0 <= k < |codes| ==>
                 && codes[k] == Number(pieces[k])
                 && (Weighs(codes[k]) <==> ReadsWeight(pieces[k])) && (Colours(codes[k]) <==> ReadsColour(pieces[k]))
  {
    CodesOfPieces(pieces, separators);
    var codes := Codes(Joined(pieces, separators));
    hide Codes;
    hide Number;
    hide Reads;
    hide Joined;
    forall k | 0 <= k < |codes|
      ensures codes[k] != Some(38) && codes[k] != Some(48)
      ensures Weighs(codes[k]) <==> ReadsWeight(pieces[k])
      ensures Colours(codes[k]) <==> ReadsColour(pieces[k])
    {
      forall n: nat {
        NumberReads(pieces[k], n);
      }
      assert forall n: nat :: codes[k] == Some(n) <==> Reads(pieces[k], n);
      if codes[k].Some? {
        assert Reads(pieces[k], codes[k].value);
      }
    }
  }

  /**
  The weight an SGR sequence leaves: bold if the last of its parameters 0, 1 and 22 is a 1, not bold
  if it is one of the others, and unchanged if there is none.
  */
  lemma WeightApplied(style: Style, pieces: seq<Text>, separators: Text)
    requires Plainly(pieces, separators)
    ensures var next := WithParameters(style, Joined(pieces, separators));
            && ((forall k :: 0 <= k < |pieces| ==> !ReadsWeight(pieces[k])) ==> next.bold == style.bold)
            && forall k ::
                 0 <= k < |pieces| && ReadsWeight(pieces[k])
                 && (forall j :: k < j < |pieces| ==> !ReadsWeight(pieces[j])) ==>
                   next.bold == Reads(pieces[k], 1)
  {
    PiecesAsCodes(pieces, separators);
    var codes := Codes(Joined(pieces, separators));
    WeightOfCodes(style, codes);
    hide Codes;
    hide Number;
    hide Reads;
    hide ReadsWeight;
    hide ReadsColour;
    hide Joined;
    hide WithCodes;
    forall k | 0 <= k < |pieces|
      ensures codes[k] == Some(1) <==> Reads(pieces[k], 1)
    {
      NumberReads(pieces[k], 1);
    }
  }

  /**
  The colour it leaves: that of the last of its parameters which stands for one, none if that is
  0 or 39, and the one before if no parameter stands for a colour.
  */
  lemma ColourApplied(style: Style, pieces: seq<Text>, separators: Text, k: nat, n: nat)
    requires Plainly(pieces, separators) && k < |pieces| && Reads(pieces[k], n) && ReadsColour(pieces[k])
    requires forall j :: k < j < |pieces| ==> !ReadsColour(pieces[j])
    ensures Stands(n, WithParameters(style, Joined(pieces, separators)).fg)
  {
    PiecesAsCodes(pieces, separators);
    var codes := Codes(Joined(pieces, separators));
    NumberReads(pieces[k], n);
    ColourStands(n);
    hide Codes;
    hide Number;
    hide Reads;
    hide ReadsWeight;
    hide ReadsColour;
    hide Joined;
    hide Stands;
    hide Colours;
    hide Weighs;
    ColourOfCodes(style, codes, k);
    hide WithCodes;
    hide WithCode;
  }

  lemma ColourKept(style: Style, pieces: seq<Text>, separators: Text)
    requires Plainly(pieces, separators) && forall k :: 0 <= k < |pieces| ==> !ReadsColour(pieces[k])
    ensures WithParameters(style, Joined(pieces, separators)).fg == style.fg
  {
    PiecesAsCodes(pieces, separators);
    hide ReadsColour;
    hide Reads;
    hide Codes;
    hide Number;
    hide Joined;
    NoColourOfCodes(style, Codes(Joined(pieces, separators)));
  }

  /** Codes before an extended colour act first, as if nothing followed them. */
  lemma {:induction false} CodesAppend(style: Style, a: seq<Option<nat>>, b: seq<Option<nat>>)
    requires NoneExtended(a)
    ensures WithCodes(style, a + b) == WithCodes(WithCodes(style, a), b)
    decreases |a|
  {
    if a == [] {
      assert a + b == b;
    } else {
      assert (a + b)[1..] == a[1..] + b && (a + b)[0] == a[0];
      CodesAppend(WithCode(style, a[0]), a[1..], b);
    }
  }

  // ---------------------------------------------------------------------------------------------
  // The text and the style of a line
  // ---------------------------------------------------------------------------------------------

  predicate NoEscape(text: Text) {
    forall k :: 0 <= k < |text| ==> text[k] != 0x1b
  }

  /** What is seen of a text is all of it but its control characters, a tab not being one. */
  lemma {:induction false} VisibleAppends(a: Text, b: Text, u: Unit)
    ensures Visible(a + b) == Visible(a) + Visible(b)
    ensures Visible([u]) == if (u < 0x20 && u != 0x09) || u == 0x7f then [] else [u]
    decreases |a|
  {
    if a == [] {
      assert a + b == b;
    } else {
      assert (a + b)[1..] == a[1..] + b && (a + b)[0] == a[0];
      VisibleAppends(a[1..], b, u);
      var first: Text := if IsControl(a[0]) then [] else [a[0]];
      assert Visible(a) == first + Visible(a[1..]);
      assert Visible(a + b) == first + Visible(a[1..] + b);
      hide Visible;
      Regroup(first, Visible(a[1..]), Visible(b));
    }
  }

  /** Text before an escape sequence shows its visible units in the style it starts in. */
  lemma {:induction false} TextShown(text: Text, rest: Text, style: Style)
    requires NoEscape(text)
    ensures Render(text + rest, style) == Styled(Visible(text), style) + Render(rest, style)
    ensures Renditions(text + rest) == Renditions(rest)
    decreases |text|
  {
    if text == [] {
      assert text + rest == rest;
      assert Styled(Visible(text), style) + Render(rest, style) == Render(rest, style);
    } else {
      var first: Text := if IsControl(text[0]) then [] else [text[0]];
      assert (text + rest)[1..] == text[1..] + rest && (text + rest)[0] == text[0] != 0x1b;
      assert EscapeLength(text + rest) == 0;
      TextShown(text[1..], rest, style);
      VisibleSteps(text, style);
      RenderSteps(text + rest, style);
      hide *;
      Regroup(Styled(first, style), Styled(Visible(text[1..]), style), Render(rest, style));
    }
  }

  lemma RenditionsStep(s: Text)
    requires EscapeLength(s) > 0
    ensures Renditions(s) ==
            (if SgrParameters(s).Some? then [SgrParameters(s).value] else []) + Renditions(s[EscapeLength(s)..])
  {
    hide EscapeLength;
    hide SgrParameters;
  }

  /** A control sequence shows nothing, and it sets the style of what follows exactly if it ends in an m. */
  lemma ControlShown(params: Text, between: Text, final: Unit, rest: Text, style: Style)
    requires forall k :: 0 <= k < |params| ==> 0x30 <= params[k] <= 0x3f
    requires forall k :: 0 <= k < |between| ==> 0x20 <= between[k] <= 0x2f
    requires 0x40 <= final <= 0x7e
    ensures Render([0x1b, 0x5b] + params + between + [final] + rest, style) ==
            Render(rest, if between == [] && final == 0x6d then WithParameters(style, params) else style)
    ensures Renditions([0x1b, 0x5b] + params + between + [final] + rest) ==
            (if between == [] && final == 0x6d then [params] else []) + Renditions(rest)
  {
    var t := [0x1b, 0x5b] + params + between + [final];
    var s := t + rest;
    assert s[..|t|] == t;
    ControlFound(s, params, between, final, rest);
    hide Parameters;
    hide ControlLength;
    hide CommandLength;
    EscapeRendered(s, style);
    RenditionsStep(s);
    assert s[|t|..] == rest;
    hide Render;
    hide Renditions;
  }

  lemma ControlFound(s: Text, params: Text, between: Text, final: Unit, rest: Text)
    requires forall k :: 0 <= k < |params| ==> 0x30 <= params[k] <= 0x3f
    requires forall k :: 0 <= k < |between| ==> 0x20 <= between[k] <= 0x2f
    requires 0x40 <= final <= 0x7e
    requires s == [0x1b, 0x5b] + params + between + [final] + rest
    ensures ControlLength(s) == |params| + |between| + 3
    ensures SgrParameters(s) == if between == [] && final == 0x6d then Some(params) else None
  {
    var p, i := |params|, |between|;
    ControlUnits(s, params, between, final, rest);
    hide Parameters;
    hide ControlLength;
    BuiltIsFound(s, p + i + 3, p, i);
    ParametersAre(s[2..], p);
  }

  lemma ControlUnits(s: Text, params: Text, between: Text, final: Unit, rest: Text)
    requires forall k :: 0 <= k < |params| ==> 0x30 <= params[k] <= 0x3f
    requires forall k :: 0 <= k < |between| ==> 0x20 <= between[k] <= 0x2f
    requires 0x40 <= final <= 0x7e
    requires s == [0x1b, 0x5b] + params + between + [final] + rest
    ensures var p, i := |params|, |between|;
            && |s| >= p + i + 3 && Built(s[..p + i + 3], p, i)
            && s[2..2 + p] == params && !IsParameter(s[2..][p])
            && (forall k :: 0 <= k < p ==> IsParameter(s[2..][k]))
            && (i == 0 ==> s[2 + p] == final)
  {
    var p, i := |params|, |between|;
    assert forall k :: 0 <= k < p ==> s[2 + k] == params[k];
    assert forall k :: 0 <= k < i ==> s[2 + p + k] == between[k];
    assert s[2 + p + i] == final;
    assert forall k :: 2 <= k < 2 + p ==> s[k] == params[k - 2];
    assert forall k :: 2 + p <= k < 2 + p + i ==> s[k] == between[k - 2 - p];
  }

  /** A command shows nothing and sets nothing. One without a terminator ends with the line, or at an escape. */
  lemma CommandShown(payload: Text, terminator: Text, rest: Text, style: Style)
    requires forall k :: 0 <= k < |payload| ==> payload[k] != 0x07 && payload[k] != 0x1b
    requires terminator == [0x07] || terminator == [0x1b, 0x5c]
          || (terminator == [] && (rest == [] || (rest[0] == 0x1b && (|rest| == 1 || rest[1] != 0x5c))))
    ensures Render([0x1b, 0x5d] + payload + terminator + rest, style) == Render(rest, style)
    ensures Renditions([0x1b, 0x5d] + payload + terminator + rest) == Renditions(rest)
  {
    var t := [0x1b, 0x5d] + payload + terminator;
    var s := t + rest;
    CommandEnds(s, payload, terminator + rest);
    assert s == [0x1b, 0x5d] + payload + (terminator + rest);
    assert CommandLength(s) == |t| && ControlLength(s) == 0;
    hide CommandLength;
    hide ControlLength;
    EscapeRendered(s, style);
    RenditionsStep(s);
    assert s[|t|..] == rest;
    hide Render;
    hide Renditions;
  }

  lemma CommandEnds(s: Text, payload: Text, end: Text)
    requires forall k :: 0 <= k < |payload| ==> payload[k] != 0x07 && payload[k] != 0x1b
    requires s == [0x1b, 0x5d] + payload + end && (end == [] || end[0] == 0x07 || end[0] == 0x1b)
    ensures CommandLength(s) == 2 + |payload| +
            if end == [] then 0 else if end[0] == 0x07 then 1 else if |end| > 1 && end[1] == 0x5c then 2 else 0
  {
    var p := |payload|;
    assert forall k :: 0 <= k < p ==> s[2..][k] == payload[k];
    assert s[2 + p..] == end;
    assert end != [] ==> s[2..][p] == s[2 + p] == end[0];
    assert |end| > 1 ==> s[3 + p] == end[1];
    PayloadIs(s[2..]);
    hide Payload;
    assert Payload(s[2..]) == p;
  }

  /** Any other escape takes the unit after it along, whatever it is, and sets nothing; alone it is dropped. */
  lemma PairShown(u: Unit, rest: Text, style: Style)
    requires u != 0x5d
    requires forall n: nat :: n <= 2 + |rest| ==> !IsControlSequence(([0x1b, u] + rest)[..n])
    ensures Render([0x1b, u] + rest, style) == Render(rest, style) && Render([0x1b], style) == []
    ensures Renditions([0x1b, u] + rest) == Renditions(rest) && Renditions([0x1b]) == []
  {
    var s: Text := [0x1b, u] + rest;
    if ControlLength(s) > 0 {
      ControlSequences(s, ControlLength(s));
      assert false;
    }
    hide ControlLength;
    EscapeRendered(s, style);
    RenditionsStep(s);
    assert s[2..] == rest;
    hide Render;
    hide Renditions;
  }

  /** Segments show their texts one after the other, each unit in its own segment's colour and weight. */
  lemma SegmentsShow(segments: seq<Segment>, x: Segment, more: seq<Segment>)
    ensures Glyphs(segments + [x] + more) == Glyphs(segments) + Glyphs([x]) + Glyphs(more)
    ensures |Glyphs([x])| == |x.text|
    ensures forall i :: 0 <= i < |x.text| ==> Glyphs([x])[i] == Glyph(x.text[i], Style(x.fg, x.bold))
  {
    GlyphsAppend(segments + [x], more);
    GlyphsAppend(segments, [x]);
    OneSegment(x);
    hide Glyphs;
    hide Styled;
  }

  lemma OneSegment(x: Segment)
    ensures Glyphs([x]) == Styled(x.text, Style(x.fg, x.bold))
    ensures |Glyphs([x])| == |x.text|
    ensures forall i :: 0 <= i < |x.text| ==> Glyphs([x])[i] == Glyph(x.text[i], Style(x.fg, x.bold))
  {
    assert [x][..0] == [];
  }

  lemma {:induction false} GlyphsAppend(a: seq<Segment>, b: seq<Segment>)
    ensures Glyphs(a + b) == Glyphs(a) + Glyphs(b)
  {
    if b == [] {
      assert a + b == a;
    } else {
      var init, last := b[..|b| - 1], b[|b| - 1];
      var styled := Styled(last.text, Style(last.fg, last.bold));
      GlyphsAppend(a, init);
      hide Styled;
      assert (a + b)[..|a + b| - 1] == a + init && (a + b)[|a + b| - 1] == last;
      assert Glyphs(a + b) == Glyphs(a + init) + styled;
      assert Glyphs(b) == Glyphs(init) + styled;
      hide Glyphs;
      Regroup(Glyphs(a), Glyphs(init), styled);
    }
  }

  /** The first line starts without a colour and not bold, every other in the style the one before it ends in. */
  lemma StylesCarried(lines: seq<Text>, k: nat)
    requires k < |lines|
    ensures StyleBefore(lines, 0) == Style(None, false)
    ensures StyleBefore(lines, k + 1) == Fold(StyleBefore(lines, k), Renditions(lines[k]))
  {
    StyleCarried(lines, k);
  }

  /** A style goes through the renditions of a line one after the other. */
  lemma RenditionsFold(style: Style, params: Text, more: seq<Text>)
    ensures Fold(style, []) == style
    ensures Fold(style, [params] + more) == Fold(WithParameters(style, params), more)
  {
    assert ([params] + more)[1..] == more;
  }
}
