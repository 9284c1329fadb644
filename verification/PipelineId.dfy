/**
Opaque pipeline ids: the repository id, a NUL byte and the name, in unpadded base64url
(sections 3.2 and 5 of RFC 4648).
*/
module PipelineId {
  import opened Common
  import opened Sums

  type Sextet = s: int | 0 <= s < 64

  datatype Ref = Ref(repoId: seq<Byte>, name: seq<Byte>)

  function Digit(s: Sextet): char {
    if s < 26 then (65 + s) as char
    else if s < 52 then (97 + s - 26) as char
    else if s < 62 then (48 + s - 52) as char
    else if s == 62 then '-'
    else '_'
  }

  function Value(c: char): Option<Sextet> {
    if 'A' <= c <= 'Z' then Some(c as int - 65)
    else if 'a' <= c <= 'z' then Some(c as int - 97 + 26)
    else if '0' <= c <= '9' then Some(c as int - 48 + 52)
    else if c == '-' then Some(62)
    else if c == '_' then Some(63)
    else None
  }

  /** The four sextets of three bytes; a missing byte counts as 0. */
  function S0(a: int): (s: int)
    ensures 0 <= a < 256 ==> 0 <= s < 64
  {
    a / 4
  }

  function S1(a: int, b: int): (s: int)
    ensures 0 <= a < 256 && 0 <= b < 256 ==> 0 <= s < 64
  {
    a % 4 * 16 + b / 16
  }

  function S2(b: int, c: int): (s: int)
    ensures 0 <= b < 256 && 0 <= c < 256 ==> 0 <= s < 64
  {
    b % 16 * 4 + c / 64
  }

  function S3(c: int): (s: int)
    ensures 0 <= s < 64
  {
    c % 64
  }

  function EncodeBytes(b: seq<Byte>): string {
    if b == [] then ""
    else if |b| == 1 then [Digit(S0(b[0])), Digit(S1(b[0], 0))]
    else if |b| == 2 then [Digit(S0(b[0])), Digit(S1(b[0], b[1])), Digit(S2(b[1], 0))]
    else [Digit(S0(b[0])), Digit(S1(b[0], b[1])), Digit(S2(b[1], b[2])), Digit(S3(b[2]))]
         + EncodeBytes(b[3..])
  }

  /** The decoder skips line ends wherever they are. */
  function WithoutLineEnds(s: string): string {
    if s == "" then ""
    else (if s[0] == '\r' || s[0] == '\n' then "" else [s[0]]) + WithoutLineEnds(s[1..])
  }

  function Values(s: string): Option<seq<Sextet>> {
    if s == "" then Some([])
    else
      var head, tail := Value(s[0]), Values(s[1..]);
      if head.None? || tail.None? then None else Some([head.value] + tail.value)
  }

  function Byte0(a: int, b: int): (r: int)
    ensures 0 <= a < 64 && 0 <= b < 64 ==> 0 <= r < 256
  {
    a * 4 + b / 16
  }

  function Byte1(b: int, c: int): (r: int)
    ensures 0 <= b < 64 && 0 <= c < 64 ==> 0 <= r < 256
  {
    b % 16 * 16 + c / 4
  }

  function Byte2(c: int, d: int): (r: int)
    ensures 0 <= c < 64 && 0 <= d < 64 ==> 0 <= r < 256
  {
    c % 4 * 64 + d
  }

  /** The bits left over in a last partial group are dropped unread. */
  function Bytes(v: seq<Sextet>): Option<seq<Byte>> {
    if v == [] then Some([])
    else if |v| == 1 then None
    else if |v| == 2 then Some([Byte0(v[0], v[1])])
    else if |v| == 3 then Some([Byte0(v[0], v[1]), Byte1(v[1], v[2])])
    else
      var tail := Bytes(v[4..]);
      if tail.None? then None
      else Some([Byte0(v[0], v[1]), Byte1(v[1], v[2]), Byte2(v[2], v[3])] + tail.value)
  }

  function DecodeBytes(s: string): Option<seq<Byte>> {
    var v := Values(WithoutLineEnds(s));
    if v.None? then None else Bytes(v.value)
  }

  function ID(r: Ref): string {
    EncodeBytes(r.repoId + [0] + r.name)
  }

  /** The position of the first NUL, or the length. */
  function FirstNul(b: seq<Byte>): (i: nat)
    ensures i <= |b| && (i < |b| ==> b[i] == 0)
    ensures forall k :: 0 <= k < i ==> b[k] != 0
  {
    if b == [] || b[0] == 0 then 0 else 1 + FirstNul(b[1..])
  }

  function Parse(id: string): Result<Ref> {
    var raw := DecodeBytes(id);
    if raw.None? then Err
    else
      var i := FirstNul(raw.value);
      if i == |raw.value| then Err else Ok(Ref(raw.value[..i], raw.value[i + 1..]))
  }

  lemma DigitValue(s: Sextet)
    ensures Value(Digit(s)) == Some(s)
    ensures Digit(s) != '\r' && Digit(s) != '\n'
  {
  }

  /** The sextets an encoding spells out. */
  function Sextets(b: seq<Byte>): seq<Sextet> {
    if b == [] then []
    else if |b| == 1 then [S0(b[0]), S1(b[0], 0)]
    else if |b| == 2 then [S0(b[0]), S1(b[0], b[1]), S2(b[1], 0)]
    else [S0(b[0]), S1(b[0], b[1]), S2(b[1], b[2]), S3(b[2])] + Sextets(b[3..])
  }

  function Digits(v: seq<Sextet>): string {
    seq(|v|, i requires 0 <= i < |v| => Digit(v[i]))
  }

  lemma {:induction false} EncodingSpells(b: seq<Byte>)
    ensures EncodeBytes(b) == Digits(Sextets(b))
  {
    if |b| > 2 {
      EncodingSpells(b[3..]);
    }
  }

  lemma {:induction false} DigitsRead(v: seq<Sextet>)
    ensures WithoutLineEnds(Digits(v)) == Digits(v)
    ensures Values(Digits(v)) == Some(v)
  {
    if v != [] {
      DigitValue(v[0]);
      DigitsRead(v[1..]);
      hide Digit;
      hide Value;
      assert Digits(v)[1..] == Digits(v[1..]) && Digits(v) == [Digit(v[0])] + Digits(v[1..]);
      assert [v[0]] + v[1..] == v;
    }
  }

  lemma Quantum(a: Byte, b: Byte, c: Byte)
    ensures Byte0(S0(a), S1(a, b)) == a
    ensures Byte1(S1(a, b), S2(b, c)) == b
    ensures Byte2(S2(b, c), S3(c)) == c
  {
  }

  lemma PartialGroups(x: Sextet, y: Sextet, z: Sextet)
    ensures Bytes([x, y]) == Some([Byte0(x, y)])
    ensures Bytes([x, y, z]) == Some([Byte0(x, y), Byte1(y, z)])
  {
    hide Byte0;
    hide Byte1;
  }

  lemma NextGroup(group: seq<Sextet>, v: seq<Sextet>)
    requires |group| == 4
    ensures Bytes(group + v) ==
            if Bytes(v).None? then None
            else Some([Byte0(group[0], group[1]), Byte1(group[1], group[2]), Byte2(group[2], group[3])]
                + Bytes(v).value)
  {
    hide Byte0;
    hide Byte1;
    hide Byte2;
    assert (group + v)[4..] == v;
  }

  /** The sextets of a whole group of three bytes. */
  function GroupOf(a: Byte, b: Byte, c: Byte): (g: seq<Sextet>)
    ensures |g| == 4
  {
    [S0(a), S1(a, b), S2(b, c), S3(c)]
  }

  lemma GroupRead(b: seq<Byte>, v: seq<Sextet>)
    requires |b| > 2
    ensures Sextets(b) == GroupOf(b[0], b[1], b[2]) + Sextets(b[3..])
    ensures Bytes(v) == Some(b[3..]) ==> Bytes(GroupOf(b[0], b[1], b[2]) + v) == Some(b)
  {
    Quantum(b[0], b[1], b[2]);
    NextGroup(GroupOf(b[0], b[1], b[2]), v);
    hide Byte0;
    hide Byte1;
    hide Byte2;
    hide S0;
    hide S1;
    hide S2;
    hide S3;
    hide Bytes;
    assert b == [b[0], b[1], b[2]] + b[3..];
  }

  lemma {:induction false} SextetsRead(b: seq<Byte>)
    ensures Bytes(Sextets(b)) == Some(b)
  {
    hide S0;
    hide S1;
    hide S2;
    hide S3;
    if b == [] {
    } else if |b| == 1 {
      PartialGroups(S0(b[0]), S1(b[0], 0), 0);
      Quantum(b[0], 0, 0);
      hide Bytes;
      assert b == [b[0]];
    } else if |b| == 2 {
      PartialGroups(S0(b[0]), S1(b[0], b[1]), S2(b[1], 0));
      Quantum(b[0], b[1], 0);
      hide Bytes;
      assert b == [b[0], b[1]];
    } else {
      hide Bytes;
      SextetsRead(b[3..]);
      GroupRead(b, Sextets(b[3..]));
    }
  }

  /** Decoding undoes encoding, for every string of bytes. */
  lemma DecodeEncode(b: seq<Byte>)
    ensures DecodeBytes(EncodeBytes(b)) == Some(b)
  {
    EncodingSpells(b);
    DigitsRead(Sextets(b));
    SextetsRead(b);
  }

  /** An id gives its reference back exactly when the repository id holds no NUL; names may. */
  lemma ParseID(r: Ref)
    ensures Parse(ID(r)) == Ok(r) <==> 0 !in r.repoId
    ensures Parse(ID(r)).Ok?
  {
    var raw := r.repoId + [0] + r.name;
    DecodeEncode(raw);
    var i := FirstNul(raw);
    assert forall k :: 0 <= k < |r.repoId| ==> raw[k] == r.repoId[k];
    assert raw[|r.repoId|] == 0;
    assert i <= |r.repoId|;
    if 0 !in r.repoId {
      assert forall k :: 0 <= k < |r.repoId| ==> raw[k] in r.repoId;
      assert raw[..i] == r.repoId && raw[i + 1..] == r.name;
    } else {
      var k :| 0 <= k < |r.repoId| && r.repoId[k] == 0;
      assert i <= k;
      assert |raw[..i]| < |r.repoId|;
    }
  }

  /** Different pipelines have different ids. */
  lemma IDsDistinct(a: Ref, b: Ref)
    requires 0 !in a.repoId && 0 !in b.repoId && ID(a) == ID(b)
    ensures a == b
  {
    ParseID(a);
    ParseID(b);
  }

  lemma {:induction false} TrailingLineEnd(s: string)
    ensures WithoutLineEnds(s + "\n") == WithoutLineEnds(s)
  {
    if s == "" {
      assert s + "\n" == "\n";
    } else {
      assert (s + "\n")[1..] == s[1..] + "\n";
      TrailingLineEnd(s[1..]);
    }
  }

  /** But the converse fails at every id: each reference has an id that parses to it and is not its own. */
  lemma ManySpellings(r: Ref)
    ensures exists id :: id != ID(r) && Parse(id) == Parse(ID(r))
  {
    TrailingLineEnd(ID(r));
    var id := ID(r) + "\n";
    assert |id| == |ID(r)| + 1;
    assert Parse(id) == Parse(ID(r));
  }

  /** Table 2 of RFC 4648, section 5. */
  const ALPHABET := "ABCDEFGHIJKLMNOPQRSTUVWXYZ" + "abcdefghijklmnopqrstuvwxyz" + "0123456789-_"

  lemma DigitIsLetter(s: Sextet)
    ensures Digit(s) == ALPHABET[s]
  {
    var upper, lower, others := "ABCDEFGHIJKLMNOPQRSTUVWXYZ", "abcdefghijklmnopqrstuvwxyz", "0123456789-_";
    assert upper == seq(26, i requires 0 <= i < 26 => Digit(i));
    assert lower == seq(26, i requires 0 <= i < 26 => Digit(26 + i));
    assert others == seq(12, i requires 0 <= i < 12 => Digit(52 + i));
    hide Digit;
    if s < 26 {
      assert ALPHABET[s] == upper[s];
    } else if s < 52 {
      assert ALPHABET[s] == lower[s - 26];
    } else {
      assert ALPHABET[s] == others[s - 52];
    }
  }

  /** The digits of three bytes read as a number of 24 bits, six bits each from the most significant on. */
  function GroupDigits(a: Byte, b: Byte, c: Byte): string {
    var n := a * 0x10000 + b * 0x100 + c;
    [ALPHABET[n / 0x40000], ALPHABET[n / 0x1000 % 64], ALPHABET[n / 64 % 64], ALPHABET[n % 64]]
  }

  lemma PlacesOf(s0: Sextet, s1: Sextet, s2: Sextet, s3: Sextet)
    ensures var n := s0 * 0x40000 + s1 * 0x1000 + s2 * 64 + s3;
            n / 0x40000 == s0 && n / 0x1000 % 64 == s1 && n / 64 % 64 == s2 && n % 64 == s3
  {
    var n := s0 * 0x40000 + s1 * 0x1000 + s2 * 64 + s3;
    assert n / 64 == s0 * 0x1000 + s1 * 64 + s2;
    assert n / 0x1000 == s0 * 64 + s1;
  }

  lemma NumberOfGroup(a: Byte, b: Byte, c: Byte)
    ensures a * 0x10000 + b * 0x100 + c == S0(a) * 0x40000 + S1(a, b) * 0x1000 + S2(b, c) * 64 + S3(c)
  {
    assert a == 4 * (a / 4) + a % 4;
    assert b == 16 * (b / 16) + b % 16;
    assert c == 64 * (c / 64) + c % 64;
  }

  lemma SextetsOfGroup(a: Byte, b: Byte, c: Byte)
    ensures var n := a * 0x10000 + b * 0x100 + c;
            n < 0x1000000 && GroupOf(a, b, c) == [n / 0x40000, n / 0x1000 % 64, n / 64 % 64, n % 64]
  {
    NumberOfGroup(a, b, c);
    hide S0;
    hide S1;
    hide S2;
    hide S3;
    PlacesOf(S0(a), S1(a, b), S2(b, c), S3(c));
  }

  lemma GroupSpelled(a: Byte, b: Byte, c: Byte)
    ensures Digits(GroupOf(a, b, c)) == GroupDigits(a, b, c)
  {
    SextetsOfGroup(a, b, c);
    var g := GroupOf(a, b, c);
    hide GroupOf;
    hide Digit;
    DigitIsLetter(g[0]);
    DigitIsLetter(g[1]);
    DigitIsLetter(g[2]);
    DigitIsLetter(g[3]);
  }

  /** The encoding takes three bytes at a time as one number of 24 bits and spells out four digits of it. */
  lemma WholeGroups(a: Byte, b: Byte, c: Byte, rest: seq<Byte>)
    ensures EncodeBytes([a, b, c] + rest) == GroupDigits(a, b, c) + EncodeBytes(rest)
  {
    GroupSpelled(a, b, c);
    var g := GroupOf(a, b, c);
    assert ([a, b, c] + rest)[3..] == rest;
    assert EncodeBytes([a, b, c] + rest) == Digits(g) + EncodeBytes(rest) by {
      hide GroupDigits;
      hide Digit;
    }
    hide *;
  }

  /** Of a last group of one or two bytes, filled up with zeros, it spells out two or three, and no padding. */
  lemma LastGroup(a: Byte, b: Byte)
    ensures EncodeBytes([]) == ""
    ensures EncodeBytes([a]) == GroupDigits(a, 0, 0)[..2]
    ensures EncodeBytes([a, b]) == GroupDigits(a, b, 0)[..3]
  {
    GroupSpelled(a, 0, 0);
    GroupSpelled(a, b, 0);
    LastDigits(a, b);
    hide *;
  }

  lemma LastDigits(a: Byte, b: Byte)
    ensures EncodeBytes([]) == ""
    ensures EncodeBytes([a]) == Digits(GroupOf(a, 0, 0))[..2]
    ensures EncodeBytes([a, b]) == Digits(GroupOf(a, b, 0))[..3]
  {
    hide Digit;
    hide S0;
    hide S1;
    hide S2;
    hide S3;
  }

  predicate IsLetter(c: char) {
    'A' <= c <= 'Z' || 'a' <= c <= 'z' || '0' <= c <= '9' || c == '-' || c == '_'
  }

  lemma {:induction false} ValuesFail(s: string)
    ensures Values(s).None? <==> exists k :: 0 <= k < |s| && !IsLetter(s[k])
    ensures Values(s).Some? ==> |Values(s).value| == |s|
  {
    if s != "" {
      ValuesFail(s[1..]);
      if k :| 0 <= k < |s| && !IsLetter(s[k]) {
        assert k > 0 ==> s[1..][k - 1] == s[k];
      }
    }
  }

  lemma {:induction false} LineEndsSkipped(s: string)
    ensures forall c :: c in WithoutLineEnds(s) <==> c in s && c != '\r' && c != '\n'
    ensures |WithoutLineEnds(s)| == Count(s, (c: char) => c != '\r' && c != '\n')
  {
    var kept := (c: char) => c != '\r' && c != '\n';
    if s == "" {
      CountNone(kept);
    } else {
      LineEndsSkipped(s[1..]);
      assert s == [s[0]] + s[1..];
      CountAfter(s[0], s[1..], kept);
      hide Count;
    }
  }

  lemma {:induction false} CountAfter<T>(x: T, s: seq<T>, p: T -> bool)
    ensures Count([x] + s, p) == (if p(x) then 1 else 0) + Count(s, p)
    decreases |s|
  {
    if s == [] {
      CountNone(p);
      CountMore([], x, p);
      assert [x] + s == [] + [x];
    } else {
      var init, last := s[..|s| - 1], s[|s| - 1];
      CountAfter(x, init, p);
      CountMore(init, last, p);
      CountMore([x] + init, last, p);
      assert s == init + [last] && [x] + s == [x] + init + [last];
      hide Count;
    }
  }

  lemma {:induction false} BytesFail(v: seq<Sextet>)
    ensures Bytes(v).None? <==> |v| % 4 == 1
  {
    if |v| > 3 {
      BytesFail(v[4..]);
      NextGroup(v[..4], v[4..]);
      assert v == v[..4] + v[4..] && |v| % 4 == |v[4..]| % 4;
      hide Bytes;
    }
  }

  /** An id decodes unless it holds a foreign character or, line ends apart, one character more than whole groups. */
  lemma DecodeFails(s: string)
    ensures DecodeBytes(s).None? <==>
            || (exists c :: c in s && !IsLetter(c) && c != '\r' && c != '\n')
            || Count(s, (c: char) => c != '\r' && c != '\n') % 4 == 1
  {
    var t := WithoutLineEnds(s);
    LineEndsSkipped(s);
    ValuesFail(t);
    if Values(t).Some? {
      BytesFail(Values(t).value);
    }
    if c :| c in s && !IsLetter(c) && c != '\r' && c != '\n' {
      assert c in t;
    }
    if k :| 0 <= k < |t| && !IsLetter(t[k]) {
      assert t[k] in t;
    }
    hide Count;
    hide Bytes;
    hide Values;
    hide WithoutLineEnds;
  }

  /** And then parses if it holds a NUL, the repository id being all before the first one. */
  lemma ParseReads(s: string)
    ensures Parse(s).Ok? <==> DecodeBytes(s).Some? && 0 in DecodeBytes(s).value
    ensures Parse(s).Ok? ==>
              var r := Parse(s).value; 0 !in r.repoId && r.repoId + [0] + r.name == DecodeBytes(s).value
  {
    hide DecodeBytes;
    var raw := DecodeBytes(s);
    if raw.Some? {
      var b, i := raw.value, FirstNul(raw.value);
      if i < |b| {
        assert b == b[..i] + [b[i]] + b[i + 1..];
        assert forall k :: 0 <= k < i ==> b[..i][k] == b[k];
      }
    }
  }
}
