/**
 UTF-8 validity of byte strings, as utf8.ValidString decides it (section 4 of RFC 3629), and the
 operations of the codec that keep it.
 */
module Utf8 {
  import opened GoStrings
  import opened TagEscaping

  predicate InRange(c: char, lo: int, hi: int) {
    lo <= c as int <= hi
  }

  predicate Ascii(c: char) {
    c as int < 0x80
  }

  /** Length of the well-formed encoding at the start of `s`; 0 when there is none. */
  function RuneLen(s: string): (n: nat)
    ensures n <= |s|
    ensures s != "" && Ascii(s[0]) ==> n == 1
    ensures n > 1 ==> forall i | 0 <= i < n :: !Ascii(s[i])
  {
    if s == "" then 0
    else if Ascii(s[0]) then 1
    else if InRange(s[0], 0xC2, 0xDF) then
      if |s| >= 2 && InRange(s[1], 0x80, 0xBF) then 2 else 0
    else if InRange(s[0], 0xE0, 0xEF) then
      if |s| >= 3 && InRange(s[2], 0x80, 0xBF) &&
         InRange(s[1], if s[0] as int == 0xE0 then 0xA0 else 0x80, if s[0] as int == 0xED then 0x9F else 0xBF)
      then 3 else 0
    else if InRange(s[0], 0xF0, 0xF4) then
      if |s| >= 4 && InRange(s[2], 0x80, 0xBF) && InRange(s[3], 0x80, 0xBF) &&
         InRange(s[1], if s[0] as int == 0xF0 then 0x90 else 0x80, if s[0] as int == 0xF4 then 0x8F else 0xBF)
      then 4 else 0
    else 0
  }

  predicate ValidUtf8(s: string) {
    s == "" || (RuneLen(s) > 0 && ValidUtf8(s[RuneLen(s)..]))
  }

  // ---------- runes ----------

  const REPLACEMENT := 0xFFFD as char

  /** The rune at the start of `s` and how many bytes it takes; an invalid byte reads as U+FFFD. */
  function DecodeRune(s: string): (r: (char, nat))
    requires s != ""
    ensures 1 <= r.1 <= |s|
  {
    var n := RuneLen(s);
    if n == 0 then (REPLACEMENT, 1)
    else if n == 1 then (s[0], 1)
    else if n == 2 then (((s[0] as int - 0xC0) * 0x40 + (s[1] as int - 0x80)) as char, 2)
    else if n == 3 then
      (((s[0] as int - 0xE0) * 0x1000 + (s[1] as int - 0x80) * 0x40 + (s[2] as int - 0x80)) as char, 3)
    else
      (((s[0] as int - 0xF0) * 0x40000 + (s[1] as int - 0x80) * 0x1000
        + (s[2] as int - 0x80) * 0x40 + (s[3] as int - 0x80)) as char, 4)
  }

  /** What `range` over a string yields. */
  function Runes(s: string): seq<char>
    decreases |s|
  {
    if s == "" then []
    else
      var (c, n) := DecodeRune(s);
      [c] + Runes(s[n..])
  }

  /** The bytes string([]rune{c}) writes. */
  function EncodeRune(c: char): (s: string)
    ensures s != ""
    ensures Ascii(c) ==> s == [c]
    ensures !Ascii(c) ==> |s| > 1
  {
    var v := c as int;
    var hi := v / 0x40;
    var top := hi / 0x40;
    if v < 0x80 then [c]
    else if v < 0x800 then [Byte(0xC0, hi), Tail(v)]
    else if v < 0x1_0000 then [Byte(0xE0, top), Tail(hi), Tail(v)]
    else [Byte(0xF0, top / 0x40), Tail(top), Tail(hi), Tail(v)]
  }

  function Byte(base: nat, bits: nat): (c: char)
    requires base + bits < 0x100
    ensures c as int == base + bits
  {
    (base + bits) as char
  }

  /** A continuation byte with the six low bits of `bits`. */
  function Tail(bits: nat): (c: char)
    ensures c as int == 0x80 + bits % 0x40
  {
    (0x80 + bits % 0x40) as char
  }

  lemma DecodeTwo(v: nat, s: string)
    requires 0x80 <= v < 0x800 && |s| >= 2
    requires s[0] == Byte(0xC0, v / 0x40) && s[1] == Tail(v)
    ensures DecodeRune(s) == (v as char, 2)
  {
  }

  lemma DecodeThree(v: nat, s: string)
    requires 0x800 <= v < 0x1_0000 && !(0xD800 <= v < 0xE000) && |s| >= 3
    requires s[0] == Byte(0xE0, v / 0x40 / 0x40) && s[1] == Tail(v / 0x40) && s[2] == Tail(v)
    ensures DecodeRune(s) == (v as char, 3)
  {
    var hi := v / 0x40;
    var top := hi / 0x40;
    assert v == hi * 0x40 + v % 0x40 && hi == top * 0x40 + hi % 0x40;
    assert RuneLen(s) == 3;
  }

  lemma DecodeFour(v: nat, s: string)
    requires 0x1_0000 <= v < 0x11_0000 && |s| >= 4
    requires s[0] == Byte(0xF0, v / 0x40 / 0x40 / 0x40) && s[1] == Tail(v / 0x40 / 0x40) && s[2] == Tail(v / 0x40) && s[3] == Tail(v)
    ensures DecodeRune(s) == (v as char, 4)
  {
    var hi := v / 0x40;
    var top := hi / 0x40;
    var lead := top / 0x40;
    assert v == hi * 0x40 + v % 0x40 && hi == top * 0x40 + hi % 0x40 && top == lead * 0x40 + top % 0x40;
    assert RuneLen(s) == 4;
  }

  /** A rune written is the rune read back. */
  lemma DecodeEncoded(c: char, rest: string)
    ensures DecodeRune(EncodeRune(c) + rest) == (c, |EncodeRune(c)|)
  {
    var v, s := c as int, EncodeRune(c) + rest;
    assert forall i | 0 <= i < |EncodeRune(c)| :: s[i] == EncodeRune(c)[i];
    hide DecodeRune, RuneLen;
    if v < 0x80 {
      DecodeAscii(s);
    } else if v < 0x800 {
      DecodeTwo(v, s);
    } else if v < 0x1_0000 {
      DecodeThree(v, s);
    } else {
      DecodeFour(v, s);
    }
  }

  lemma DecodeAscii(s: string)
    requires s != "" && Ascii(s[0])
    ensures DecodeRune(s) == (s[0], 1)
  {
  }

  function EncodeRunes(rs: seq<char>): string {
    if rs == [] then "" else EncodeRune(rs[0]) + EncodeRunes(rs[1..])
  }

  lemma {:induction false} RunesOfEncoded(rs: seq<char>)
    ensures Runes(EncodeRunes(rs)) == rs
  {
    if rs != [] {
      hide EncodeRune, DecodeRune;
      var first, rest := EncodeRune(rs[0]), EncodeRunes(rs[1..]);
      DecodeEncoded(rs[0], rest);
      assert (first + rest)[|first|..] == rest;
      RunesOfEncoded(rs[1..]);
    }
  }

  /** A rune read is the rune that was written. */
  lemma EncodeDecoded(s: string)
    requires RuneLen(s) > 0
    ensures EncodeRune(DecodeRune(s).0) == s[..RuneLen(s)] && DecodeRune(s).1 == RuneLen(s)
  {
    var n := RuneLen(s);
    if n == 1 {
      assert s[..1] == [s[0]];
    } else if n == 2 {
      EncodeTwo(s);
    } else if n == 3 {
      EncodeThree(s);
    } else {
      EncodeFour(s);
    }
  }

  lemma EncodeTwo(s: string)
    requires RuneLen(s) == 2
    ensures EncodeRune(DecodeRune(s).0) == s[..2]
  {
    var a, b := s[0] as int - 0xC0, s[1] as int - 0x80;
    var v := a * 0x40 + b;
    assert v / 0x40 == a && v % 0x40 == b;
    assert s[..2] == [s[0], s[1]];
  }

  lemma EncodeThree(s: string)
    requires RuneLen(s) == 3
    ensures EncodeRune(DecodeRune(s).0) == s[..3]
  {
    var a, b, c := s[0] as int - 0xE0, s[1] as int - 0x80, s[2] as int - 0x80;
    var v := a * 0x1000 + b * 0x40 + c;
    assert v / 0x40 == a * 0x40 + b && v % 0x40 == c;
    assert (a * 0x40 + b) / 0x40 == a && (a * 0x40 + b) % 0x40 == b;
    assert s[..3] == [s[0], s[1], s[2]];
  }

  lemma EncodeFour(s: string)
    requires RuneLen(s) == 4
    ensures EncodeRune(DecodeRune(s).0) == s[..4]
  {
    var a, b, c, d := s[0] as int - 0xF0, s[1] as int - 0x80, s[2] as int - 0x80, s[3] as int - 0x80;
    var v := a * 0x40000 + b * 0x1000 + c * 0x40 + d;
    assert v / 0x40 == a * 0x1000 + b * 0x40 + c && v % 0x40 == d;
    assert (a * 0x1000 + b * 0x40 + c) / 0x40 == a * 0x40 + b && (a * 0x1000 + b * 0x40 + c) % 0x40 == c;
    assert (a * 0x40 + b) / 0x40 == a && (a * 0x40 + b) % 0x40 == b;
    assert s[..4] == [s[0], s[1], s[2], s[3]];
  }

  /** Main result: the valid strings are exactly those that some sequence of runes is written as. */
  lemma {:induction false} ValidExactlyWhen(s: string)
    ensures ValidUtf8(s) <==> exists rs :: EncodeRunes(rs) == s
  {
    hide EncodeRune, DecodeRune, RuneLen;
    if ValidUtf8(s) {
      var rs := WrittenAs(s);
      assert EncodeRunes(rs) == s;
    }
    forall rs | EncodeRunes(rs) == s ensures ValidUtf8(s) {
      EncodedValid(rs);
    }
  }

  lemma {:induction false} WrittenAs(s: string) returns (rs: seq<char>)
    requires ValidUtf8(s)
    ensures EncodeRunes(rs) == s
    decreases |s|
  {
    hide EncodeRune, DecodeRune, RuneLen;
    if s == "" {
      rs := [];
    } else {
      ValidStart(s);
      EncodeDecoded(s);
      var n := RuneLen(s);
      var rest := WrittenAs(s[n..]);
      rs := [DecodeRune(s).0] + rest;
      assert rs[1..] == rest && s == s[..n] + s[n..];
    }
  }

  lemma {:induction false} EncodedValid(rs: seq<char>)
    ensures ValidUtf8(EncodeRunes(rs))
  {
    if rs != [] {
      hide EncodeRune, DecodeRune, RuneLen, ValidUtf8;
      var first, rest := EncodeRune(rs[0]), EncodeRunes(rs[1..]);
      EncodedLen(rs[0], rest);
      assert (first + rest)[|first|..] == rest;
      EncodedValid(rs[1..]);
      ValidFrom(first + rest, |first|);
    }
  }

  lemma EncodedLen(c: char, rest: string)
    ensures RuneLen(EncodeRune(c) + rest) == |EncodeRune(c)|
  {
    var s := EncodeRune(c) + rest;
    assert forall i | 0 <= i < |EncodeRune(c)| :: s[i] == EncodeRune(c)[i];
  }

  lemma RuneLenPrefix(a: string, b: string)
    requires RuneLen(a) > 0
    ensures RuneLen(a + b) == RuneLen(a)
  {
    assert forall i | 0 <= i < |a| :: (a + b)[i] == a[i];
  }

  lemma ValidFrom(s: string, n: nat)
    requires n == RuneLen(s) && n > 0
    ensures ValidUtf8(s) <==> ValidUtf8(s[n..])
  {
  }

  lemma ValidStart(s: string)
    requires ValidUtf8(s) && s != ""
    ensures RuneLen(s) > 0
  {
    hide RuneLen;
  }

  lemma {:induction false} ValidConcat(a: string, b: string)
    requires ValidUtf8(a) && ValidUtf8(b)
    ensures ValidUtf8(a + b)
    decreases |a|
  {
    hide *;
    if a == "" {
      assert a + b == b;
    } else {
      var n := RuneLen(a);
      ValidStart(a);
      RuneLenPrefix(a, b);
      ValidFrom(a, n);
      ValidConcat(a[n..], b);
      assert (a + b)[n..] == a[n..] + b;
      ValidFrom(a + b, n);
    }
  }

  lemma ValidAscii(c: char)
    requires Ascii(c)
    ensures ValidUtf8([c])
  {
    assert [c][1..] == "";
  }

  lemma ValidTail(c: char, s: string)
    requires Ascii(c)
    ensures ValidUtf8([c] + s) <==> ValidUtf8(s)
  {
    assert ([c] + s)[1..] == s;
  }

  /** A valid string may be cut at any ASCII byte. */
  lemma {:induction false} ValidCut(a: string, c: char, b: string)
    requires Ascii(c) && ValidUtf8(a + [c] + b)
    ensures ValidUtf8(a) && ValidUtf8(b)
    decreases |a|
  {
    var s := a + [c] + b;
    if a == "" {
      assert s == [c] + b;
      ValidTail(c, b);
    } else {
      var n := RuneLen(s);
      assert s[|a|] == c;
      assert n <= |a|;
      assert forall i | 0 <= i < n :: a[i] == s[i];
      assert RuneLen(a) == n;
      assert s[n..] == a[n..] + [c] + b;
      ValidCut(a[n..], c, b);
    }
  }

  lemma {:induction false} ValidSplit(s: string, sep: char)
    requires Ascii(sep) && ValidUtf8(s)
    ensures forall p | p in Split(s, sep) :: ValidUtf8(p)
    decreases |s|
  {
    var i := Index(s, sep);
    if i != -1 {
      assert s == s[..i] + [sep] + s[i + 1..];
      ValidCut(s[..i], sep, s[i + 1..]);
      ValidSplit(s[i + 1..], sep);
    }
  }

  lemma {:induction false} ValidJoin(parts: seq<string>, sep: char)
    requires Ascii(sep) && forall p | p in parts :: ValidUtf8(p)
    ensures ValidUtf8(Join(parts, sep))
  {
    if |parts| == 1 {
      assert parts[0] in parts;
    } else if |parts| > 1 {
      assert forall p | p in parts[1..] :: p in parts;
      ValidJoin(parts[1..], sep);
      ValidAscii(sep);
      ValidConcat(parts[0], [sep]);
      ValidConcat(parts[0] + [sep], Join(parts[1..], sep));
    }
  }

  lemma {:induction false} ValidUpper(s: string)
    requires ValidUtf8(s)
    ensures ValidUtf8(ToUpper(s))
    decreases |s|
  {
    if s != "" {
      var n, u := RuneLen(s), ToUpper(s);
      assert RuneLen(u) == n;
      assert u[n..] == ToUpper(s[n..]);
      ValidUpper(s[n..]);
    }
  }

  // ---------- escaping and unescaping ----------

  lemma {:induction false} EscapeEachConcat(a: string, b: string)
    ensures EscapeEach(a + b) == EscapeEach(a) + EscapeEach(b)
  {
    hide EscapeChar;
    if a == "" {
      assert a + b == b;
    } else {
      EscapeEachConcat(a[1..], b);
      assert (a + b)[0] == a[0] && (a + b)[1..] == a[1..] + b;
      ConcatAssoc(EscapeChar(a[0]), EscapeEach(a[1..]), EscapeEach(b));
    }
  }

  lemma {:induction false} EscapeEachNonAscii(a: string)
    requires forall i | 0 <= i < |a| :: !Ascii(a[i])
    ensures EscapeEach(a) == a
  {
    if a != "" {
      EscapeEachNonAscii(a[1..]);
    }
  }

  lemma ValidRune(s: string)
    requires s != "" && RuneLen(s) > 0
    ensures ValidUtf8(s[..RuneLen(s)])
  {
    var n := RuneLen(s);
    var r := s[..n];
    assert forall i | 0 <= i < n :: r[i] == s[i];
    assert RuneLen(r) == n;
    assert r[n..] == "";
  }

  lemma ValidEscapeChar(c: char)
    requires Ascii(c)
    ensures ValidUtf8(EscapeChar(c))
  {
    var e := EscapeChar(c);
    ValidAscii(e[0]);
    if |e| == 2 {
      assert e == [e[0]] + [e[1]];
      ValidAscii(e[1]);
      ValidTail(e[0], [e[1]]);
    } else {
      assert e == [e[0]];
    }
  }

  lemma EscapeEachRune(v: string)
    requires v != "" && RuneLen(v) > 1
    ensures EscapeEach(v) == v[..RuneLen(v)] + EscapeEach(v[RuneLen(v)..])
  {
    var n := RuneLen(v);
    assert v == v[..n] + v[n..];
    EscapeEachConcat(v[..n], v[n..]);
    EscapeEachNonAscii(v[..n]);
  }

  lemma {:induction false} ValidEscapeEach(v: string)
    requires ValidUtf8(v)
    ensures ValidUtf8(EscapeEach(v))
    decreases |v|
  {
    if v == "" {
    } else if Ascii(v[0]) {
      ValidEscapeChar(v[0]);
      ValidEscapeEach(v[1..]);
      ValidConcat(EscapeChar(v[0]), EscapeEach(v[1..]));
    } else {
      var n := RuneLen(v);
      ValidEscapeEach(v[n..]);
      EscapeEachRune(v);
      ValidRune(v);
      ValidConcat(v[..n], EscapeEach(v[n..]));
    }
  }

  lemma {:induction false} ReplaceSkipNonAscii(a: string, s: string, old_: string, new_: string)
    requires |old_| > 0 && Ascii(old_[0])
    requires forall i | 0 <= i < |a| :: !Ascii(a[i])
    ensures ReplaceAll(a + s, old_, new_) == a + ReplaceAll(s, old_, new_)
    decreases |a|
  {
    if a == "" {
      assert a + s == s;
    } else {
      assert (a + s)[1..] == a[1..] + s;
      ReplaceSkipNonAscii(a[1..], s, old_, new_);
      assert (a + s)[0] == a[0];
      assert !(old_ <= a + s);
    }
  }

  lemma {:induction false} ValidReplace(s: string, p: char, q: char, z: char)
    requires ValidUtf8(s) && Ascii(p) && Ascii(q) && Ascii(z)
    ensures ValidUtf8(ReplaceAll(s, [p, q], [z]))
    decreases |s|
  {
    if s == "" {
    } else if [p, q] <= s {
      assert s[0] == p && s[1] == q;
      assert s[1..] == [q] + s[2..];
      ValidTail(q, s[2..]);
      ValidReplace(s[2..], p, q, z);
      ValidTail(z, ReplaceAll(s[2..], [p, q], [z]));
    } else if Ascii(s[0]) {
      ValidReplace(s[1..], p, q, z);
      ValidTail(s[0], ReplaceAll(s[1..], [p, q], [z]));
    } else {
      var n := RuneLen(s);
      assert s == s[..n] + s[n..];
      ReplaceSkipNonAscii(s[..n], s[n..], [p, q], [z]);
      ValidReplace(s[n..], p, q, z);
      ValidRune(s);
      ValidConcat(s[..n], ReplaceAll(s[n..], [p, q], [z]));
    }
  }

  lemma ValidEscape(v: string)
    requires ValidUtf8(v)
    ensures ValidUtf8(EscapeTagValue(v))
  {
    EscapeIsOneSubstitution(v);
    ValidEscapeEach(v);
  }

  lemma ValidUnescape(w: string)
    requires ValidUtf8(w)
    ensures ValidUtf8(UnescapeTagValue(w))
  {
    var w1 := ReplaceAll(w, "\\:", ";");
    var w2 := ReplaceAll(w1, "\\s", " ");
    var w3 := ReplaceAll(w2, "\\\\", "\\");
    var w4 := ReplaceAll(w3, "\\r", "\r");
    var w5 := ReplaceAll(w4, "\\n", "\n");
    ValidReplace(w, '\\', ':', ';');
    ValidReplace(w1, '\\', 's', ' ');
    ValidReplace(w2, '\\', '\\', '\\');
    ValidReplace(w3, '\\', 'r', '\r');
    ValidReplace(w4, '\\', 'n', '\n');
    ValidReplace(w5, '\\', '0', '\0');
  }
}
