/**
 Escaping of IRCv3 tag values (parser/message.go). Both directions are six successive
 ReplaceAll passes over the whole value. The theorems say what the passes amount to.
 */
module TagEscaping {
  import opened GoStrings

  function EscapeTagValue(value: string): string {
    var v := ReplaceAll(value, "\\", "\\\\");
    var v := ReplaceAll(v, ";", "\\:");
    var v := ReplaceAll(v, " ", "\\s");
    var v := ReplaceAll(v, "\r", "\\r");
    var v := ReplaceAll(v, "\n", "\\n");
    ReplaceAll(v, "\0", "\\0")
  }

  function UnescapeTagValue(value: string): string {
    var v := ReplaceAll(value, "\\:", ";");
    var v := ReplaceAll(v, "\\s", " ");
    var v := ReplaceAll(v, "\\\\", "\\");
    var v := ReplaceAll(v, "\\r", "\r");
    var v := ReplaceAll(v, "\\n", "\n");
    ReplaceAll(v, "\\0", "\0")
  }

  // ---------- the reference definitions ----------

  /** The escape of one byte. */
  function EscapeChar(c: char): string {
    match c
    case '\\' => "\\\\"
    case ';' => "\\:"
    case ' ' => "\\s"
    case '\r' => "\\r"
    case '\n' => "\\n"
    case '\0' => "\\0"
    case _ => [c]
  }

  function EscapeEach(v: string): string {
    if v == "" then "" else EscapeChar(v[0]) + EscapeEach(v[1..])
  }

  /** The bytes that form an escape when a backslash precedes them, apart from the backslash. */
  predicate IsEscapeLetter(c: char) {
    c == ':' || c == 's' || c == 'r' || c == 'n' || c == '0'
  }

  /** What the pair backslash-`c` stands for; an unknown escape stands for itself. */
  function DecodePair(c: char): string {
    match c
    case ':' => ";"
    case 's' => " "
    case '\\' => "\\"
    case 'r' => "\r"
    case 'n' => "\n"
    case '0' => "\0"
    case _ => ['\\', c]
  }

  /** A decoder that reads the value once, left to right. */
  function DecodeOnce(w: string): string {
    if w == "" then ""
    else if w[0] == '\\' && |w| >= 2 then DecodePair(w[1]) + DecodeOnce(w[2..])
    else [w[0]] + DecodeOnce(w[1..])
  }

  /** Values that survive a round trip: no backslash directly before an escape letter. */
  predicate RoundTripSafe(v: string) {
    forall i | 0 <= i < |v| - 1 :: v[i] == '\\' ==> !IsEscapeLetter(v[i + 1])
  }

  /** Read left to right, some doubled backslash stands directly before an escape letter. */
  predicate Ambiguous(w: string) {
    if w == "" then false
    else if w[0] == '\\' && |w| >= 2 then
      (w[1] == '\\' && |w| >= 3 && IsEscapeLetter(w[2])) || Ambiguous(w[2..])
    else Ambiguous(w[1..])
  }

  // ---------- escaping: six passes are one substitution ----------

  function Substitute(s: string, c: char, t: string): string {
    if s == "" then "" else (if s[0] == c then t else [s[0]]) + Substitute(s[1..], c, t)
  }

  lemma {:induction false} ReplaceOneByte(s: string, c: char, t: string)
    ensures ReplaceAll(s, [c], t) == Substitute(s, c, t)
  {
    if s != "" {
      ReplaceOneByte(s[1..], c, t);
    }
  }

  lemma ConcatAssoc(a: string, b: string, c: string)
    ensures a + (b + c) == a + b + c
  {
  }

  lemma {:induction false} SubstituteConcat(a: string, b: string, c: char, t: string)
    ensures Substitute(a + b, c, t) == Substitute(a, c, t) + Substitute(b, c, t)
  {
    if a == "" {
      assert a + b == b;
    } else {
      SubstituteConcat(a[1..], b, c, t);
      var head := if a[0] == c then t else [a[0]];
      assert (a + b)[0] == a[0] && (a + b)[1..] == a[1..] + b;
      ConcatAssoc(head, Substitute(a[1..], c, t), Substitute(b, c, t));
    }
  }

  /** The escape of one byte after the first `k` passes. */
  function EscapeStage(c: char, k: nat): string {
    if (c == '\\' && k >= 1) || (c == ';' && k >= 2) || (c == ' ' && k >= 3) ||
       (c == '\r' && k >= 4) || (c == '\n' && k >= 5) || (c == '\0' && k >= 6)
    then EscapeChar(c) else [c]
  }

  function EscapeStages(v: string, k: nat): string {
    if v == "" then "" else EscapeStage(v[0], k) + EscapeStages(v[1..], k)
  }

  function PassByte(k: nat): char {
    match k case 0 => '\\' case 1 => ';' case 2 => ' ' case 3 => '\r' case 4 => '\n' case _ => '\0'
  }

  lemma {:induction false} EscapePass(v: string, k: nat)
    requires k < 6
    ensures Substitute(EscapeStages(v, k), PassByte(k), EscapeChar(PassByte(k))) == EscapeStages(v, k + 1)
  {
    if v != "" {
      hide Substitute, EscapeStage, PassByte, EscapeChar;
      var c, t := PassByte(k), EscapeChar(PassByte(k));
      EscapePass(v[1..], k);
      SubstituteConcat(EscapeStage(v[0], k), EscapeStages(v[1..], k), c, t);
      EscapeByte(v[0], k);
    }
  }

  lemma SubstituteOne(x: char, c: char, t: string)
    ensures Substitute([x], c, t) == if x == c then t else [x]
  {
    assert [x][1..] == "" && Substitute("", c, t) == "";
  }

  lemma SubstituteNone(x: char, y: char, c: char, t: string)
    requires x != c && y != c
    ensures Substitute([x, y], c, t) == [x, y]
  {
    assert [x, y][1..] == [y];
    SubstituteOne(y, c, t);
  }

  /** Pass `k` escapes its own byte and leaves what the passes before it wrote. */
  lemma EscapeByte(c: char, k: nat)
    requires k < 6
    ensures Substitute(EscapeStage(c, k), PassByte(k), EscapeChar(PassByte(k))) == EscapeStage(c, k + 1)
  {
    var e := EscapeStage(c, k);
    if |e| == 1 {
      SubstituteOne(c, PassByte(k), EscapeChar(PassByte(k)));
    } else {
      SubstituteNone(e[0], e[1], PassByte(k), EscapeChar(PassByte(k)));
      assert e == [e[0], e[1]];
    }
    hide Substitute;
  }

  lemma {:induction false} EscapeStagesEnds(v: string)
    ensures EscapeStages(v, 0) == v
    ensures EscapeStages(v, 6) == EscapeEach(v)
  {
    if v != "" {
      EscapeStagesEnds(v[1..]);
    }
  }

  function EscapeOnePass(s: string, k: nat): string {
    ReplaceAll(s, [PassByte(k)], EscapeChar(PassByte(k)))
  }

  lemma EscapeOnePassOnStage(v: string, k: nat)
    requires k < 6
    ensures EscapeOnePass(EscapeStages(v, k), k) == EscapeStages(v, k + 1)
  {
    EscapePass(v, k);
    ReplaceOneByte(EscapeStages(v, k), PassByte(k), EscapeChar(PassByte(k)));
  }

  lemma EscapeIsSixPasses(v: string)
    ensures EscapeTagValue(v) ==
            EscapeOnePass(EscapeOnePass(EscapeOnePass(EscapeOnePass(EscapeOnePass(EscapeOnePass(v, 0), 1), 2), 3), 4), 5)
  {
    assert "\\" == [PassByte(0)] && ";" == [PassByte(1)] && " " == [PassByte(2)];
    assert "\r" == [PassByte(3)] && "\n" == [PassByte(4)] && "\0" == [PassByte(5)];
  }

  /** The six passes of escaping are the one per-byte substitution. */
  lemma EscapeIsOneSubstitution(v: string)
    ensures EscapeTagValue(v) == EscapeEach(v)
  {
    EscapeStagesEnds(v);
    EscapeIsSixPasses(v);
    EscapeOnePassOnStage(v, 0); EscapeOnePassOnStage(v, 1); EscapeOnePassOnStage(v, 2);
    EscapeOnePassOnStage(v, 3); EscapeOnePassOnStage(v, 4); EscapeOnePassOnStage(v, 5);
  }

  predicate NeedsEscape(c: char) {
    c == ';' || c == ' ' || c == '\r' || c == '\n' || c == '\0'
  }

  lemma {:induction false} EscapeEachIsClean(v: string)
    ensures forall c | c in EscapeEach(v) :: !NeedsEscape(c)
    ensures v != "" ==> EscapeEach(v) != ""
  {
    if v != "" {
      EscapeEachIsClean(v[1..]);
    }
  }

  /** An escaped value holds no byte that could end a tag, the tag section or the line. */
  lemma EscapedIsClean(v: string)
    ensures forall c | c in EscapeTagValue(v) :: !NeedsEscape(c)
    ensures v != "" ==> EscapeTagValue(v) != ""
  {
    EscapeIsOneSubstitution(v);
    EscapeEachIsClean(v);
  }

  // ---------- unescaping: when six passes are one left-to-right decoder ----------

  /** The `k`-th pass of unescaping replaces backslash-PassLetter(k). */
  function PassLetter(k: nat): char {
    match k case 0 => ':' case 1 => 's' case 2 => '\\' case 3 => 'r' case 4 => 'n' case _ => '0'
  }

  function UnescapePass(s: string, k: nat): string {
    ReplaceAll(s, ['\\', PassLetter(k)], DecodePair(PassLetter(k)))
  }

  lemma UnescapeIsSixPasses(w: string)
    ensures UnescapeTagValue(w) ==
            UnescapePass(UnescapePass(UnescapePass(UnescapePass(UnescapePass(UnescapePass(w, 0), 1), 2), 3), 4), 5)
  {
    assert "\\:" == ['\\', PassLetter(0)] && "\\s" == ['\\', PassLetter(1)] && "\\\\" == ['\\', PassLetter(2)];
    assert "\\r" == ['\\', PassLetter(3)] && "\\n" == ['\\', PassLetter(4)] && "\\0" == ['\\', PassLetter(5)];
  }

  /** Pair backslash-`c` once the first `k` passes have dealt with the escapes they know. */
  function DecodeStage(c: char, k: nat): string {
    if (c == ':' && k >= 1) || (c == 's' && k >= 2) || (c == '\\' && k >= 3) ||
       (c == 'r' && k >= 4) || (c == 'n' && k >= 5) || (c == '0' && k >= 6)
    then DecodePair(c) else ['\\', c]
  }

  function DecodeStages(w: string, k: nat): string {
    if w == "" then ""
    else if w[0] == '\\' && |w| >= 2 then DecodeStage(w[1], k) + DecodeStages(w[2..], k)
    else [w[0]] + DecodeStages(w[1..], k)
  }

  lemma {:induction false} DecodeStagesEnds(w: string)
    ensures DecodeStages(w, 0) == w
    ensures DecodeStages(w, 6) == DecodeOnce(w)
  {
    if w == "" {
    } else if w[0] == '\\' && |w| >= 2 {
      DecodeStagesEnds(w[2..]);
      assert w == [w[0], w[1]] + w[2..];
    } else {
      DecodeStagesEnds(w[1..]);
      assert w == [w[0]] + w[1..];
    }
  }

  lemma ReplaceSkip(c: char, s: string, old_: string, new_: string)
    requires |old_| == 2
    requires c != old_[0] || s == "" || s[0] != old_[1]
    ensures ReplaceAll([c] + s, old_, new_) == [c] + ReplaceAll(s, old_, new_)
  {
    var t := [c] + s;
    assert t[1..] == s;
    assert s != "" ==> t[1] == s[0];
  }

  lemma ReplaceHit(s: string, old_: string, new_: string)
    requires |old_| > 0
    ensures ReplaceAll(old_ + s, old_, new_) == new_ + ReplaceAll(s, old_, new_)
  {
    assert (old_ + s)[|old_|..] == s;
  }

  /** A decoded tail starts with the tail's own first byte, or with something that is no escape letter. */
  lemma DecodeStagesHead(w: string, k: nat)
    requires w != ""
    ensures DecodeStages(w, k) != ""
    ensures w[0] != '\\' ==> DecodeStages(w, k)[0] == w[0]
    ensures w[0] == '\\' ==> !IsEscapeLetter(DecodeStages(w, k)[0])
  {
  }

  lemma PassOnPair(c: char, tail: string, k: nat)
    requires k < 6
    requires c == '\\' && tail != "" ==> !IsEscapeLetter(tail[0])
    ensures UnescapePass(DecodeStage(c, k) + tail, k) == DecodeStage(c, k + 1) + UnescapePass(tail, k)
  {
    var old_, new_ := ['\\', PassLetter(k)], DecodePair(PassLetter(k));
    var d := DecodeStage(c, k);
    if c == PassLetter(k) {
      assert d == old_;
      ReplaceHit(tail, old_, new_);
    } else if |d| == 1 {
      ReplaceSkip(d[0], tail, old_, new_);
    } else {
      assert d + tail == ['\\'] + ([c] + tail);
      ReplaceSkip('\\', [c] + tail, old_, new_);
      ReplaceSkip(c, tail, old_, new_);
    }
  }

  lemma {:induction false} UnescapePassOnStage(w: string, k: nat)
    requires k < 6 && !Ambiguous(w)
    ensures UnescapePass(DecodeStages(w, k), k) == DecodeStages(w, k + 1)
  {
    if w == "" {
    } else if w[0] == '\\' && |w| >= 2 {
      UnescapePassOnStage(w[2..], k);
      if |w| > 2 {
        DecodeStagesHead(w[2..], k);
      }
      PassOnPair(w[1], DecodeStages(w[2..], k), k);
    } else {
      UnescapePassOnStage(w[1..], k);
      assert w[0] == '\\' ==> w[1..] == "";
      ReplaceSkip(w[0], DecodeStages(w[1..], k), ['\\', PassLetter(k)], DecodePair(PassLetter(k)));
    }
  }

  lemma UnescapeUnambiguous(w: string)
    requires !Ambiguous(w)
    ensures UnescapeTagValue(w) == DecodeOnce(w)
  {
    DecodeStagesEnds(w);
    UnescapeIsSixPasses(w);
    UnescapePassOnStage(w, 0); UnescapePassOnStage(w, 1); UnescapePassOnStage(w, 2);
    UnescapePassOnStage(w, 3); UnescapePassOnStage(w, 4); UnescapePassOnStage(w, 5);
  }

  // ---------- the range of unescaping ----------

  predicate NoPair(s: string, a: char, b: char) {
    forall i | 0 <= i < |s| - 1 :: !(s[i] == a && s[i + 1] == b)
  }

  lemma NoPairCons(c: char, s: string, a: char, b: char)
    ensures NoPair([c] + s, a, b) <==> NoPair(s, a, b) && !(c == a && s != "" && s[0] == b)
  {
    var t := [c] + s;
    assert t[1..] == s;
    if NoPair(s, a, b) && !(c == a && s != "" && s[0] == b) {
      forall i | 0 <= i < |t| - 1 ensures !(t[i] == a && t[i + 1] == b) {
        if i > 0 {
          assert t[i] == s[i - 1] && t[i + 1] == s[i];
        }
      }
    }
    if NoPair(t, a, b) {
      forall i | 0 <= i < |s| - 1 ensures !(s[i] == a && s[i + 1] == b) {
        assert s[i] == t[i + 1] && s[i + 1] == t[i + 2];
      }
      if s != "" {
        assert t[0] == c && t[1] == s[0];
      }
    }
  }

  /** A pass that turns `pq` into `z` leaves no `pq`, and creates no pair `ab` unless `z` could start or end one. */
  lemma {:induction false} PassKeepsNoPair(s: string, p: char, q: char, z: char, a: char, b: char)
    requires z != b && (z == a ==> q == a)
    requires (a == p && b == q) || NoPair(s, a, b)
    requires a == p && b == q ==> z != p
    ensures NoPair(ReplaceAll(s, [p, q], [z]), a, b)
    ensures var r := ReplaceAll(s, [p, q], [z]);
            r != "" ==> s != "" && (r[0] == z || r[0] == s[0])
    ensures var r := ReplaceAll(s, [p, q], [z]);
            |s| >= 2 && s[0] == p && s[1] == q ==> r != "" && r[0] == z
    decreases |s|
  {
    if s == "" {
    } else if [p, q] <= s {
      var rest := ReplaceAll(s[2..], [p, q], [z]);
      assert s == [s[0]] + ([s[1]] + s[2..]);
      NoPairCons(s[0], [s[1]] + s[2..], a, b);
      NoPairCons(s[1], s[2..], a, b);
      PassKeepsNoPair(s[2..], p, q, z, a, b);
      NoPairCons(z, rest, a, b);
    } else {
      var rest := ReplaceAll(s[1..], [p, q], [z]);
      assert s == [s[0]] + s[1..];
      NoPairCons(s[0], s[1..], a, b);
      PassKeepsNoPair(s[1..], p, q, z, a, b);
      NoPairCons(s[0], rest, a, b);
    }
  }

  /** Whatever the input, the result of unescaping is in the round-trip-safe set. */
  lemma UnescapeIsSafe(w: string)
    ensures RoundTripSafe(UnescapeTagValue(w))
  {
    var w1 := ReplaceAll(w, "\\:", ";");
    var w2 := ReplaceAll(w1, "\\s", " ");
    var w3 := ReplaceAll(w2, "\\\\", "\\");
    var w4 := ReplaceAll(w3, "\\r", "\r");
    var w5 := ReplaceAll(w4, "\\n", "\n");
    var w6 := ReplaceAll(w5, "\\0", "\0");
    PassKeepsNoPair(w, '\\', ':', ';', '\\', ':');
    PassKeepsNoPair(w1, '\\', 's', ' ', '\\', ':');
    PassKeepsNoPair(w1, '\\', 's', ' ', '\\', 's');
    PassKeepsNoPair(w2, '\\', '\\', '\\', '\\', ':');
    PassKeepsNoPair(w2, '\\', '\\', '\\', '\\', 's');
    PassKeepsNoPair(w3, '\\', 'r', '\r', '\\', ':');
    PassKeepsNoPair(w3, '\\', 'r', '\r', '\\', 's');
    PassKeepsNoPair(w3, '\\', 'r', '\r', '\\', 'r');
    PassKeepsNoPair(w4, '\\', 'n', '\n', '\\', ':');
    PassKeepsNoPair(w4, '\\', 'n', '\n', '\\', 's');
    PassKeepsNoPair(w4, '\\', 'n', '\n', '\\', 'r');
    PassKeepsNoPair(w4, '\\', 'n', '\n', '\\', 'n');
    PassKeepsNoPair(w5, '\\', '0', '\0', '\\', ':');
    PassKeepsNoPair(w5, '\\', '0', '\0', '\\', 's');
    PassKeepsNoPair(w5, '\\', '0', '\0', '\\', 'r');
    PassKeepsNoPair(w5, '\\', '0', '\0', '\\', 'n');
    PassKeepsNoPair(w5, '\\', '0', '\0', '\\', '0');
  }

  lemma {:induction false} AmbiguousDecodesUnsafe(w: string)
    requires Ambiguous(w)
    ensures !RoundTripSafe(DecodeOnce(w))
  {
    var d := DecodeOnce(w);
    if w[0] == '\\' && |w| >= 2 {
      var tail := DecodeOnce(w[2..]);
      if w[1] == '\\' && |w| >= 3 && IsEscapeLetter(w[2]) {
        assert d[0] == '\\' && d[1] == w[2];
      } else {
        AmbiguousDecodesUnsafe(w[2..]);
        var i :| 0 <= i < |tail| - 1 && tail[i] == '\\' && IsEscapeLetter(tail[i + 1]);
        var n := |DecodePair(w[1])|;
        assert d[n + i] == tail[i] && d[n + i + 1] == tail[i + 1];
      }
    } else {
      var tail := DecodeOnce(w[1..]);
      AmbiguousDecodesUnsafe(w[1..]);
      var i :| 0 <= i < |tail| - 1 && tail[i] == '\\' && IsEscapeLetter(tail[i + 1]);
      assert d[i + 1] == tail[i] && d[i + 2] == tail[i + 1];
    }
  }

  /** Main result: the six passes are the one-pass decoder on exactly the unambiguous inputs. */
  lemma UnescapeIsDecoderExactlyWhen(w: string)
    ensures UnescapeTagValue(w) == DecodeOnce(w) <==> !Ambiguous(w)
  {
    if Ambiguous(w) {
      AmbiguousDecodesUnsafe(w);
      UnescapeIsSafe(w);
    } else {
      UnescapeUnambiguous(w);
    }
  }

  /** In particular on every input without two adjacent backslashes. */
  lemma {:induction false} NoDoubleBackslashIsUnambiguous(w: string)
    requires NoPair(w, '\\', '\\')
    ensures !Ambiguous(w)
  {
    if w == "" {
    } else if w[0] == '\\' && |w| >= 2 {
      assert !(w[0] == '\\' && w[1] == '\\');
      forall i | 0 <= i < |w[2..]| - 1 ensures !(w[2..][i] == '\\' && w[2..][i + 1] == '\\') {
        assert w[2..][i] == w[i + 2] && w[2..][i + 1] == w[i + 3];
      }
      NoDoubleBackslashIsUnambiguous(w[2..]);
    } else {
      assert w == [w[0]] + w[1..];
      NoPairCons(w[0], w[1..], '\\', '\\');
      NoDoubleBackslashIsUnambiguous(w[1..]);
    }
  }

  // ---------- the round trip ----------

  lemma DecodeFirst(c: char, rest: string)
    ensures DecodeOnce(EscapeChar(c) + rest) == [c] + DecodeOnce(rest)
  {
    var e := EscapeChar(c);
    if |e| == 1 {
      assert (e + rest)[1..] == rest;
    } else {
      assert (e + rest)[2..] == rest;
    }
  }

  lemma {:induction false} DecodeEscape(v: string)
    ensures DecodeOnce(EscapeEach(v)) == v
  {
    if v != "" {
      hide DecodeOnce, EscapeChar;
      DecodeEscape(v[1..]);
      DecodeFirst(v[0], EscapeEach(v[1..]));
      assert v == [v[0]] + v[1..];
    } else {
      assert EscapeEach(v) == "";
    }
  }

  lemma AmbiguousPair(c: char, rest: string)
    ensures Ambiguous(['\\', c] + rest) <==> Ambiguous(rest) || (c == '\\' && rest != "" && IsEscapeLetter(rest[0]))
  {
    var w := ['\\', c] + rest;
    assert w[2..] == rest && (rest != "" ==> w[2] == rest[0]);
    hide IsEscapeLetter;
  }

  lemma AmbiguousPlain(c: char, rest: string)
    requires c != '\\'
    ensures Ambiguous([c] + rest) <==> Ambiguous(rest)
  {
    assert ([c] + rest)[1..] == rest;
  }

  lemma AmbiguousFirst(c: char, rest: string)
    ensures Ambiguous(EscapeChar(c) + rest) <==>
            Ambiguous(rest) || (c == '\\' && rest != "" && IsEscapeLetter(rest[0]))
  {
    hide Ambiguous, IsEscapeLetter;
    var e := EscapeChar(c);
    if |e| == 1 {
      AmbiguousPlain(c, rest);
    } else {
      assert e == ['\\', e[1]] && (e[1] == '\\' <==> c == '\\');
      AmbiguousPair(e[1], rest);
    }
  }

  lemma FirstEscaped(v: string)
    requires v != ""
    ensures EscapeEach(v) != "" && (IsEscapeLetter(EscapeEach(v)[0]) <==> IsEscapeLetter(v[0]))
  {
    assert EscapeEach(v)[0] == EscapeChar(v[0])[0];
  }

  lemma SafeTail(v: string)
    requires v != ""
    ensures RoundTripSafe(v) <==> RoundTripSafe(v[1..]) && !(v[0] == '\\' && |v| >= 2 && IsEscapeLetter(v[1]))
  {
    var t := v[1..];
    if RoundTripSafe(v) {
      forall i | 0 <= i < |t| - 1 ensures t[i] == '\\' ==> !IsEscapeLetter(t[i + 1]) {
        assert t[i] == v[i + 1] && t[i + 1] == v[i + 2];
      }
    }
    if RoundTripSafe(t) && !(v[0] == '\\' && |v| >= 2 && IsEscapeLetter(v[1])) {
      forall i | 0 <= i < |v| - 1 ensures v[i] == '\\' ==> !IsEscapeLetter(v[i + 1]) {
        if i > 0 {
          assert t[i - 1] == v[i] && t[i] == v[i + 1];
        }
      }
    }
  }

  lemma {:induction false} EscapeAmbiguous(v: string)
    ensures Ambiguous(EscapeEach(v)) <==> !RoundTripSafe(v)
  {
    if v != "" {
      hide Ambiguous, EscapeChar, RoundTripSafe, IsEscapeLetter;
      var rest := EscapeEach(v[1..]);
      EscapeAmbiguous(v[1..]);
      AmbiguousFirst(v[0], rest);
      if |v| >= 2 {
        FirstEscaped(v[1..]);
      }
      SafeTail(v);
    }
  }

  /** Main result: a value survives escaping and unescaping exactly when it is round-trip safe. */
  lemma RoundTripExactlyWhenSafe(v: string)
    ensures UnescapeTagValue(EscapeTagValue(v)) == v <==> RoundTripSafe(v)
  {
    EscapeIsOneSubstitution(v);
    DecodeEscape(v);
    EscapeAmbiguous(v);
    UnescapeIsDecoderExactlyWhen(EscapeEach(v));
  }

  /** So one round of unescaping reaches a fixed point. */
  lemma UnescapeNormalises(w: string)
    ensures UnescapeTagValue(EscapeTagValue(UnescapeTagValue(w))) == UnescapeTagValue(w)
  {
    UnescapeIsSafe(w);
    RoundTripExactlyWhenSafe(UnescapeTagValue(w));
  }

  /** A value that does not survive: a backslash, then the letter n, comes back as a line feed. */
  lemma RoundTripFails()
    ensures UnescapeTagValue(EscapeTagValue("\\n")) != "\\n"
  {
    RoundTripExactlyWhenSafe("\\n");
    assert "\\n"[0] == '\\' && IsEscapeLetter("\\n"[1]);
  }
}
