/**
 The functions of Go's `strings` package that the parser uses, on byte strings: one `char`
 stands for one byte. Separators are single bytes, as in every call the parser makes.
 */
module GoStrings {

  /** strings.ReplaceAll: leftmost, non-overlapping occurrences. */
  function ReplaceAll(s: string, old_: string, new_: string): string
    requires |old_| > 0
  {
    if s == "" then ""
    else if old_ <= s then new_ + ReplaceAll(s[|old_|..], old_, new_)
    else [s[0]] + ReplaceAll(s[1..], old_, new_)
  }

  /** strings.Index for a one-byte needle: the first position, or -1. */
  function Index(s: string, c: char): (i: int)
    ensures -1 <= i < |s|
    ensures i == -1 <==> c !in s
    ensures i >= 0 ==> s[i] == c && c !in s[..i]
  {
    if s == "" then -1
    else if s[0] == c then 0
    else
      var j := Index(s[1..], c);
      assert j >= 0 ==> s[..j + 1] == [s[0]] + s[1..][..j];
      assert s == [s[0]] + s[1..];
      if j == -1 then -1 else j + 1
  }

  lemma IndexAt(a: string, c: char, b: string)
    requires c !in a
    ensures Index(a + [c] + b, c) == |a|
  {
    var s := a + [c] + b;
    assert s[|a|] == c;
    var i := Index(s, c);
    assert c in s;
    assert forall j | 0 <= j < |a| :: s[j] == a[j];
    assert forall j | |a| < j <= |s| :: s[..j][|a|] == c;
  }

  /** strings.Split on a one-byte separator. */
  function Split(s: string, sep: char): (parts: seq<string>)
    ensures |parts| > 0
    decreases |s|
  {
    var i := Index(s, sep);
    if i == -1 then [s] else [s[..i]] + Split(s[i + 1..], sep)
  }

  /** strings.SplitN(s, sep, 2) when the separator occurs: what precedes and what follows it. */
  function Cut(s: string, sep: char): (r: (string, string))
    requires sep in s
    ensures s == r.0 + [sep] + r.1 && sep !in r.0
  {
    var i := Index(s, sep);
    assert s == s[..i] + [s[i]] + s[i + 1..];
    (s[..i], s[i + 1..])
  }

  /** strings.Join with a one-byte separator. */
  function Join(parts: seq<string>, sep: char): (s: string)
    ensures parts != [] && parts[0] != "" ==> s != ""
  {
    if |parts| == 0 then ""
    else if |parts| == 1 then parts[0]
    else parts[0] + [sep] + Join(parts[1..], sep)
  }

  predicate IsSpace(c: char) {
    c == ' ' || c == '\t' || c == '\n' || c == '\r' || c == 11 as char || c == 12 as char
  }

  /** The longest prefix without white space. */
  function Word(s: string): (w: string)
    ensures w <= s
    ensures |w| == |s| || IsSpace(s[|w|])
  {
    if s == "" || IsSpace(s[0]) then "" else [s[0]] + Word(s[1..])
  }

  /** strings.Fields: the maximal runs of bytes that are not white space. */
  function Fields(s: string): seq<string>
    decreases |s|
  {
    if s == "" then []
    else if IsSpace(s[0]) then Fields(s[1..])
    else
      var w := Word(s);
      [w] + Fields(s[|w|..])
  }

  function UpperChar(c: char): char {
    if 'a' <= c <= 'z' then c - 'a' + 'A' else c
  }

  /** strings.ToUpper on ASCII letters. */
  function ToUpper(s: string): (r: string)
    ensures |r| == |s|
    ensures forall i | 0 <= i < |s| :: r[i] == UpperChar(s[i])
  {
    if s == "" then "" else [UpperChar(s[0])] + ToUpper(s[1..])
  }

  /** strings.TrimSuffix(s, "\r\n"). */
  function TrimCRLF(s: string): string {
    if |s| >= 2 && s[|s| - 2] == '\r' && s[|s| - 1] == '\n' then s[..|s| - 2] else s
  }

  // ---------- splitting and joining undo each other ----------

  lemma {:induction false} SplitPieces(s: string, sep: char)
    ensures forall p | p in Split(s, sep) :: sep !in p
    decreases |s|
  {
    var i := Index(s, sep);
    if i != -1 {
      SplitPieces(s[i + 1..], sep);
    }
  }

  lemma SplitAt(a: string, sep: char, b: string)
    requires sep !in a
    ensures Split(a + [sep] + b, sep) == [a] + Split(b, sep)
  {
    IndexAt(a, sep, b);
    var s := a + [sep] + b;
    assert s[..|a|] == a && s[|a| + 1..] == b;
  }

  lemma {:induction false} JoinSplit(s: string, sep: char)
    ensures Join(Split(s, sep), sep) == s
    decreases |s|
  {
    var i := Index(s, sep);
    if i != -1 {
      assert s == s[..i] + [sep] + s[i + 1..];
      assert Split(s, sep) == [s[..i]] + Split(s[i + 1..], sep);
      hide *;
      JoinSplit(s[i + 1..], sep);
      JoinCons(s[..i], Split(s[i + 1..], sep), sep);
    }
  }

  lemma {:induction false} JoinCons(head: string, tail: seq<string>, sep: char)
    requires tail != []
    ensures Join([head] + tail, sep) == head + [sep] + Join(tail, sep)
  {
    assert ([head] + tail)[1..] == tail;
  }

  lemma SplitConsJoin(head: string, tail: seq<string>, sep: char)
    requires sep !in head && tail != []
    ensures Split(Join([head] + tail, sep), sep) == [head] + Split(Join(tail, sep), sep)
  {
    JoinCons(head, tail, sep);
    SplitAt(head, sep, Join(tail, sep));
  }

  lemma SplitJoinStep(head: string, tail: seq<string>, last: string, sep: char)
    requires sep !in head
    requires Split(Join(tail + [last], sep), sep) == tail + Split(last, sep)
    ensures Split(Join([head] + tail + [last], sep), sep) == [head] + tail + Split(last, sep)
  {
    hide *;
    SplitConsJoin(head, tail + [last], sep);
    assert [head] + tail + [last] == [head] + (tail + [last]);
    assert [head] + tail + Split(last, sep) == [head] + (tail + Split(last, sep));
  }

  lemma SplitJoinNone(last: string, sep: char)
    ensures Split(Join([] + [last], sep), sep) == [] + Split(last, sep)
  {
    assert [] + [last] == [last];
    assert [] + Split(last, sep) == Split(last, sep);
  }

  /** Only the last of the joined pieces may hold the separator; it is then split further. */
  lemma {:induction false} SplitJoin(parts: seq<string>, last: string, sep: char)
    requires forall i | 0 <= i < |parts| :: sep !in parts[i]
    ensures Split(Join(parts + [last], sep), sep) == parts + Split(last, sep)
    decreases |parts|
  {
    hide *;
    if |parts| == 0 {
      assert parts == [];
      SplitJoinNone(last, sep);
    } else {
      SplitJoin(parts[1..], last, sep);
      SplitJoinStep(parts[0], parts[1..], last, sep);
      assert parts == [parts[0]] + parts[1..];
    }
  }

  lemma {:induction false} NotInJoin(parts: seq<string>, sep: char, c: char)
    requires c != sep
    requires forall p | p in parts :: c !in p
    ensures c !in Join(parts, sep)
  {
    if |parts| > 1 {
      NotInJoin(parts[1..], sep, c);
    }
  }
}
