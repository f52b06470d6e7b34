/**
 Channel prefixes: PREFIX from ISUPPORT (client/state.go), NAMES entries (client/client.go), and the
 prefix string of a user (parser/types.go).
 */
module Prefixes {
  import opened GoStrings
  import opened Utf8
  import opened Message
  import opened Modes

  type PrefixMap = map<char, char>

  const DEFAULT_PREFIXES: PrefixMap := map['@' := 'o', '+' := 'v']

  // ---------- PREFIX ----------

  function Zip(prefixes: string, modes: string): PrefixMap
    requires |prefixes| == |modes|
  {
    var n := |modes|;
    if n == 0 then map[] else Zip(prefixes[..n - 1], modes[..n - 1])[prefixes[n - 1] := modes[n - 1]]
  }

  /** None when the value is refused. */
  function ParsePrefixes(value: string): Option<PrefixMap> {
    var close := Index(value, ')');
    if value == "" || close == -1 || value[0] != '(' then None
    else
      var modes, prefixes := value[1..close], value[close + 1..];
      if |modes| != |prefixes| then None else Some(Zip(prefixes, modes))
  }

  predicate Injective(m: PrefixMap) {
    forall a, b :: a in m && b in m && m[a] == m[b] ==> a == b
  }

  predicate AllDifferent(s: string) {
    forall i, j :: 0 <= i < j < |s| ==> s[i] != s[j]
  }

  lemma {:induction false} ZipFrom(prefixes: string, modes: string)
    requires |prefixes| == |modes|
    ensures forall p :: p in Zip(prefixes, modes) ==>
              exists i :: 0 <= i < |modes| && prefixes[i] == p && modes[i] == Zip(prefixes, modes)[p]
  {
    var n := |modes|;
    if n > 0 {
      var before := Zip(prefixes[..n - 1], modes[..n - 1]);
      ZipFrom(prefixes[..n - 1], modes[..n - 1]);
      forall p | p in Zip(prefixes, modes)
        ensures exists i :: 0 <= i < n && prefixes[i] == p && modes[i] == Zip(prefixes, modes)[p]
      {
        if p == prefixes[n - 1] {
          assert modes[n - 1] == Zip(prefixes, modes)[p];
        } else {
          var i :| 0 <= i < n - 1 && prefixes[..n - 1][i] == p && modes[..n - 1][i] == before[p];
          assert prefixes[i] == p && modes[i] == Zip(prefixes, modes)[p];
        }
      }
    }
  }

  /** Pairwise distinct modes give each mode one prefix. */
  lemma DistinctModesAreInjective(prefixes: string, modes: string)
    requires |prefixes| == |modes| && AllDifferent(modes)
    ensures Injective(Zip(prefixes, modes))
  {
    var m := Zip(prefixes, modes);
    ZipFrom(prefixes, modes);
    forall a, b | a in m && b in m && m[a] == m[b] ensures a == b {
      var i :| 0 <= i < |modes| && prefixes[i] == a && modes[i] == m[a];
      var j :| 0 <= j < |modes| && prefixes[j] == b && modes[j] == m[b];
      assert i == j;
    }
  }

  // ---------- NAMES entries ----------

  /** The leading prefix characters of an entry. */
  function Leading(entry: string, m: PrefixMap): (r: string)
    ensures r <= entry && (forall c | c in r :: c in m)
    ensures |r| < |entry| ==> entry[|r|] !in m
  {
    if entry == "" || entry[0] !in m then "" else [entry[0]] + Leading(entry[1..], m)
  }

  function CleanNick(entry: string, m: PrefixMap): string {
    entry[|Leading(entry, m)|..]
  }

  function ModesOf(prefixes: string, m: PrefixMap): seq<char>
    requires forall c | c in prefixes :: c in m
  {
    seq(|prefixes|, i requires 0 <= i < |prefixes| => m[prefixes[i]])
  }

  lemma LeadingStep(entry: string, m: PrefixMap)
    ensures entry == "" || entry[0] !in m ==> CleanNick(entry, m) == entry && ModesOf(Leading(entry, m), m) == []
    ensures entry != "" && entry[0] in m ==>
              CleanNick(entry, m) == CleanNick(entry[1..], m)
              && ModesOf(Leading(entry, m), m) == [m[entry[0]]] + ModesOf(Leading(entry[1..], m), m)
  {
  }

  function AddModes(modes: seq<ModeEntry>, letters: seq<char>): seq<ModeEntry> {
    var n := |letters|;
    if n == 0 then modes else WithMode(AddModes(modes, letters[..n - 1]), letters[n - 1], "")
  }

  /** The modes a user gets from its NAMES entry. */
  function EntryModes(entry: string, m: PrefixMap): seq<ModeEntry> {
    AddModes([], ModesOf(Leading(entry, m), m))
  }

  // ---------- the prefix string ----------

  /** `reverse` maps each mode to one of its prefixes: what filling the reverse map in some order gives. */
  predicate Reverses(reverse: map<char, char>, m: PrefixMap) {
    && reverse.Keys == m.Values
    && forall mode | mode in reverse :: reverse[mode] in m && m[reverse[mode]] == mode
  }

  function Render(modes: seq<ModeEntry>, reverse: map<char, char>): string {
    var n := |modes|;
    if n == 0 then ""
    else
      Render(modes[..n - 1], reverse) +
      if modes[n - 1].letter in reverse then EncodeRune(reverse[modes[n - 1].letter]) else ""
  }

  /** Every prefix is one byte when it is written. */
  predicate AsciiPrefixes(m: PrefixMap) {
    forall p | p in m :: Ascii(p)
  }

  /** Repeats removed; the first occurrence stays. */
  function Once(s: string): string {
    var n := |s|;
    if n == 0 then ""
    else
      var before := Once(s[..n - 1]);
      if s[n - 1] in s[..n - 1] then before else before + [s[n - 1]]
  }

  lemma RenderSnoc(modes: seq<ModeEntry>, e: ModeEntry, reverse: map<char, char>)
    ensures Render(modes + [e], reverse) ==
            Render(modes, reverse) + if e.letter in reverse then EncodeRune(reverse[e.letter]) else ""
  {
    assert (modes + [e])[..|modes|] == modes;
  }

  lemma {:induction false} AddedLetters(prefixes: string, m: PrefixMap, l: char)
    requires forall c | c in prefixes :: c in m
    ensures l in Letters(AddModes([], ModesOf(prefixes, m))) <==> exists c :: c in prefixes && m[c] == l
    decreases |prefixes|
  {
    var n := |prefixes|;
    var modes := AddModes([], ModesOf(prefixes, m));
    if n == 0 {
      assert modes == [];
    } else {
      var front, last := prefixes[..n - 1], prefixes[n - 1];
      assert prefixes == front + [last];
      assert ModesOf(prefixes, m)[..n - 1] == ModesOf(front, m);
      AddedLetters(front, m, l);
      AddModeMeaning(AddModes([], ModesOf(front, m)), m[last], "");
    }
  }

  /** Same letters, same rendering: parameters do not matter. */
  lemma {:induction false} RenderLetters(a: seq<ModeEntry>, b: seq<ModeEntry>, reverse: map<char, char>)
    requires Letters(a) == Letters(b)
    ensures Render(a, reverse) == Render(b, reverse)
  {
    var n := |a|;
    assert |a| == |Letters(a)| && |b| == |Letters(b)|;
    if n > 0 {
      assert Letters(a[..n - 1]) == Letters(a)[..n - 1] && Letters(b[..n - 1]) == Letters(b)[..n - 1];
      RenderLetters(a[..n - 1], b[..n - 1], reverse);
      assert a[n - 1].letter == Letters(a)[n - 1] && b[n - 1].letter == Letters(b)[n - 1];
    }
  }

  /** Each of the prefixes is one byte when it is written, and its mode leads back to it. */
  predicate LeadsBack(prefixes: string, m: PrefixMap, reverse: map<char, char>) {
    forall c | c in prefixes :: c in m && Ascii(c) && m[c] in reverse && reverse[m[c]] == c
  }

  lemma {:induction false} RenderLeading(prefixes: string, m: PrefixMap, reverse: map<char, char>)
    requires LeadsBack(prefixes, m, reverse)
    ensures Render(AddModes([], ModesOf(prefixes, m)), reverse) == Once(prefixes)
    decreases |prefixes|
  {
    var n := |prefixes|;
    if n > 0 {
      var front, last := prefixes[..n - 1], prefixes[n - 1];
      assert prefixes == front + [last];
      assert LeadsBack(front, m, reverse);
      hide WithMode, Render, AddModes, ModesOf, EncodeRune;
      LeadingModes(prefixes, m);
      RenderLeading(front, m, reverse);
      RenderNext(front, last, m, reverse);
    }
  }

  lemma LeadingModes(prefixes: string, m: PrefixMap)
    requires prefixes != "" && forall c | c in prefixes :: c in m
    ensures var n := |prefixes|;
            AddModes([], ModesOf(prefixes, m)) ==
            WithMode(AddModes([], ModesOf(prefixes[..n - 1], m)), m[prefixes[n - 1]], "")
  {
    hide WithMode;
    assert ModesOf(prefixes, m)[..|prefixes| - 1] == ModesOf(prefixes[..|prefixes| - 1], m);
  }

  /** One more leading prefix shows, at the end, exactly if it was not there yet. */
  lemma RenderNext(front: string, last: char, m: PrefixMap, reverse: map<char, char>)
    requires LeadsBack(front + [last], m, reverse)
    ensures (forall c | c in front :: c in m) && last in m
    ensures var modes := AddModes([], ModesOf(front, m));
            Render(WithMode(modes, m[last], ""), reverse) ==
            Render(modes, reverse) + if last in front then "" else [last]
  {
    assert last in front + [last] && forall c | c in front :: c in front + [last];
    hide AddModes, WithMode, Render, ModesOf, EncodeRune;
    var modes, l := AddModes([], ModesOf(front, m)), m[last];
    AddedLetters(front, m, l);
    AddModeMeaning(modes, l, "");
    if last in front {
      RenderLetters(WithMode(modes, l, ""), modes, reverse);
    } else {
      WithModeAbsentLetters(modes, l);
      RenderSnoc(modes, ModeEntry(l, ""), reverse);
    }
  }

  lemma WithModeAbsentLetters(modes: seq<ModeEntry>, l: char)
    requires l !in Letters(modes)
    ensures WithMode(modes, l, "") == modes + [ModeEntry(l, "")]
  {
    forall j | 0 <= j < |modes| ensures modes[j].letter != l {
      assert Letters(modes)[j] == modes[j].letter;
    }
    WithModeAbsent(modes, l, "");
  }

  // ---------- when entries render back ----------

  /** The bytes that can stand at the start of a character of an entry. */
  predicate CanStart(c: char) {
    (Ascii(c) && !IsSpace(c)) || InRange(c, 0xC2, 0xF4)
  }

  /** What a NAMES line can carry and the client files: valid text, no white space, a nick behind the prefixes. */
  predicate Carried(entry: string, m: PrefixMap) {
    ValidUtf8(entry) && (forall c | c in entry :: !IsSpace(c)) && CleanNick(entry, m) != ""
  }

  /** Every such entry is rendered with the prefixes it came with. */
  ghost predicate RendersBack(m: PrefixMap, reverse: map<char, char>) {
    forall entry | Carried(entry, m) :: Render(EntryModes(entry, m), reverse) == Once(Leading(entry, m))
  }

  /** Every prefix that an entry can have is ASCII, and its mode leads back to it. */
  predicate Recovers(m: PrefixMap, reverse: map<char, char>) {
    forall p | p in m && CanStart(p) :: Ascii(p) && m[p] in reverse && reverse[m[p]] == p
  }

  /** The leading prefixes of valid text are ASCII unless some prefix starts a longer character. */
  lemma {:induction false} LeadingCanStart(entry: string, m: PrefixMap)
    requires ValidUtf8(entry) && forall c | c in entry :: !IsSpace(c)
    requires forall p | p in m && CanStart(p) :: Ascii(p)
    ensures forall c | c in Leading(entry, m) :: c in m && CanStart(c)
  {
    if entry != "" && entry[0] in m {
      ValidStart(entry);
      StartOfRune(entry);
      assert entry[0] in entry && forall c | c in entry[1..] :: c in entry;
      assert entry == [entry[0]] + entry[1..];
      ValidTail(entry[0], entry[1..]);
      hide ValidUtf8, RuneLen;
      LeadingCanStart(entry[1..], m);
    }
  }

  lemma StartOfRune(s: string)
    requires RuneLen(s) > 0
    ensures s != "" && (Ascii(s[0]) || InRange(s[0], 0xC2, 0xF4))
  {
  }

  lemma RecoversIsEnough(m: PrefixMap, reverse: map<char, char>, entry: string)
    requires Recovers(m, reverse) && Carried(entry, m)
    ensures Render(EntryModes(entry, m), reverse) == Once(Leading(entry, m))
  {
    LeadingCanStart(entry, m);
    hide ValidUtf8, CanStart;
    RenderLeading(Leading(entry, m), m, reverse);
  }

  // ---------- an entry that shows a bad prefix ----------

  /** A character that starts with `p`; the last byte of a longer one is free. */
  function Sample(p: char, last: char): string
    requires CanStart(p)
  {
    var second := if p as int == 0xE0 then 0xA1 as char else if p as int == 0xF0 then 0x91 as char else 0x81 as char;
    if Ascii(p) then [p]
    else if p as int < 0xE0 then [p, last]
    else if p as int < 0xF0 then [p, second, last]
    else [p, second, 0x81 as char, last]
  }

  lemma SampleIsText(p: char, last: char)
    requires CanStart(p) && InRange(last, 0x81, 0x82)
    ensures var s := Sample(p, last);
            s != "" && s[0] == p && ValidUtf8(s) && (forall c | c in s :: !IsSpace(c))
  {
    var s := Sample(p, last);
    assert RuneLen(s) == |s|;
    assert s[|s|..] == "";
  }

  /** The first byte of a character says how many there are. */
  lemma SampleLength(p: char, last: char, c: char)
    requires CanStart(p) && EncodeRune(c)[0] == p
    ensures |EncodeRune(c)| == |Sample(p, last)|
  {
  }

  lemma {:induction false} LeadingStops(entry: string, m: PrefixMap, k: nat)
    requires k < |entry| && entry[k] !in m
    ensures |Leading(entry, m)| <= k
  {
    if k > 0 && entry[0] in m {
      LeadingStops(entry[1..], m, k - 1);
    }
  }

  lemma {:induction false} FirstMode(letters: seq<char>)
    requires letters != []
    ensures AddModes([], letters) != [] && AddModes([], letters)[0].letter == letters[0]
  {
    var n := |letters|;
    var front := letters[..n - 1];
    if n == 1 {
      assert front == [] && AddModes([], front) == [];
    } else {
      FirstMode(front);
      assert front[0] == letters[0];
    }
  }

  lemma {:induction false} RenderStarts(modes: seq<ModeEntry>, reverse: map<char, char>)
    requires modes != [] && modes[0].letter in reverse
    ensures EncodeRune(reverse[modes[0].letter]) <= Render(modes, reverse)
  {
    hide EncodeRune;
    var n := |modes|;
    if n > 1 {
      RenderStarts(modes[..n - 1], reverse);
    } else {
      assert Render(modes[..0], reverse) == "";
    }
  }

  lemma {:induction false} OnceShape(s: string)
    ensures |Once(s)| <= |s|
    ensures s != "" ==> Once(s) != "" && Once(s)[0] == s[0]
    ensures |Once(s)| == |s| ==> Once(s) == s
  {
    var n := |s|;
    if n > 0 {
      OnceShape(s[..n - 1]);
      assert s == s[..n - 1] + [s[n - 1]];
    }
  }

  /** An entry with a prefix whose mode is not rendered as this very character. */
  lemma BadPrefixShows(p: char, last: char, c: char, m: PrefixMap, reverse: map<char, char>)
    requires p in m && CanStart(p) && c !in m && CanStart(c) && InRange(last, 0x81, 0x82)
    requires m[p] in reverse && EncodeRune(reverse[m[p]]) != Sample(p, last)
    ensures !RendersBack(m, reverse)
  {
    var text, nick := Sample(p, last), Sample(c, 0x81 as char);
    var entry := text + nick;
    SampleIsText(p, last);
    SampleIsText(c, 0x81 as char);
    ValidConcat(text, nick);
    LeadingStops(entry, m, |text|);
    hide Sample, ValidUtf8, RuneLen, CanStart, IsSpace;
    assert Carried(entry, m);
    if Render(EntryModes(entry, m), reverse) == Once(Leading(entry, m)) {
      SameStart(p, last, entry, text, m, reverse);
      assert false;
    }
  }

  lemma SameStart(p: char, last: char, entry: string, text: string, m: PrefixMap, reverse: map<char, char>)
    requires p in m && CanStart(p) && m[p] in reverse && text == Sample(p, last)
    requires text <= entry && entry != "" && entry[0] == p && |Leading(entry, m)| <= |text|
    requires Render(EntryModes(entry, m), reverse) == Once(Leading(entry, m))
    ensures EncodeRune(reverse[m[p]]) == text
  {
    var front, code := Leading(entry, m), EncodeRune(reverse[m[p]]);
    assert front[0] == p;
    hide Leading, Render, Once, EncodeRune, AddModes, Sample, CanStart;
    FirstMode(ModesOf(front, m));
    RenderStarts(EntryModes(entry, m), reverse);
    OnceShape(front);
    assert code[0] == p;
    SampleLength(p, last, reverse[m[p]]);
    assert front == text;
  }

  /**
   Main result: for an order in which the reverse map was filled, every entry a NAMES line can carry is
   rendered with its own leading prefixes, repeats removed, if and only if every prefix an entry can
   have is ASCII and the one its mode is rendered as. Some character can start a nick.
   */
  lemma RendersBackExactlyWhen(m: PrefixMap, reverse: map<char, char>, c: char)
    requires Reverses(reverse, m) && c !in m && CanStart(c)
    ensures RendersBack(m, reverse) <==> Recovers(m, reverse)
  {
    hide Render, EntryModes, Leading, CanStart, EncodeRune, Sample, Once, Carried;
    if Recovers(m, reverse) {
      forall entry | Carried(entry, m) ensures Render(EntryModes(entry, m), reverse) == Once(Leading(entry, m)) {
        RecoversIsEnough(m, reverse, entry);
      }
    } else {
      var p :| p in m && CanStart(p) && !(Ascii(p) && m[p] in reverse && reverse[m[p]] == p);
      assert m[p] in m.Values;
      var last := DifferentSample(p, reverse[m[p]]);
      BadPrefixShows(p, last, c, m, reverse);
    }
  }

  /** A last byte with which the character is not `a`. */
  ghost function DifferentSample(p: char, a: char): (last: char)
    requires CanStart(p) && (Ascii(p) ==> a != p)
    ensures InRange(last, 0x81, 0x82) && EncodeRune(a) != Sample(p, last)
  {
    EncodesOther(a, p);
    if EncodeRune(a) == Sample(p, 0x81 as char) then 0x82 as char else 0x81 as char
  }

  lemma EncodesOther(a: char, b: char)
    requires Ascii(b) ==> a != b
    ensures Ascii(b) ==> EncodeRune(a) != [b]
  {
  }

  // ---------- whatever the order ----------

  /** Every prefix an entry can have is ASCII and shares its mode with no other. */
  predicate Unambiguous(m: PrefixMap) {
    forall p | p in m && CanStart(p) :: Ascii(p) && forall q | q in m && m[q] == m[p] :: q == p
  }

  ghost function SomeKey(m: PrefixMap, mode: char): (p: char)
    requires mode in m.Values
    ensures p in m && m[p] == mode
  {
    var p :| p in m && m[p] == mode;
    p
  }

  /** The reverse map some order gives in which `q` wins its mode. */
  ghost function ReverseWith(m: PrefixMap, q: char): (reverse: map<char, char>)
    requires q in m
    ensures Reverses(reverse, m) && m[q] in reverse && reverse[m[q]] == q
  {
    assert m[q] in m.Values;
    map mode | mode in m.Values :: if mode == m[q] then q else SomeKey(m, mode)
  }

  /** Main result: every order of the reverse map renders every such entry back if and only if no prefix is ambiguous. */
  lemma AlwaysRendersBackExactlyWhen(m: PrefixMap, c: char)
    requires c !in m && CanStart(c)
    ensures (forall reverse | Reverses(reverse, m) :: RendersBack(m, reverse)) <==> Unambiguous(m)
  {
    hide RendersBack, CanStart;
    forall reverse | Reverses(reverse, m) ensures Unambiguous(m) ==> RendersBack(m, reverse) {
      RendersBackExactlyWhen(m, reverse, c);
      assert forall p | p in m :: m[p] in m.Values;
    }
    if forall reverse | Reverses(reverse, m) :: RendersBack(m, reverse) {
      forall p, q | p in m && CanStart(p) && q in m && m[q] == m[p] ensures Ascii(p) && q == p {
        RendersBackExactlyWhen(m, ReverseWith(m, q), c);
      }
      assert forall p | p in m :: m[p] == m[p];
    }
  }

  lemma {:induction false} ZipKeys(prefixes: string, modes: string)
    requires |prefixes| == |modes|
    ensures forall p :: p in Zip(prefixes, modes) <==> p in prefixes
  {
    var n := |modes|;
    if n > 0 {
      ZipKeys(prefixes[..n - 1], modes[..n - 1]);
      assert prefixes == prefixes[..n - 1] + [prefixes[n - 1]];
    }
  }

  /** Valid text that is not ASCII has a byte that starts a longer character. */
  lemma {:induction false} LongerStarts(s: string)
    requires ValidUtf8(s) && exists c :: c in s && !Ascii(c)
    ensures exists c :: c in s && InRange(c, 0xC2, 0xF4)
    decreases |s|
  {
    ValidStart(s);
    StartOfRune(s);
    assert s[0] in s;
    if Ascii(s[0]) {
      assert s == [s[0]] + s[1..];
      ValidTail(s[0], s[1..]);
      hide ValidUtf8, RuneLen;
      LongerStarts(s[1..]);
    }
  }

  /**
   Main result: an accepted PREFIX value renders every entry back, in every order, if and only if its
   prefixes are ASCII and none that an entry can have shares its mode with another.
   */
  lemma AdvertisedRendersBackExactlyWhen(value: string, c: char)
    requires ParsePrefixes(value).Some? && ValidUtf8(value)
    requires c !in ParsePrefixes(value).value && CanStart(c)
    ensures var m := ParsePrefixes(value).value;
            (forall reverse | Reverses(reverse, m) :: RendersBack(m, reverse)) <==>
            AsciiPrefixes(m) && (forall p, q | p in m && q in m && !IsSpace(p) && m[p] == m[q] :: p == q)
  {
    hide *;
    var prefixes := ValidPrefixes(value);
    AlwaysRendersBackExactlyWhen(ParsePrefixes(value).value, c);
    UnambiguousText(prefixes, ParsePrefixes(value).value);
  }

  /** The prefixes of an accepted value. */
  ghost function ValidPrefixes(value: string): (prefixes: string)
    requires ParsePrefixes(value).Some? && ValidUtf8(value)
    ensures ValidUtf8(prefixes) && forall p :: p in ParsePrefixes(value).value <==> p in prefixes
  {
    var close := Index(value, ')');
    var modes, prefixes := value[1..close], value[close + 1..];
    assert value == value[..close] + [')'] + prefixes;
    ValidCut(value[..close], ')', prefixes);
    ZipKeys(prefixes, modes);
    prefixes
  }

  lemma UnambiguousText(prefixes: string, m: PrefixMap)
    requires ValidUtf8(prefixes) && forall p :: p in m <==> p in prefixes
    ensures Unambiguous(m) <==>
            AsciiPrefixes(m) && (forall p, q | p in m && q in m && !IsSpace(p) && m[p] == m[q] :: p == q)
  {
    if Unambiguous(m) && !AsciiPrefixes(m) {
      LongerStarts(prefixes);
      assert false;
    }
    hide ValidUtf8, IsSpace;
  }

  /** An accepted PREFIX value with ASCII prefixes and pairwise distinct modes. */
  predicate Sound(value: string) {
    ParsePrefixes(value).Some?
    && AllDifferent(value[1..Index(value, ')')]) && forall c | c in value[Index(value, ')') + 1..] :: Ascii(c)
  }

  /** Its prefixes lead back, whatever the order of the reverse map. */
  lemma SoundLeadsBack(value: string, prefixes: string, reverse: map<char, char>)
    requires Sound(value) && Reverses(reverse, ParsePrefixes(value).value)
    requires forall c | c in prefixes :: c in ParsePrefixes(value).value
    ensures LeadsBack(prefixes, ParsePrefixes(value).value, reverse)
  {
    var close, m := Index(value, ')'), ParsePrefixes(value).value;
    DistinctModesAreInjective(value[close + 1..], value[1..close]);
    ZipKeys(value[close + 1..], value[1..close]);
    assert forall p | p in m :: m[p] in m.Values;
    hide Zip, ParsePrefixes;
  }

  /** Such a value renders every entry back, nick included. */
  lemma AdvertisedPrefixesRenderBack(value: string, entry: string, reverse: map<char, char>)
    requires Sound(value) && Reverses(reverse, ParsePrefixes(value).value)
    ensures var m := ParsePrefixes(value).value;
            Render(EntryModes(entry, m), reverse) + CleanNick(entry, m) ==
            Once(Leading(entry, m)) + entry[|Leading(entry, m)|..]
  {
    var m := ParsePrefixes(value).value;
    hide Zip, ParsePrefixes, Render, Once, Sound, LeadsBack;
    SoundLeadsBack(value, Leading(entry, m), reverse);
    RenderLeading(Leading(entry, m), m, reverse);
  }

  // ---------- values a server may send ----------

  const SHARED: PrefixMap := map['@' := 'o', '+' := 'o']

  /** Two prefixes of one mode: whatever the order, one of two users is shown with the other's prefix. */
  lemma SharedModeShows(reverse: map<char, char>)
    requires Reverses(reverse, SHARED)
    ensures ParsePrefixes("(oo)@+") == Some(SHARED) && Carried("@x", SHARED) && Carried("+x", SHARED)
    ensures Leading("@x", SHARED) == "@" && Leading("+x", SHARED) == "+"
    ensures 'o' in reverse
    ensures Render(EntryModes("@x", SHARED), reverse) == Render(EntryModes("+x", SHARED), reverse) == EncodeRune(reverse['o'])
  {
    hide *;
    SharedParsed();
    SharedEntry("@x", reverse);
    SharedEntry("+x", reverse);
  }

  lemma SharedEntry(entry: string, reverse: map<char, char>)
    requires Reverses(reverse, SHARED) && (entry == "@x" || entry == "+x")
    ensures Carried(entry, SHARED) && Leading(entry, SHARED) == [entry[0]]
    ensures 'o' in reverse && Render(EntryModes(entry, SHARED), reverse) == EncodeRune(reverse['o'])
  {
    assert SHARED[entry[0]] == 'o' && entry[1] == 'x' && 'x' !in SHARED;
    TwoBytesValid(entry);
    hide Render, EntryModes, ValidUtf8, EncodeRune, Reverses, Leading, CleanNick;
    ModeIsReversed(SHARED, reverse, entry[0]);
    OnePrefix(entry, SHARED, reverse);
  }

  lemma ModeIsReversed(m: PrefixMap, reverse: map<char, char>, p: char)
    requires Reverses(reverse, m) && p in m
    ensures m[p] in reverse && reverse[m[p]] in m && m[reverse[m[p]]] == m[p]
  {
    assert m[p] in m.Values;
  }

  lemma SharedParsed()
    ensures ParsePrefixes("(oo)@+") == Some(SHARED)
  {
    PrefixesParsed("oo", "@+");
    assert PrefixValue("oo", "@+") == "(oo)@+";
    hide ParsePrefixes, Zip;
    ZipTwo("@+", "oo");
  }

  lemma ZipTwo(prefixes: string, modes: string)
    requires |prefixes| == |modes| == 2
    ensures Zip(prefixes, modes) == map[prefixes[0] := modes[0]][prefixes[1] := modes[1]]
  {
    assert prefixes[..1][..0] == "" && modes[..1][..0] == "";
    assert Zip(prefixes[..1], modes[..1]) == map[][prefixes[0] := modes[0]];
  }

  lemma TwoBytesValid(s: string)
    requires |s| == 2 && Ascii(s[0]) && Ascii(s[1])
    ensures ValidUtf8(s)
  {
    ValidAscii(s[1]);
    ValidTail(s[0], [s[1]]);
    assert s == [s[0]] + [s[1]];
  }

  lemma OnePrefix(entry: string, m: PrefixMap, reverse: map<char, char>)
    requires |entry| == 2 && entry[0] in m && entry[1] !in m && m[entry[0]] in reverse
    ensures Leading(entry, m) == [entry[0]] && CleanNick(entry, m) == [entry[1]]
    ensures Render(EntryModes(entry, m), reverse) == EncodeRune(reverse[m[entry[0]]])
  {
    hide EncodeRune;
    assert Leading(entry[1..], m) == "";
    var l := m[entry[0]];
    assert ModesOf([entry[0]], m) == [l] && [l][..0] == [];
    assert AddModes([], [l]) == WithMode(AddModes([], [l][..0]), l, "") == [ModeEntry(l, "")];
    RenderSnoc([], ModeEntry(l, ""), reverse);
    assert [] + [ModeEntry(l, "")] == [ModeEntry(l, "")];
  }

  const E_ACUTE := [0xC3 as char, 0xA9 as char]

  const ACCENTED: PrefixMap := map[E_ACUTE[0] := 'o', E_ACUTE[1] := 'v']

  /** A two-byte prefix character counts as two prefixes, and each is written as two bytes. */
  lemma AccentedPrefixShows(reverse: map<char, char>)
    requires Reverses(reverse, ACCENTED)
    ensures ValidUtf8("(ov)" + E_ACUTE) && ParsePrefixes("(ov)" + E_ACUTE) == Some(ACCENTED)
    ensures Carried(E_ACUTE + "x", ACCENTED) && Leading(E_ACUTE + "x", ACCENTED) == E_ACUTE
    ensures Render(EntryModes(E_ACUTE + "x", ACCENTED), reverse) == [0xC3 as char, 0x83 as char, 0xC2 as char, 0xA9 as char]
  {
    hide *;
    AccentedValid();
    AccentedParsed();
    AccentedLeading();
    AccentedCarried();
    AddTwo('o', 'v');
    AccentedReverse(reverse);
    AccentedRendered(reverse);
  }

  lemma AccentedReverse(reverse: map<char, char>)
    requires Reverses(reverse, ACCENTED)
    ensures 'o' in reverse && 'v' in reverse && reverse['o'] == E_ACUTE[0] && reverse['v'] == E_ACUTE[1]
  {
    assert ACCENTED[E_ACUTE[0]] == 'o' && ACCENTED[E_ACUTE[1]] == 'v';
    hide Reverses;
    ModeIsReversed(ACCENTED, reverse, E_ACUTE[0]);
    ModeIsReversed(ACCENTED, reverse, E_ACUTE[1]);
  }

  lemma AccentedCarried()
    requires ValidUtf8(E_ACUTE + "x") && Leading(E_ACUTE + "x", ACCENTED) == E_ACUTE
    ensures Carried(E_ACUTE + "x", ACCENTED)
  {
    hide ValidUtf8, Leading;
  }

  lemma AccentedRendered(reverse: map<char, char>)
    requires 'o' in reverse && 'v' in reverse && reverse['o'] == E_ACUTE[0] && reverse['v'] == E_ACUTE[1]
    requires Leading(E_ACUTE + "x", ACCENTED) == E_ACUTE && ModesOf(E_ACUTE, ACCENTED) == ['o', 'v']
    requires AddModes([], ['o', 'v']) == [ModeEntry('o', ""), ModeEntry('v', "")]
    ensures Render(EntryModes(E_ACUTE + "x", ACCENTED), reverse) == [0xC3 as char, 0x83 as char, 0xC2 as char, 0xA9 as char]
  {
    hide Leading, AddModes, ModesOf;
    var a, b := ModeEntry('o', ""), ModeEntry('v', "");
    RenderSnoc([], a, reverse);
    RenderSnoc([a], b, reverse);
    assert [] + [a] == [a] && [a] + [b] == [a, b];
  }

  lemma AccentedParsed()
    ensures ParsePrefixes("(ov)" + E_ACUTE) == Some(ACCENTED)
  {
    PrefixesParsed("ov", E_ACUTE);
    assert PrefixValue("ov", E_ACUTE) == "(ov)" + E_ACUTE;
    hide ParsePrefixes, Zip;
    ZipTwo(E_ACUTE, "ov");
  }

  lemma AccentedLeading()
    ensures Leading(E_ACUTE + "x", ACCENTED) == E_ACUTE && ModesOf(E_ACUTE, ACCENTED) == ['o', 'v']
  {
    var entry := E_ACUTE + "x";
    assert entry[1..][1..] == "x" && Leading("x", ACCENTED) == "";
    assert Leading(entry[1..], ACCENTED) == [E_ACUTE[1]] + Leading(entry[1..][1..], ACCENTED);
  }

  lemma AddTwo(a: char, b: char)
    requires a != b
    ensures AddModes([], [a, b]) == [ModeEntry(a, ""), ModeEntry(b, "")]
  {
    assert [a, b][..1] == [a] && [a][..0] == [];
    assert AddModes([], [a]) == WithMode(AddModes([], [a][..0]), a, "") == [ModeEntry(a, "")];
    assert [ModeEntry(a, "")][1..] == [];
    WithModeAbsent([ModeEntry(a, "")], b, "");
  }

  lemma AccentedValid()
    ensures ValidUtf8("(ov)" + E_ACUTE) && ValidUtf8(E_ACUTE + "x")
  {
    assert RuneLen(E_ACUTE) == 2 && E_ACUTE[2..] == "";
    ValidAscii('x');
    ValidConcat(E_ACUTE, "x");
    TwoBytesValid("(o");
    TwoBytesValid("v)");
    ValidConcat("(o", "v)");
    assert "(o" + "v)" == "(ov)";
    ValidConcat("(ov)", E_ACUTE);
  }

  function PrefixValue(modes: string, prefixes: string): string {
    "(" + modes + ")" + prefixes
  }

  /** A value is accepted exactly when it reads "(modes)prefixes" with as many prefixes as modes. */
  lemma {:induction false} ParsePrefixesExactlyWhen(value: string)
    ensures ParsePrefixes(value).Some? <==>
              exists modes, prefixes ::
                value == PrefixValue(modes, prefixes) && ')' !in modes && |modes| == |prefixes|
  {
    var close := Index(value, ')');
    if ParsePrefixes(value).Some? {
      var modes, prefixes := value[1..close], value[close + 1..];
      assert value[..close] == "(" + modes;
      assert value == value[..close] + ")" + prefixes;
      assert value == PrefixValue(modes, prefixes);
    }
    forall modes, prefixes | value == PrefixValue(modes, prefixes) && ')' !in modes && |modes| == |prefixes|
      ensures ParsePrefixes(value) == Some(Zip(prefixes, modes))
    {
      PrefixesParsed(modes, prefixes);
    }
  }

  lemma {:induction false} PrefixesParsed(modes: string, prefixes: string)
    requires ')' !in modes && |modes| == |prefixes|
    ensures ParsePrefixes(PrefixValue(modes, prefixes)) == Some(Zip(prefixes, modes))
  {
    var value := PrefixValue(modes, prefixes);
    IndexAt("(" + modes, ')', prefixes);
    assert value[1..|modes| + 1] == modes && value[|modes| + 2..] == prefixes;
  }
}
