/**
 The language of the parser: how a line may be written, with any number of spaces between its parts, and
 what it then means. Nothing here is said in terms of the parser's own steps or of the printer.
 */
module LineReading {
  import opened GoStrings
  import opened TagEscaping
  import opened Utf8
  import opened Message
  import opened CodecTheorems

  // ---------- how a line may be written ----------

  function Spaces(n: nat): string {
    seq(n, i => ' ')
  }

  /** The middle parameters, each behind one space and `gaps[i]` more. */
  function Written(params: seq<string>, gaps: seq<nat>): string
    requires |gaps| == |params|
  {
    if params == [] then "" else Spaces(1 + gaps[0]) + params[0] + Written(params[1..], gaps[1..])
  }

  /** What stands behind the middle parameters: spaces, or the trailing parameter. */
  datatype Ending = Blank(spaces: nat) | Trailing(gap: nat, text: string)

  function EndingText(e: Ending): string {
    match e
    case Blank(n) => Spaces(n)
    case Trailing(gap, text) => Spaces(1 + gap) + ":" + text
  }

  function EndingParam(e: Ending): seq<string> {
    match e
    case Blank(_) => []
    case Trailing(_, text) => [text]
  }

  /** One piece of a tag section. */
  datatype TagPiece = Nothing | Bare(key: string) | Valued(key: string, value: string)

  function PieceText(p: TagPiece): string {
    match p
    case Nothing => ""
    case Bare(key) => key
    case Valued(key, value) => key + "=" + value
  }

  predicate CleanPiece(p: TagPiece) {
    match p
    case Nothing => true
    case Bare(key) => CleanKey(key)
    case Valued(key, value) =>
      ' ' !in key && ';' !in key && '=' !in key && ' ' !in value && ';' !in value
  }

  function PieceTexts(ps: seq<TagPiece>): seq<string> {
    seq(|ps|, i requires 0 <= i < |ps| => PieceText(ps[i]))
  }

  datatype Line = Line(
    tags: Option<seq<TagPiece>>,
    source: Option<string>,
    command: string,
    params: seq<string>,
    gaps: seq<nat>,
    ending: Ending)

  function Body(l: Line): string
    requires |l.gaps| == |l.params|
  {
    l.command + Written(l.params, l.gaps) + EndingText(l.ending)
  }

  function SourceText(l: Line): string {
    match l.source
    case None => ""
    case Some(s) => ":" + s + " "
  }

  function TagsText(l: Line): string {
    match l.tags
    case None => ""
    case Some(ps) => "@" + Join(PieceTexts(ps), ';') + " "
  }

  function Text(l: Line): string
    requires |l.gaps| == |l.params|
  {
    TagsText(l) + (SourceText(l) + Body(l))
  }

  /** The parts are what they look like. */
  predicate Clean(l: Line) {
    && |l.gaps| == |l.params|
    && ' ' !in l.command && (forall p | p in l.params :: MiddleParam(p))
    && Body(l) != ""
    && (l.source.None? ==> Body(l)[0] != ':')
    && (l.source.None? && l.tags.None? ==> Body(l)[0] != '@')
    && (l.source.Some? ==> ' ' !in l.source.value)
    && (l.tags.Some? ==> l.tags.value != [] && forall p | p in l.tags.value :: CleanPiece(p))
  }

  // ---------- what it means ----------

  predicate Keyless(ps: seq<TagPiece>) {
    exists i :: 0 <= i < |ps| && ps[i].Valued? && ps[i].key == ""
  }

  predicate Sets(p: TagPiece, key: string) {
    !p.Nothing? && p.key == key
  }

  /** The value a piece gives its key. */
  function PieceValue(p: TagPiece): string {
    match p
    case Valued(_, value) => UnescapeTagValue(value)
    case _ => ""
  }

  /** What the pieces say of a key: the last one that sets it counts. */
  function ValueAt(ps: seq<TagPiece>, key: string): Option<string> {
    var n := |ps|;
    if n == 0 then None
    else if Sets(ps[n - 1], key) then Some(PieceValue(ps[n - 1]))
    else ValueAt(ps[..n - 1], key)
  }

  /** The map holds what the pieces say, and no other key. */
  ghost predicate TagsMean(ps: seq<TagPiece>, tags: Tags) {
    forall k :: (k in tags <==> ValueAt(ps, k).Some?) && (k in tags ==> tags[k] == ValueAt(ps, k).value)
  }

  ghost predicate Means(l: Line, m: Message) {
    && (match l.tags case None => m.tags == map[] case Some(ps) => !Keyless(ps) && TagsMean(ps, m.tags))
    && m.source == (match l.source case None => "" case Some(s) => s)
    && m.command == ToUpper(l.command)
    && m.params == l.params + EndingParam(l.ending)
  }

  // ---------- parameters ----------

  /** The parameters in what stands behind the command. */
  function Read(s: string): seq<string>
    requires s == "" || s[0] == ' '
  {
    if s == "" then [] else ParamsOf(Split(s[1..], ' '))
  }

  lemma SplitSpace(x: string)
    ensures Split(" " + x, ' ') == [""] + Split(x, ' ')
  {
    SplitAt("", ' ', x);
    assert "" + [' '] + x == " " + x;
  }

  lemma {:induction false} SkipSpaces(n: nat, x: string)
    ensures ParamsOf(Split(Spaces(n) + x, ' ')) == ParamsOf(Split(x, ' '))
  {
    if n == 0 {
      assert Spaces(0) + x == x;
    } else {
      var rest := Spaces(n - 1) + x;
      assert Spaces(n) + x == " " + rest;
      SplitSpace(rest);
      SkipSpaces(n - 1, x);
      SkipEmpty(Split(rest, ' '));
    }
  }

  lemma SkipEmpty(parts: seq<string>)
    ensures ParamsOf([""] + parts) == ParamsOf(parts)
  {
    assert ([""] + parts)[1..] == parts;
  }

  lemma ReadSpaces(n: nat, x: string)
    ensures Read(Spaces(1 + n) + x) == ParamsOf(Split(x, ' '))
  {
    assert (Spaces(1 + n) + x)[1..] == Spaces(n) + x;
    SkipSpaces(n, x);
  }

  /** A word, and what may stand behind it. */
  lemma SplitWord(w: string, s: string)
    requires ' ' !in w && (s == "" || s[0] == ' ')
    ensures Split(w + s, ' ') == if s == "" then [w] else [w] + Split(s[1..], ' ')
  {
    if s == "" {
      assert w + s == w;
    } else {
      assert w + s == w + [' '] + s[1..];
      SplitAt(w, ' ', s[1..]);
    }
  }

  lemma ReadWord(w: string, s: string)
    requires MiddleParam(w) && (s == "" || s[0] == ' ')
    ensures ParamsOf(Split(w + s, ' ')) == [w] + Read(s)
  {
    SplitWord(w, s);
    if s == "" {
      assert [w][1..] == [];
      assert [w] + [] == [w];
    } else {
      ParamsOfMiddle(w, Split(s[1..], ' '));
    }
  }

  lemma FirstPart(s: string, sep: char)
    requires s != "" && s[0] != sep
    ensures Split(s, sep)[0] != "" && Split(s, sep)[0][0] == s[0]
  {
  }

  lemma ReadTrailing(text: string)
    ensures ParamsOf(Split(":" + text, ' ')) == [text]
  {
    var s := ":" + text;
    assert s[0] == ':' && s[1..] == text;
    hide Split, Join;
    JoinSplit(s, ' ');
    FirstPart(s, ' ');
  }

  lemma ReadBlank(n: nat)
    ensures var s := Spaces(n); (s == "" || s[0] == ' ') && Read(s) == []
  {
    if n > 0 {
      assert Spaces(n) + "" == Spaces(n) && Split("", ' ') == [""] && ParamsOf([""]) == ParamsOf([""][1..]);
      hide Split, ParamsOf;
      ReadSpaces(n - 1, "");
      assert [""][1..] == [] && ParamsOf([]) == [] by {
        NoParams();
      }
    }
  }

  lemma NoParams()
    ensures ParamsOf([]) == []
  {
  }

  lemma ReadEnding(e: Ending)
    ensures var s := EndingText(e); (s == "" || s[0] == ' ') && Read(s) == EndingParam(e)
  {
    hide ParamsOf, Split, Read, Spaces;
    match e
    case Blank(n) => ReadBlank(n);
    case Trailing(gap, text) =>
      assert Spaces(1 + gap) + ":" + text == Spaces(1 + gap) + (":" + text);
      SpacesStart(gap, ":" + text);
      ReadSpaces(gap, ":" + text);
      ReadTrailing(text);
  }

  lemma WrittenCons(params: seq<string>, gaps: seq<nat>, end: string)
    requires |gaps| == |params| > 0
    ensures Written(params, gaps) + end == Spaces(1 + gaps[0]) + (params[0] + (Written(params[1..], gaps[1..]) + end))
  {
    hide Spaces;
  }

  lemma SpacesStart(n: nat, x: string)
    ensures (Spaces(1 + n) + x)[0] == ' '
  {
  }

  /** However many spaces there are: exactly the parameters written. */
  lemma {:induction false} ReadWritten(params: seq<string>, gaps: seq<nat>, e: Ending)
    requires |gaps| == |params| && forall p | p in params :: MiddleParam(p)
    ensures var s := Written(params, gaps) + EndingText(e);
            (s == "" || s[0] == ' ') && Read(s) == params + EndingParam(e)
    decreases |params|
  {
    hide ParamsOf, Split, EndingText, MiddleParam, Spaces, Read, Written;
    ReadEnding(e);
    if params == [] {
      NothingWritten(e);
    } else {
      var rest := Written(params[1..], gaps[1..]) + EndingText(e);
      assert params[0] in params && forall p | p in params[1..] :: p in params;
      WrittenCons(params, gaps, EndingText(e));
      SpacesStart(gaps[0], params[0] + rest);
      ReadWritten(params[1..], gaps[1..], e);
      ReadSpaces(gaps[0], params[0] + rest);
      ReadWord(params[0], rest);
      assert [params[0]] + (params[1..] + EndingParam(e)) == params + EndingParam(e);
    }
  }

  lemma NothingWritten(e: Ending)
    ensures Written([], []) + EndingText(e) == EndingText(e) && [] + EndingParam(e) == EndingParam(e)
  {
    hide EndingText;
  }

  lemma BodyRead(raw: string, tags: Tags, source: string, l: Line)
    requires Clean(l)
    ensures ParseBody(raw, tags, source, Body(l)) ==
            Ok(Message(tags, source, ToUpper(l.command), l.params + EndingParam(l.ending), raw))
  {
    hide ParamsOf, Written, EndingText, ToUpper, MiddleParam, Split;
    var s := Written(l.params, l.gaps) + EndingText(l.ending);
    ReadWritten(l.params, l.gaps, l.ending);
    assert Body(l) == l.command + s;
    SplitWord(l.command, s);
    NoParams();
    if s == "" {
      assert [l.command][1..] == [];
    } else {
      assert ([l.command] + Split(s[1..], ' '))[1..] == Split(s[1..], ' ');
    }
  }

  // ---------- every text is written in some such way ----------

  /** The spaces at the start. */
  function Leading(s: string): (n: nat)
    ensures n <= |s| && s[..n] == Spaces(n)
    ensures n < |s| ==> s[n] != ' '
  {
    if s == "" || s[0] != ' ' then 0
    else
      var n := Leading(s[1..]);
      assert s[..n + 1] == [' '] + s[1..][..n];
      n + 1
  }

  datatype Params = Params(params: seq<string>, gaps: seq<nat>, ending: Ending)

  predicate IsReading(s: string, p: Params) {
    && |p.gaps| == |p.params| && (forall x | x in p.params :: MiddleParam(x))
    && s == Written(p.params, p.gaps) + EndingText(p.ending)
  }

  /** Up to the first space. */
  function FirstWord(s: string): (w: string)
    ensures ' ' !in w && w <= s && (|w| == |s| || s[|w|] == ' ')
    ensures s != "" && s[0] != ' ' ==> w != "" && w[0] == s[0]
  {
    var i := Index(s, ' ');
    if i == -1 then s else s[..i]
  }

  lemma {:induction false} ReadingOf(s: string) returns (p: Params)
    requires s == "" || s[0] == ' '
    ensures IsReading(s, p)
    decreases |s|, 1
  {
    hide Spaces, Written, EndingText, FirstWord, IsReading, Index, Leading;
    var n := Leading(s);
    var rest := s[n..];
    assert s == Spaces(n) + rest;
    if rest == "" {
      p := Params([], [], Blank(n));
      BlankReading(s, n);
    } else if rest[0] == ':' {
      p := Params([], [], Trailing(n - 1, rest[1..]));
      assert rest == [':'] + rest[1..];
      TrailingReading(s, n - 1, rest[1..]);
    } else {
      SpacesLength(n);
      p := WordReading(s, n, rest);
    }
  }

  lemma {:induction false} WordReading(s: string, n: nat, rest: string) returns (p: Params)
    requires n > 0 && s == Spaces(n) + rest && |s| == n + |rest|
    requires rest != "" && rest[0] != ' ' && rest[0] != ':'
    ensures IsReading(s, p)
    decreases |s|, 0
  {
    hide Spaces, Written, EndingText, FirstWord, IsReading, Index, Leading;
    var w := FirstWord(rest);
    var tail := rest[|w|..];
    var q := ReadingOf(tail);
    p := Params([w] + q.params, [n - 1] + q.gaps, q.ending);
    assert rest == w + tail;
    WordFirst(w, n - 1, q, tail);
  }

  lemma SpacesLength(n: nat)
    ensures |Spaces(n)| == n
  {
  }

  lemma BlankReading(s: string, n: nat)
    requires s == Spaces(n) + ""
    ensures IsReading(s, Params([], [], Blank(n)))
  {
    assert s == "" + Spaces(n);
  }

  lemma TrailingReading(s: string, gap: nat, text: string)
    requires s == Spaces(1 + gap) + ([':'] + text)
    ensures IsReading(s, Params([], [], Trailing(gap, text)))
  {
    hide Spaces;
    assert s == "" + (Spaces(1 + gap) + ":" + text);
  }

  lemma WordFirst(w: string, gap: nat, q: Params, rest: string)
    requires MiddleParam(w) && IsReading(rest, q)
    ensures IsReading(Spaces(1 + gap) + (w + rest), Params([w] + q.params, [gap] + q.gaps, q.ending))
  {
    hide MiddleParam, EndingText, Spaces;
    var params, gaps := [w] + q.params, [gap] + q.gaps;
    assert params[1..] == q.params && gaps[1..] == q.gaps;
    assert forall x | x in params :: x == w || x in q.params;
    WrittenCons(params, gaps, EndingText(q.ending));
  }

  // ---------- tags ----------

  lemma PieceRead(p: TagPiece, tags: Tags)
    requires CleanPiece(p)
    ensures AddTag(PieceText(p), tags) ==
            if p.Nothing? then Some(tags)
            else if p.Valued? && p.key == "" then None
            else Some(tags[p.key := PieceValue(p)])
    ensures ';' !in PieceText(p) && ' ' !in PieceText(p)
  {
    if p.Valued? {
      var s := PieceText(p);
      assert s == p.key + ['='] + p.value;
      IndexAt(p.key, '=', p.value);
      assert s[|p.key|] == '=' && s[..|p.key|] == p.key && s[|p.key| + 1..] == p.value;
    }
    hide UnescapeTagValue;
  }

  /** What the pieces make of `tags`. */
  ghost predicate Extends(ps: seq<TagPiece>, tags: Tags, tags': Tags) {
    forall k :: match ValueAt(ps, k)
                case None => (k in tags' <==> k in tags) && (k in tags ==> tags'[k] == tags[k])
                case Some(value) => k in tags' && tags'[k] == value
  }

  lemma {:induction false} ValueAtCons(p: TagPiece, rest: seq<TagPiece>, key: string)
    ensures ValueAt([p] + rest, key) ==
            if ValueAt(rest, key).Some? then ValueAt(rest, key) else if Sets(p, key) then Some(PieceValue(p)) else None
    decreases |rest|
  {
    hide Sets, PieceValue;
    var n, ps := |rest|, [p] + rest;
    if n == 0 {
      assert ps == [p] && [p][..0] == [];
    } else {
      assert ps[..n] == [p] + rest[..n - 1] && ps[n] == rest[n - 1];
      ValueAtCons(p, rest[..n - 1], key);
    }
  }

  lemma {:induction false} PiecesRead(ps: seq<TagPiece>, tags: Tags)
    requires forall p | p in ps :: CleanPiece(p)
    ensures AddTags(PieceTexts(ps), tags).None? <==> Keyless(ps)
    ensures !Keyless(ps) ==> Extends(ps, tags, AddTags(PieceTexts(ps), tags).value)
    decreases |ps|
  {
    if ps != [] {
      var p, rest := ps[0], ps[1..];
      assert p in ps && forall x | x in rest :: x in ps;
      assert PieceTexts(ps) == [PieceText(p)] + PieceTexts(rest);
      assert forall i | 0 <= i < |rest| :: rest[i] == ps[i + 1];
      PieceRead(p, tags);
      hide AddTag, PieceText, PieceTexts, CleanPiece, PieceValue, Extends, Keyless;
      KeylessCons(ps);
      if !(p.Valued? && p.key == "") {
        var next := if p.Nothing? then tags else tags[p.key := PieceValue(p)];
        AddTagsStep(PieceText(p), PieceTexts(rest), tags);
        PiecesRead(rest, next);
        if !Keyless(ps) {
          ExtendsCons(ps, tags, next, AddTags(PieceTexts(rest), next).value);
        }
      } else {
        AddTagsStep(PieceText(p), PieceTexts(rest), tags);
      }
    } else {
      NoPieces(tags);
    }
  }

  lemma AddTagsStep(text: string, texts: seq<string>, tags: Tags)
    ensures AddTags([text] + texts, tags) ==
            match AddTag(text, tags) case None => None case Some(t) => AddTags(texts, t)
  {
    assert ([text] + texts)[1..] == texts;
  }

  lemma KeylessCons(ps: seq<TagPiece>)
    requires ps != []
    ensures Keyless(ps) <==> (ps[0].Valued? && ps[0].key == "") || Keyless(ps[1..])
  {
    var rest := ps[1..];
    assert forall i | 0 <= i < |rest| :: rest[i] == ps[i + 1];
    if i :| 0 <= i < |rest| && rest[i].Valued? && rest[i].key == "" {
      assert ps[i + 1].Valued?;
    }
  }

  lemma NoPieces(tags: Tags)
    ensures PieceTexts([]) == [] && !Keyless([]) && Extends([], tags, tags)
  {
  }

  lemma ExtendsCons(ps: seq<TagPiece>, tags: Tags, next: Tags, tags': Tags)
    requires ps != [] && next == if ps[0].Nothing? then tags else tags[ps[0].key := PieceValue(ps[0])]
    requires Extends(ps[1..], next, tags')
    ensures Extends(ps, tags, tags')
  {
    hide PieceValue, ValueAt;
    assert ps == [ps[0]] + ps[1..];
    forall k ensures ValueAt(ps, k) ==
                     if ValueAt(ps[1..], k).Some? then ValueAt(ps[1..], k)
                     else if Sets(ps[0], k) then Some(PieceValue(ps[0])) else None
    {
      ValueAtCons(ps[0], ps[1..], k);
    }
  }

  lemma OnlyMeaning(ps: seq<TagPiece>, a: Tags, b: Tags)
    requires TagsMean(ps, a) && TagsMean(ps, b)
    ensures a == b
  {
    hide ValueAt;
  }

  /** A tag section, whatever its pieces: a refusal for an empty key, or the last setting of each key. */
  lemma SectionRead(ps: seq<TagPiece>)
    requires ps != [] && forall p | p in ps :: CleanPiece(p)
    ensures var section := Join(PieceTexts(ps), ';');
            && ' ' !in section
            && (TagsOf(section).None? <==> Keyless(ps))
            && (!Keyless(ps) ==> TagsMean(ps, TagsOf(section).value))
  {
    hide AddTags, PieceText, PieceTexts, CleanPiece, PieceValue, Join, Split, ValueAt, Keyless, Extends, TagsMean;
    PieceTextsClean(ps);
    NotInJoin(PieceTexts(ps), ';', ' ');
    PiecesRead(ps, map[]);
    SplitAll(PieceTexts(ps), ';');
    if Join(PieceTexts(ps), ';') == "" {
      EmptySection(ps);
    }
    if !Keyless(ps) {
      ExtendsNothing(ps, AddTags(PieceTexts(ps), map[]).value);
    }
  }

  lemma PieceTextsClean(ps: seq<TagPiece>)
    requires ps != [] && forall p | p in ps :: CleanPiece(p)
    ensures PieceTexts(ps) != [] && forall t | t in PieceTexts(ps) :: ';' !in t && ' ' !in t
  {
    hide PieceText, CleanPiece;
    var texts := PieceTexts(ps);
    forall t | t in texts ensures ';' !in t && ' ' !in t {
      var i :| 0 <= i < |texts| && texts[i] == t;
      PieceRead(ps[i], map[]);
    }
  }

  lemma ExtendsNothing(ps: seq<TagPiece>, tags: Tags)
    requires Extends(ps, map[], tags)
    ensures TagsMean(ps, tags)
  {
    hide ValueAt;
  }

  lemma EmptySection(ps: seq<TagPiece>)
    requires ps != [] && Join(PieceTexts(ps), ';') == "" && (forall t | t in PieceTexts(ps) :: ';' !in t)
    ensures PieceTexts(ps) == [""] && AddTags(PieceTexts(ps), map[]) == Some(map[])
  {
    hide PieceText;
    SplitAll(PieceTexts(ps), ';');
    assert Split("", ';') == [""];
    assert [""][1..] == [];
  }

  function PieceOf(text: string): TagPiece {
    if text == "" then Nothing
    else if '=' in text then var (key, value) := Cut(text, '='); Valued(key, value)
    else Bare(text)
  }

  lemma PieceOfText(text: string)
    requires ';' !in text && ' ' !in text
    ensures CleanPiece(PieceOf(text)) && PieceText(PieceOf(text)) == text
  {
    if text != "" && '=' in text {
      var (key, value) := Cut(text, '=');
      assert text == key + ['='] + value;
    }
  }

  /** Every section without a space consists of such pieces. */
  function PiecesOf(section: string): seq<TagPiece> {
    var texts := Split(section, ';');
    seq(|texts|, i requires 0 <= i < |texts| => PieceOf(texts[i]))
  }

  lemma PiecesOfSection(section: string)
    requires ' ' !in section
    ensures var ps := PiecesOf(section);
            ps != [] && (forall p | p in ps :: CleanPiece(p)) && Join(PieceTexts(ps), ';') == section
  {
    var texts, ps := Split(section, ';'), PiecesOf(section);
    SplitPieces(section, ';');
    SplitChars(section, ';', ' ');
    hide CleanPiece, PieceText, PieceOf, Join, Split;
    JoinSplit(section, ';');
    forall i | 0 <= i < |texts| ensures CleanPiece(ps[i]) && PieceText(ps[i]) == texts[i] {
      assert texts[i] in texts;
      PieceOfText(texts[i]);
    }
    assert PieceTexts(ps) == texts;
  }

  // ---------- whole lines ----------

  /** The text of a line: what is left when a final CR LF is taken off. */
  predicate TextOf(line: string, raw: string) {
    line == raw + "\r\n" || (line == raw && !EndsInCRLF(line))
  }

  lemma Trimmed(line: string, raw: string)
    ensures TextOf(line, raw) <==> TrimCRLF(line) == raw
  {
    if EndsInCRLF(line) {
      assert line == line[..|line| - 2] + "\r\n";
    }
    if line == raw + "\r\n" {
      assert line[..|raw|] == raw;
    }
  }

  lemma SourceRead(raw: string, tags: Tags, l: Line)
    requires Clean(l)
    ensures ParseSource(raw, tags, SourceText(l) + Body(l)) ==
            ParseBody(raw, tags, match l.source case None => "" case Some(s) => s, Body(l))
  {
    hide ParseBody, Body;
    match l.source
    case None => assert SourceText(l) + Body(l) == Body(l);
    case Some(s) =>
      SourceRoundTrip(raw, tags, s, Body(l));
      assert SourceText(l) + Body(l) == ":" + s + " " + Body(l);
  }

  lemma SectionFirst(section: string, rest: string)
    requires ' ' !in section
    ensures var raw := "@" + section + " " + rest;
            raw[0] == '@' && Index(raw, ' ') == |section| + 1 && raw[1..|section| + 1] == section && raw[|section| + 2..] == rest
  {
    IndexAt("@" + section, ' ', rest);
    assert "@" + section + " " + rest == ("@" + section) + [' '] + rest;
  }

  lemma TagsRead(l: Line)
    requires Clean(l) && l.tags.Some?
    ensures var raw, section := Text(l), Join(PieceTexts(l.tags.value), ';');
            ParseTrimmed(raw) ==
            match TagsOf(section) case None => Err(EmptyTagKey) case Some(tags) => ParseSource(raw, tags, SourceText(l) + Body(l))
  {
    hide TagsOf, ParseSource, Join, PieceTexts, Body, SourceText, Keyless, TagsMean, CleanPiece, MiddleParam, Index;
    SectionRead(l.tags.value);
    SectionFirst(Join(PieceTexts(l.tags.value), ';'), SourceText(l) + Body(l));
  }

  lemma TextRead(l: Line)
    requires Clean(l)
    ensures var r := ParseTrimmed(Text(l));
            if l.tags.Some? && Keyless(l.tags.value) then r == Err(EmptyTagKey)
            else r.Ok? && r.msg.raw == Text(l) && Means(l, r.msg)
  {
    var raw := Text(l);
    hide TagsOf, ParseSource, ParseBody, Body, ToUpper, TagsMean, Keyless, EndingParam;
    if l.tags.Some? {
      TagsRead(l);
      SectionRead(l.tags.value);
      if !Keyless(l.tags.value) {
        var tags := TagsOf(Join(PieceTexts(l.tags.value), ';')).value;
        SourceRead(raw, tags, l);
        BodyRead(raw, tags, match l.source case None => "" case Some(s) => s, l);
      }
    } else {
      SourceRead(raw, map[], l);
      BodyRead(raw, map[], match l.source case None => "" case Some(s) => s, l);
      assert raw == SourceText(l) + Body(l);
      assert raw != "" && raw[0] != '@';
    }
  }

  /** What stands between the first byte and the first space. */
  lemma AfterFirst(s: string, i: int)
    requires s != "" && s[0] != ' ' && i == Index(s, ' ') && i != -1
    ensures s == [s[0]] + s[1..i] + " " + s[i + 1..] && ' ' !in s[1..i]
  {
    assert forall j | 0 <= j < |s[1..i]| :: s[1..i][j] == s[..i][j + 1];
  }

  /** The parts of an accepted text. */
  lemma LineOf(raw: string) returns (l: Line)
    requires ParseTrimmed(raw).Ok?
    ensures Clean(l) && Text(l) == raw
  {
    hide ParseSource, TagsOf, Index, CleanPiece, Clean, SourceText, Body, Join, PieceTexts;
    if raw[0] == '@' {
      var i := Index(raw, ' ');
      var section := raw[1..i];
      AfterFirst(raw, i);
      assert raw == "@" + section + " " + raw[i + 1..];
      PiecesOfSection(section);
      l := RestOf(Some(PiecesOf(section)), raw, TagsOf(section).value, raw[i + 1..]);
      assert Text(l) == "@" + section + " " + raw[i + 1..];
    } else {
      l := RestOf(None, raw, map[], raw);
      assert Text(l) == "" + raw;
    }
  }

  predicate CleanPieces(pieces: Option<seq<TagPiece>>) {
    pieces.Some? ==> pieces.value != [] && forall p | p in pieces.value :: CleanPiece(p)
  }

  lemma RestOf(pieces: Option<seq<TagPiece>>, raw: string, tags: Tags, rest: string) returns (l: Line)
    requires ParseSource(raw, tags, rest).Ok? && CleanPieces(pieces)
    requires pieces.None? ==> rest == "" || rest[0] != '@'
    ensures Clean(l) && |l.gaps| == |l.params| && l.tags == pieces && SourceText(l) + Body(l) == rest
  {
    hide Clean, Body, CleanPieces, ParseBody, Index;
    if rest != "" && rest[0] == ':' {
      var i := Index(rest, ' ');
      var source := rest[1..i];
      AfterFirst(rest, i);
      assert rest == ":" + source + " " + rest[i + 1..];
      BodyNotEmpty(raw, tags, source, rest[i + 1..]);
      l := BodyOf(pieces, Some(source), rest[i + 1..]);
    } else {
      BodyNotEmpty(raw, tags, "", rest);
      l := BodyOf(pieces, None, rest);
      assert SourceText(l) + Body(l) == "" + rest;
    }
  }

  lemma BodyNotEmpty(raw: string, tags: Tags, source: string, body: string)
    requires ParseBody(raw, tags, source, body).Ok?
    ensures body != ""
  {
  }

  lemma BodyOf(pieces: Option<seq<TagPiece>>, source: Option<string>, body: string) returns (l: Line)
    requires body != "" && (source.None? ==> body[0] != ':') && (source.None? && pieces.None? ==> body[0] != '@')
    requires source.Some? ==> ' ' !in source.value
    requires CleanPieces(pieces)
    ensures Clean(l) && |l.gaps| == |l.params| && l.tags == pieces && l.source == source && Body(l) == body
  {
    hide MiddleParam, Written, EndingText, CleanPiece, Index, FirstWord;
    var command := FirstWord(body);
    var rest := body[|command|..];
    var p := ReadingOf(rest);
    assert body == command + rest;
    l := Line(pieces, source, command, p.params, p.gaps, p.ending);
    assert command + rest == command + Written(p.params, p.gaps) + EndingText(p.ending);
  }

  predicate Spells(l: Line, raw: string) {
    Clean(l) && Text(l) == raw
  }

  /**
   Main result: the parser accepts exactly the lines written so, valid as UTF-8, not too long and with no
   empty tag key, and returns exactly what they mean.
   */
  lemma {:induction false} ReadsExactly(line: string, m: Message)
    ensures Parse(line) == Ok(m) <==>
            && ValidUtf8(line) && |line| <= 8704 && TextOf(line, m.raw)
            && exists l :: Spells(l, m.raw) && Means(l, m)
  {
    hide ValidUtf8, Clean, Means, TextOf, TrimCRLF, ParseTrimmed;
    if Parse(line) == Ok(m) {
      Trimmed(line, TrimCRLF(line));
      var l := LineOf(TrimCRLF(line));
      TextRead(l);
      NotKeyless(l, m);
    }
    if ValidUtf8(line) && |line| <= MAX_LINE && TextOf(line, m.raw) && exists l :: Spells(l, m.raw) && Means(l, m) {
      var l :| Spells(l, m.raw) && Means(l, m);
      Trimmed(line, m.raw);
      TextRead(l);
      NotKeyless(l, m);
      SameMeaning(l, ParseTrimmed(m.raw).msg, m);
    }
  }

  lemma NotKeyless(l: Line, m: Message)
    ensures Means(l, m) && l.tags.Some? ==> !Keyless(l.tags.value)
  {
  }

  lemma SameMeaning(l: Line, a: Message, b: Message)
    requires Means(l, a) && Means(l, b) && a.raw == b.raw
    ensures a == b
  {
    hide TagsMean, Keyless, ToUpper;
    if l.tags.Some? {
      OnlyMeaning(l.tags.value, a.tags, b.tags);
    }
  }

  const LOWER := "abcdefghijklmnopqrstuvwxyz"
  const UPPER := "ABCDEFGHIJKLMNOPQRSTUVWXYZ"

  lemma LettersAt(k: nat)
    requires k < 26
    ensures |LOWER| == |UPPER| == 26 && LOWER[k] as int == 'a' as int + k && UPPER[k] as int == 'A' as int + k
  {
  }

  /** The command in upper case: each of the 26 letters, and nothing else, is changed. */
  lemma UpperExactly(s: string, i: nat)
    requires i < |s|
    ensures |ToUpper(s)| == |s|
    ensures forall k | 0 <= k < |LOWER| && s[i] == LOWER[k] :: k < |UPPER| && ToUpper(s)[i] == UPPER[k]
    ensures s[i] !in LOWER ==> ToUpper(s)[i] == s[i]
  {
    hide ToUpper;
    LettersAt(0);
    forall k | 0 <= k < |LOWER| && s[i] == LOWER[k] ensures k < |UPPER| && ToUpper(s)[i] == UPPER[k] {
      LettersAt(k);
    }
    if 'a' <= s[i] <= 'z' {
      LettersAt(s[i] as int - 'a' as int);
      assert s[i] in LOWER;
    }
  }

  /** What separates words. */
  lemma WhiteExactly(c: char)
    ensures IsSpace(c) <==> c as int == 32 || 9 <= c as int <= 13
  {
  }

  // ---------- spaces ----------

  predicate SameButGaps(a: Line, b: Line) {
    && a.tags == b.tags && a.source == b.source && a.command == b.command && a.params == b.params
    && EndingParam(a.ending) == EndingParam(b.ending)
  }

  /** How many spaces there are behind the command makes no difference. */
  lemma SpacesDoNotMatter(a: Line, b: Line)
    requires Clean(a) && Clean(b) && SameButGaps(a, b)
    ensures var r, r' := ParseTrimmed(Text(a)), ParseTrimmed(Text(b));
            (r.Ok? <==> r'.Ok?) && (r.Ok? ==> SameFields(r.msg, r'.msg))
  {
    assert |a.gaps| == |a.params| && |b.gaps| == |b.params|;
    hide ParseTrimmed, Clean, Text, TagsMean, Keyless, ToUpper, EndingParam;
    TextRead(a);
    TextRead(b);
    if ParseTrimmed(Text(a)).Ok? && a.tags.Some? {
      OnlyMeaning(a.tags.value, ParseTrimmed(Text(a)).msg.tags, ParseTrimmed(Text(b)).msg.tags);
    }
  }

  /** In front of the command it does: behind a source or tags a second space makes the command a parameter. */
  lemma SpaceHidesCommand(l: Line, more: nat)
    requires Clean(l) && MiddleParam(l.command) && (l.source.Some? || l.tags.Some?)
    requires l.tags.Some? ==> !Keyless(l.tags.value)
    ensures var raw := TagsText(l) + (SourceText(l) + (Spaces(1 + more) + Body(l)));
            var r := ParseTrimmed(raw);
            r.Ok? && r.msg.command == "" && r.msg.params == [l.command] + l.params + EndingParam(l.ending)
  {
    assert |l.gaps| == |l.params|;
    var l' := Hidden(l, more);
    hide Clean, ParseTrimmed, Keyless, TagsMean, Body, Spaces, EndingParam, Join, PieceTexts;
    HiddenBody(l, more);
    HiddenClean(l, more);
    TextRead(l');
    assert [l.command] + l.params + EndingParam(l.ending) == l'.params + EndingParam(l'.ending);
  }

  /** The line whose command is empty and whose first parameter is the command of `l`. */
  function Hidden(l: Line, more: nat): Line {
    l.(command := "", params := [l.command] + l.params, gaps := [more] + l.gaps)
  }

  lemma HiddenClean(l: Line, more: nat)
    requires Clean(l) && MiddleParam(l.command) && (l.source.Some? || l.tags.Some?)
    ensures Clean(Hidden(l, more))
  {
    hide MiddleParam, Spaces, Body, CleanPiece;
    HiddenBody(l, more);
    SpacesStart(more, Body(l));
    var l' := Hidden(l, more);
    assert forall p | p in l'.params :: p == l.command || p in l.params;
    assert Body(l')[0] == ' ';
  }

  lemma HiddenBody(l: Line, more: nat)
    requires |l.gaps| == |l.params|
    ensures Body(Hidden(l, more)) == Spaces(1 + more) + Body(l)
  {
    hide Spaces, EndingText;
    var l' := Hidden(l, more);
    assert l'.params[1..] == l.params && l'.gaps[1..] == l.gaps;
    WrittenCons(l'.params, l'.gaps, EndingText(l.ending));
    assert Body(l') == "" + (Written(l'.params, l'.gaps) + EndingText(l.ending));
    assert Body(l) == l.command + (Written(l.params, l.gaps) + EndingText(l.ending));
  }

  // ---------- what is refused ----------

  /** Why a line is not accepted, in the order of the code. */
  lemma RefusedExactly(line: string, raw: string, section: string, rest: string)
    requires TextOf(line, raw)
    requires raw != "" && raw[0] == '@' && ' ' in raw ==> ' ' !in section && raw == "@" + section + " " + rest
    requires raw != "" && raw[0] != '@' ==> rest == raw
    ensures !ValidUtf8(line) ==> Parse(line) == Err(InvalidUtf8)
    ensures ValidUtf8(line) && |line| > 8704 ==> Parse(line) == Err(TooLong)
    ensures ValidUtf8(line) && |line| <= 8704 ==> Refused(Parse(line), raw, section, rest)
  {
    hide ValidUtf8, TrimCRLF, TextOf, TagsOf, ParseSource, Index;
    Trimmed(line, raw);
    TextRefused(raw, section, rest);
  }

  /** The reasons there are, for a text. */
  ghost predicate Refused(r: ParseResult, raw: string, section: string, rest: string) {
    && (raw == "" ==> r == Err(EmptyLine))
    && (raw != "" && raw[0] == '@' && ' ' !in raw ==> r == Err(TagsWithoutCommand))
    && (raw != "" && raw[0] == '@' && ' ' in raw && TagsOf(section).None? ==> r == Err(EmptyTagKey))
    && (raw != "" && (raw[0] != '@' || (' ' in raw && TagsOf(section).Some?)) ==>
          && (r == Err(SourceWithoutCommand) <==> rest != "" && rest[0] == ':' && ' ' !in rest)
          && (r == Err(MissingCommand) <==> rest == "" || (exists source :: rest == ":" + source + " " && ' ' !in source))
          && (r.Err? ==> r.error in {SourceWithoutCommand, MissingCommand}))
  }

  lemma TextRefused(raw: string, section: string, rest: string)
    requires raw != "" && raw[0] == '@' && ' ' in raw ==> ' ' !in section && raw == "@" + section + " " + rest
    requires raw != "" && raw[0] != '@' ==> rest == raw
    ensures Refused(ParseTrimmed(raw), raw, section, rest)
  {
    hide TagsOf, ParseSource, Index;
    if raw != "" && raw[0] == '@' {
      if ' ' in raw {
        SectionFirst(section, rest);
        if TagsOf(section).Some? {
          RestRefused(raw, TagsOf(section).value, rest);
        }
      }
    } else {
      RestRefused(raw, map[], rest);
    }
  }

  lemma RestRefused(raw: string, tags: Tags, rest: string)
    ensures var r := ParseSource(raw, tags, rest);
            && (r == Err(SourceWithoutCommand) <==> rest != "" && rest[0] == ':' && ' ' !in rest)
            && (r == Err(MissingCommand) <==> rest == "" || (exists source :: rest == ":" + source + " " && ' ' !in source))
            && (r.Err? ==> r.error in {SourceWithoutCommand, MissingCommand})
  {
    hide ToUpper, ParamsOf, Split;
    if rest != "" && rest[0] == ':' && ' ' in rest {
      hide Index;
      var i := Index(rest, ' ');
      AfterFirst(rest, i);
      if i == |rest| - 1 {
        assert rest == ":" + rest[1..i] + " ";
      }
      forall source | rest == ":" + source + " " && ' ' !in source ensures i == |rest| - 1 {
        IndexAt(":" + source, ' ', "");
        assert rest == (":" + source) + [' '] + "";
      }
    }
  }

  // ---------- how a message is printed ----------

  predicate NeedsEnding(p: string) {
    p == "" || ' ' in p || p[0] == ':'
  }

  function TagLine(tags: Tags, k: string): TagPiece
    requires k in tags
  {
    if tags[k] == "" then Bare(k) else Valued(k, EscapeTagValue(tags[k]))
  }

  function NoGaps(n: nat): seq<nat> {
    seq(n, i => 0)
  }

  predicate Colon(params: seq<string>) {
    params != [] && NeedsEnding(params[|params| - 1])
  }

  function PrintedMiddle(params: seq<string>): seq<string> {
    if Colon(params) then params[..|params| - 1] else params
  }

  function PrintedEnding(params: seq<string>): Ending {
    if Colon(params) then Trailing(0, params[|params| - 1]) else Blank(0)
  }

  /** The parts of a printed message: single spaces, and a colon only where it is needed. */
  function Printed(m: Message, order: seq<string>): Line
    requires forall k | k in order :: k in m.tags
  {
    Line(
      if m.tags == map[] then None else Some(seq(|order|, i requires 0 <= i < |order| => TagLine(m.tags, order[i]))),
      if m.source == "" then None else Some(m.source),
      m.command, PrintedMiddle(m.params), NoGaps(|PrintedMiddle(m.params)|), PrintedEnding(m.params))
  }

  lemma {:induction false} TagsPrinted(tags: Tags, order: seq<string>)
    requires forall k | k in order :: k in tags
    ensures PrintTags(tags, order) == PieceTexts(seq(|order|, i requires 0 <= i < |order| => TagLine(tags, order[i])))
  {
    if order != [] {
      var rest := order[1..];
      TagsPrinted(tags, rest);
      assert forall i | 0 <= i < |rest| :: rest[i] == order[i + 1];
    }
  }

  function ParamText(params: seq<string>): string {
    Written(PrintedMiddle(params), NoGaps(|PrintedMiddle(params)|)) + EndingText(PrintedEnding(params))
  }

  lemma OneParam(p: string)
    ensures ParamText([p]) == " " + PrintLast(p)
  {
    hide Written, EndingText, NeedsEnding;
    assert NeedsEnding(p) <==> NeedsColon(p) by {
      SameNeed(p);
    }
    hide NeedsColon;
    if NeedsEnding(p) {
      OneEnding(p);
      assert [p][..0] == [];
    } else {
      OneWritten(p);
    }
  }

  lemma SameNeed(p: string)
    ensures NeedsEnding(p) <==> NeedsColon(p)
  {
  }

  lemma OneEnding(p: string)
    ensures Written([], NoGaps(0)) + EndingText(Trailing(0, p)) == " " + (":" + p)
  {
    assert Spaces(1 + 0) == " ";
  }

  lemma OneWritten(p: string)
    ensures Written([p], NoGaps(1)) + EndingText(Blank(0)) == " " + p
  {
    assert Spaces(1 + 0) == " " && Spaces(0) == "";
    assert [p][1..] == [] && NoGaps(1)[1..] == NoGaps(0) == [];
    assert Written([p], NoGaps(1)) == " " + p + Written([], NoGaps(0));
  }

  lemma NoParam()
    ensures ParamText([]) == ""
  {
    assert Spaces(0) == "";
  }

  lemma ParamFirst(params: seq<string>)
    requires |params| > 1
    ensures ParamText(params) == " " + params[0] + ParamText(params[1..])
  {
    hide NeedsEnding, EndingText;
    var middle, rest := PrintedMiddle(params), PrintedMiddle(params[1..]);
    assert middle == [params[0]] + rest && PrintedEnding(params) == PrintedEnding(params[1..]);
    assert middle[1..] == rest && NoGaps(|middle|)[1..] == NoGaps(|rest|);
    WrittenCons(middle, NoGaps(|middle|), EndingText(PrintedEnding(params)));
    assert Spaces(1 + 0) == " ";
  }

  lemma {:induction false} ParamsPrinted(params: seq<string>, head: string)
    ensures Join([head] + PrintParams(params), ' ') == head + ParamText(params)
    decreases |params|
  {
    hide ParamText, Join;
    if |params| == 0 {
      NoParam();
      assert [head] + [] == [head];
      OnePiece(head);
    } else if |params| == 1 {
      PrintParamsOne(params);
      JoinCons(head, PrintParams(params), ' ');
      OneParam(params[0]);
      assert params == [params[0]];
    } else {
      PrintParamsCons(params);
      hide PrintParams;
      ParamsPrinted(params[1..], params[0]);
      JoinCons(head, [params[0]] + PrintParams(params[1..]), ' ');
      ParamFirst(params);
    }
  }

  lemma OnePiece(head: string)
    ensures Join([head], ' ') == head
  {
  }

  /** Main result: what is printed, byte by byte. */
  lemma PrintsExactly(m: Message, order: seq<string>)
    requires IsEnumeration(order, m.tags.Keys)
    ensures (forall k | k in order :: k in m.tags) && |Printed(m, order).gaps| == |Printed(m, order).params|
    ensures Print(m, order) == Text(Printed(m, order))
  {
    hide *;
    TagsPart(m, order);
    PrintIsPrefixes(m, order);
    SourcePart(m, order);
    BodyPart(m, order);
  }

  lemma TagsPart(m: Message, order: seq<string>)
    requires IsEnumeration(order, m.tags.Keys)
    ensures (forall k | k in order :: k in m.tags) && TagPrefix(m, order) == TagsText(Printed(m, order))
  {
    hide Join, PrintTags, TagLine, PrintedMiddle, PrintedEnding;
    TagsPrinted(m.tags, order);
    assert |m.tags| > 0 <==> m.tags != map[];
  }

  lemma SourcePart(m: Message, order: seq<string>)
    requires forall k | k in order :: k in m.tags
    ensures SourcePrefix(m) == SourceText(Printed(m, order))
  {
    hide PrintedMiddle, PrintedEnding, TagLine;
  }

  lemma BodyPart(m: Message, order: seq<string>)
    requires forall k | k in order :: k in m.tags
    ensures var l := Printed(m, order);
            |l.gaps| == |l.params| && BodyText(m) == Body(l)
            && Text(l) == TagsText(l) + (SourceText(l) + Body(l))
  {
    hide Join, PrintParams, PrintedMiddle, PrintedEnding, TagLine, TagsText, SourceText, Written, EndingText;
    ParamsPrinted(m.params, m.command);
    var l := Printed(m, order);
    assert Body(l) == l.command + (Written(l.params, l.gaps) + EndingText(l.ending));
  }
}
