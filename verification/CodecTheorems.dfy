/**
 What the codec promises: exactly which messages survive being printed and parsed again, and
 that printing a parsed line loses nothing. Every statement holds for every order in which the
 tag map may be enumerated.
 */
module CodecTheorems {
  import opened GoStrings
  import opened TagEscaping
  import opened Utf8
  import opened Message

  predicate MiddleParam(p: string) {
    p != "" && ' ' !in p && p[0] != ':'
  }

  predicate GoodParams(params: seq<string>) {
    forall i | 0 <= i < |params| - 1 :: MiddleParam(params[i])
  }

  predicate CleanKey(k: string) {
    k != "" && ' ' !in k && ';' !in k && '=' !in k
  }

  predicate CleanTags(tags: Tags) {
    forall k | k in tags :: CleanKey(k) && RoundTripSafe(tags[k])
  }

  predicate EndsInCRLF(s: string) {
    |s| >= 2 && s[|s| - 2] == '\r' && s[|s| - 1] == '\n'
  }

  function LastPiece(m: Message): string {
    if m.params == [] then m.command else m.params[|m.params| - 1]
  }

  /** What every parsed message satisfies. */
  predicate Parsed(m: Message) {
    && CleanTags(m.tags)
    && ' ' !in m.source
    && ' ' !in m.command
    && ToUpper(m.command) == m.command
    && GoodParams(m.params)
  }

  /** The printed form has a command, and the command is not taken for a source or a tag section. */
  predicate Reprintable(m: Message) {
    && (m.command != "" || m.params != [])
    && (m.source == "" && m.command != "" ==> m.command[0] != ':')
    && (m.source == "" && m.tags == map[] && m.command != "" ==> m.command[0] != '@')
  }

  predicate WellFormed(m: Message) {
    Parsed(m) && Reprintable(m) && !EndsInCRLF(LastPiece(m))
  }

  /** The commands on which ToUpper is strings.ToUpper. */
  predicate AsciiCommand(m: Message) {
    forall c | c in m.command :: Ascii(c)
  }

  predicate SameFields(a: Message, b: Message) {
    a.tags == b.tags && a.source == b.source && a.command == b.command && a.params == b.params
  }

  // ---------- parameters ----------

  function PrintLast(p: string): string {
    if NeedsColon(p) then ":" + p else p
  }

  lemma LastParamRoundTrip(p: string)
    ensures ParamsOf(Split(PrintLast(p), ' ')) == [p]
  {
    var parts := Split(PrintLast(p), ' ');
    if NeedsColon(p) {
      var s := ":" + p;
      assert s[0] == ':';
      JoinSplit(s, ' ');
      assert parts[0] != "" && parts[0][0] == ':';
      assert s[1..] == p;
    } else {
      assert parts == [p];
      assert parts[1..] == [];
    }
  }

  lemma ParamsOfMiddle(head: string, rest: seq<string>)
    requires MiddleParam(head)
    ensures ParamsOf([head] + rest) == [head] + ParamsOf(rest)
  {
    assert ([head] + rest)[1..] == rest;
  }

  lemma PrintParamsCons(params: seq<string>)
    requires |params| > 1
    ensures PrintParams(params) == [params[0]] + PrintParams(params[1..])
    ensures PrintParams(params[1..]) != []
  {
  }

  lemma PrintParamsOne(params: seq<string>)
    requires |params| == 1
    ensures PrintParams(params) == [PrintLast(params[0])]
    ensures Join(PrintParams(params), ' ') == PrintLast(params[0])
  {
    hide NeedsColon;
  }

  lemma GoodTail(params: seq<string>)
    requires |params| > 1 && GoodParams(params)
    ensures MiddleParam(params[0]) && GoodParams(params[1..])
  {
    hide MiddleParam;
    assert forall i | 0 <= i < |params| - 2 :: params[1..][i] == params[i + 1];
  }

  lemma {:induction false} ParamsRoundTrip(params: seq<string>)
    requires params != [] && GoodParams(params)
    ensures ParamsOf(Split(Join(PrintParams(params), ' '), ' ')) == params
    decreases |params|
  {
    hide *;
    if |params| == 1 {
      LastParamRoundTrip(params[0]);
      PrintParamsOne(params);
      assert [params[0]] == params;
    } else {
      var head, tail := params[0], params[1..];
      GoodTail(params);
      assert ' ' !in head by {
        MiddleHasNoSpace(head);
      }
      ParamsRoundTrip(tail);
      PrintParamsCons(params);
      SplitConsJoin(head, PrintParams(tail), ' ');
      ParamsOfMiddle(head, Split(Join(PrintParams(tail), ' '), ' '));
      assert [head] + tail == params;
    }
  }

  lemma MiddleHasNoSpace(p: string)
    requires MiddleParam(p)
    ensures ' ' !in p
  {
  }

  function BodyText(m: Message): string {
    Join([m.command] + PrintParams(m.params), ' ')
  }

  lemma BodyPieces(m: Message)
    requires ' ' !in m.command && GoodParams(m.params)
    ensures var parts := Split(BodyText(m), ' ');
            parts[0] == m.command && ParamsOf(parts[1..]) == m.params
  {
    if m.params == [] {
      assert [m.command] + PrintParams(m.params) == [m.command];
      assert Split(m.command, ' ') == [m.command];
      assert [m.command][1..] == [];
    } else {
      ParamsRoundTrip(m.params);
      SplitConsJoin(m.command, PrintParams(m.params), ' ');
      var rest := Split(Join(PrintParams(m.params), ' '), ' ');
      assert ([m.command] + rest)[1..] == rest;
    }
  }

  /** The body starts with the command, followed by nothing or by a space. */
  lemma BodyStart(m: Message)
    ensures m.command <= BodyText(m)
    ensures |BodyText(m)| > |m.command| ==> BodyText(m)[|m.command|] == ' '
    ensures m.params == [] ==> BodyText(m) == m.command
    ensures m.params != [] ==> |BodyText(m)| > |m.command|
  {
    if m.params == [] {
      assert [m.command] + PrintParams(m.params) == [m.command];
    } else {
      JoinCons(m.command, PrintParams(m.params), ' ');
    }
  }

  lemma BodyRoundTrip(m: Message, raw: string, tags: Tags, source: string)
    requires ' ' !in m.command && GoodParams(m.params) && ToUpper(m.command) == m.command
    ensures ParseBody(raw, tags, source, BodyText(m)) ==
            if m.command == "" && m.params == [] then Err(MissingCommand)
            else Ok(Message(tags, source, m.command, m.params, raw))
  {
    BodyPieces(m);
    BodyStart(m);
  }

  // ---------- source ----------

  function SourcePrefix(m: Message): string {
    if m.source != "" then ":" + m.source + " " else ""
  }

  lemma SourceRoundTrip(raw: string, tags: Tags, source: string, rest: string)
    requires ' ' !in source
    ensures ParseSource(raw, tags, ":" + source + " " + rest) == ParseBody(raw, tags, source, rest)
  {
    var s := ":" + source + " " + rest;
    assert s == (":" + source) + [' '] + rest;
    IndexAt(":" + source, ' ', rest);
    assert s[1..1 + |source|] == source;
    assert s[|source| + 2..] == rest;
  }

  // ---------- tags ----------

  function TagPrefix(m: Message, order: seq<string>): string
    requires forall k | k in order :: k in m.tags
  {
    if |m.tags| > 0 then "@" + Join(PrintTags(m.tags, order), ';') + " " else ""
  }

  lemma TagRoundTrip(key: string, value: string, tags: Tags)
    requires CleanKey(key) && RoundTripSafe(value)
    ensures AddTag(PrintTag(key, value), tags) == Some(tags[key := value])
    ensures ';' !in PrintTag(key, value) && ' ' !in PrintTag(key, value)
  {
    if value != "" {
      var e := EscapeTagValue(value);
      var pair := key + "=" + e;
      EscapedIsClean(value);
      RoundTripExactlyWhenSafe(value);
      assert pair == key + ['='] + e;
      IndexAt(key, '=', e);
      assert pair[|key|] == '=';
      assert pair[..|key|] == key && pair[|key| + 1..] == e;
      assert NeedsEscape(';') && NeedsEscape(' ');
    }
  }

  function Listed(tags: Tags, order: seq<string>): Tags
    requires forall k | k in order :: k in tags
  {
    map k | k in order :: tags[k]
  }

  lemma {:induction false} TagsRoundTrip(tags: Tags, order: seq<string>, acc: Tags)
    requires CleanTags(tags)
    requires forall k | k in order :: k in tags
    ensures AddTags(PrintTags(tags, order), acc) == Some(acc + Listed(tags, order))
    ensures forall p | p in PrintTags(tags, order) :: ';' !in p && ' ' !in p
    ensures |PrintTags(tags, order)| == |order|
  {
    hide PrintTag, AddTag, RoundTripSafe, CleanKey, Listed;
    if order == [] {
      ListedNone(tags, acc);
    } else {
      var k0, rest := order[0], order[1..];
      assert PrintTags(tags, order) == [PrintTag(k0, tags[k0])] + PrintTags(tags, rest);
      TagRoundTrip(k0, tags[k0], acc);
      TagsRoundTrip(tags, rest, acc[k0 := tags[k0]]);
      ListedCons(tags, order, acc);
      AddTagsCons(PrintTag(k0, tags[k0]), PrintTags(tags, rest), acc);
      hide PrintTags, AddTags;
    }
  }

  lemma ListedNone(tags: Tags, acc: Tags)
    ensures acc + Listed(tags, []) == acc
  {
  }

  lemma ListedCons(tags: Tags, order: seq<string>, acc: Tags)
    requires order != [] && forall k | k in order :: k in tags
    ensures acc[order[0] := tags[order[0]]] + Listed(tags, order[1..]) == acc + Listed(tags, order)
  {
    assert order == [order[0]] + order[1..];
  }

  lemma ListedAll(tags: Tags, order: seq<string>)
    requires IsEnumeration(order, tags.Keys)
    ensures map[] + Listed(tags, order) == tags
  {
  }

  lemma AddTagsCons(pair: string, pairs: seq<string>, acc: Tags)
    requires AddTag(pair, acc).Some?
    ensures AddTags([pair] + pairs, acc) == AddTags(pairs, AddTag(pair, acc).value)
  {
    hide AddTag;
    assert ([pair] + pairs)[1..] == pairs;
  }

  lemma SplitAll(parts: seq<string>, sep: char)
    requires parts != [] && forall p | p in parts :: sep !in p
    ensures Split(Join(parts, sep), sep) == parts
  {
    var n := |parts| - 1;
    assert parts[n] in parts;
    assert forall i | 0 <= i < n :: parts[..n][i] in parts;
    assert parts == parts[..n] + [parts[n]];
    SplitJoin(parts[..n], parts[n], sep);
    assert Split(parts[n], sep) == [parts[n]];
  }

  lemma PrintTagsHead(tags: Tags, order: seq<string>)
    requires CleanTags(tags) && order != [] && forall k | k in order :: k in tags
    ensures Join(PrintTags(tags, order), ';') != ""
  {
    assert CleanKey(order[0]);
    assert PrintTags(tags, order)[0] != "";
  }

  lemma PrintTagsNone(tags: Tags)
    ensures Join(PrintTags(tags, []), ';') == ""
  {
  }

  /** Enumerated in any order, the printed tag section is parsed back to the same map. */
  lemma TagSectionRoundTrip(tags: Tags, order: seq<string>)
    requires CleanTags(tags) && IsEnumeration(order, tags.Keys)
    ensures TagsOf(Join(PrintTags(tags, order), ';')) == Some(tags)
    ensures ' ' !in Join(PrintTags(tags, order), ';')
  {
    var parts := PrintTags(tags, order);
    hide AddTags, PrintTags, Join, Split, CleanKey, CleanTags, RoundTripSafe, Listed;
    TagsRoundTrip(tags, order, map[]);
    NotInJoin(parts, ';', ' ');
    ListedAll(tags, order);
    if order != [] {
      assert order[0] in tags;
      PrintTagsHead(tags, order);
      SplitAll(parts, ';');
    } else {
      PrintTagsNone(tags);
    }
  }

  lemma TagPrefixRoundTrip(m: Message, order: seq<string>, rest: string)
    requires CleanTags(m.tags) && IsEnumeration(order, m.tags.Keys) && |m.tags| > 0
    ensures var raw := TagPrefix(m, order) + rest; ParseTrimmed(raw) == ParseSource(raw, m.tags, rest)
  {
    TagSectionRoundTrip(m.tags, order);
    hide Join, PrintTags, TagsOf, ParseSource, IsEnumeration, CleanTags, Split, Index;
    var section := Join(PrintTags(m.tags, order), ';');
    var raw := TagPrefix(m, order) + rest;
    assert raw == ("@" + section) + [' '] + rest;
    IndexAt("@" + section, ' ', rest);
    assert raw[1..1 + |section|] == section;
    assert raw[|section| + 2..] == rest;
  }

  lemma SourceJoin(m: Message)
    ensures Join(SourcePieces(m) + ([m.command] + PrintParams(m.params)), ' ') == SourcePrefix(m) + BodyText(m)
  {
    hide Join, PrintParams;
    var body := [m.command] + PrintParams(m.params);
    if m.source != "" {
      JoinCons(":" + m.source, body, ' ');
    } else {
      assert SourcePieces(m) + body == body;
    }
  }

  lemma PrintIsPrefixes(m: Message, order: seq<string>)
    requires forall k | k in order :: k in m.tags
    ensures Print(m, order) == TagPrefix(m, order) + (SourcePrefix(m) + BodyText(m))
  {
    hide Join, PrintParams, PrintTags;
    var t, s, c, ps := TagPieces(m, order), SourcePieces(m), [m.command], PrintParams(m.params);
    SourceJoin(m);
    assert t + s + c + ps == t + (s + (c + ps));
    if |m.tags| > 0 {
      JoinCons(t[0], s + (c + ps), ' ');
    } else {
      assert t + (s + (c + ps)) == s + (c + ps);
    }
  }

  // ---------- how a printed line ends ----------

  lemma {:induction false} PrintParamsEnd(params: seq<string>)
    requires params != []
    ensures var s := Join(PrintParams(params), ' ');
            EndsInCRLF(s) <==> EndsInCRLF(params[|params| - 1])
  {
    hide Join, NeedsColon, EndsInCRLF;
    if |params| > 1 {
      PrintParamsEnd(params[1..]);
      PrintParamsCons(params);
      var tail := Join(PrintParams(params[1..]), ' ');
      JoinCons(params[0], PrintParams(params[1..]), ' ');
      EndOfConcat(params[0] + [' '], tail);
    } else {
      PrintParamsOne(params);
      PrintLastEnd(params[0]);
    }
  }

  lemma PrintLastEnd(p: string)
    ensures EndsInCRLF(PrintLast(p)) <==> EndsInCRLF(p)
  {
  }

  lemma PrintEnd(m: Message, order: seq<string>)
    requires forall k | k in order :: k in m.tags
    ensures EndsInCRLF(Print(m, order)) <==> EndsInCRLF(LastPiece(m))
  {
    hide Join, PrintParams, PrintTags, Print;
    PrintIsPrefixes(m, order);
    BodyEnd(m);
    var tag, src, body := TagPrefix(m, order), SourcePrefix(m), BodyText(m);
    assert tag == "" || tag[|tag| - 1] == ' ';
    assert src == "" || src[|src| - 1] == ' ';
    EndOfConcat(src, body);
    EndOfConcat(tag, src + body);
  }

  lemma BodyEnd(m: Message)
    ensures EndsInCRLF(BodyText(m)) <==> EndsInCRLF(LastPiece(m))
  {
    hide Join;
    BodyStart(m);
    if m.params != [] {
      PrintParamsEnd(m.params);
      JoinCons(m.command, PrintParams(m.params), ' ');
      EndOfConcat(m.command + [' '], Join(PrintParams(m.params), ' '));
    }
  }

  lemma EndOfConcat(a: string, b: string)
    requires a == "" || a[|a| - 1] == ' '
    ensures EndsInCRLF(a + b) <==> EndsInCRLF(b)
  {
  }

  // ---------- sufficiency ----------

  /** Printing a well-formed message with an ASCII command and parsing the line gives the message back. */
  lemma PrintThenParse(m: Message, order: seq<string>)
    requires AsciiCommand(m) && WellFormed(m) && IsEnumeration(order, m.tags.Keys)
    requires ValidUtf8(Print(m, order)) && |Print(m, order)| <= MAX_LINE
    ensures Parse(Print(m, order)) == Ok(m.(raw := Print(m, order)))
  {
    hide Join, PrintParams, PrintTags, Print, ParseBody, ValidUtf8;
    var raw := Print(m, order);
    PrintIsPrefixes(m, order);
    PrintEnd(m, order);
    var rest := SourcePrefix(m) + BodyText(m);
    RestThenParse(m, raw);
    RestStart(m);
    hide BodyText, SourcePrefix, ParseSource;
    if |m.tags| > 0 {
      TagPrefixRoundTrip(m, order, rest);
    } else {
      assert m.tags == map[];
      assert raw == rest && raw != "" && raw[0] != '@';
    }
  }

  /** What stands behind the tags parses back. */
  lemma RestThenParse(m: Message, raw: string)
    requires WellFormed(m)
    ensures ParseSource(raw, m.tags, SourcePrefix(m) + BodyText(m)) == Ok(m.(raw := raw))
  {
    hide Join, PrintParams, ParseBody;
    BodyStart(m);
    BodyRoundTrip(m, raw, m.tags, m.source);
    var rest := SourcePrefix(m) + BodyText(m);
    if m.source != "" {
      SourceRoundTrip(raw, m.tags, m.source, BodyText(m));
    } else {
      assert rest == BodyText(m) && rest != "";
      assert rest[0] != ':';
    }
  }

  lemma RestStart(m: Message)
    requires WellFormed(m)
    ensures var rest := SourcePrefix(m) + BodyText(m); rest != "" && (m.tags == map[] ==> rest[0] != '@')
  {
    hide Join, PrintParams;
    BodyStart(m);
  }

  // ---------- what parsing yields ----------

  lemma {:induction false} SplitChars(s: string, sep: char, c: char)
    requires c !in s
    ensures forall p | p in Split(s, sep) :: c !in p
    decreases |s|
  {
    var i := Index(s, sep);
    if i != -1 {
      SplitChars(s[i + 1..], sep, c);
    }
  }

  lemma {:induction false} ParamsOfGood(parts: seq<string>)
    requires forall p | p in parts :: ' ' !in p
    ensures GoodParams(ParamsOf(parts))
  {
    if parts != [] {
      var rest := ParamsOf(parts[1..]);
      assert forall p | p in parts[1..] :: p in parts;
      ParamsOfGood(parts[1..]);
      if parts[0] != "" && parts[0][0] != ':' {
        assert parts[0] in parts;
        var all := ParamsOf(parts);
        assert all == [parts[0]] + rest;
        forall i | 0 <= i < |all| - 1 ensures MiddleParam(all[i]) {
          if i > 0 {
            assert all[i] == rest[i - 1];
          }
        }
      }
    }
  }

  lemma {:induction false} ParamsOfChars(parts: seq<string>, c: char)
    requires c != ' ' && forall p | p in parts :: c !in p
    ensures forall p | p in ParamsOf(parts) :: c !in p
  {
    if parts != [] {
      assert forall p | p in parts[1..] :: p in parts;
      assert parts[0] in parts;
      ParamsOfChars(parts[1..], c);
      NotInJoin(parts, ' ', c);
    }
  }

  lemma {:induction false} ParamsOfValid(parts: seq<string>)
    requires forall p | p in parts :: ValidUtf8(p)
    ensures forall p | p in ParamsOf(parts) :: ValidUtf8(p)
  {
    if parts != [] {
      assert forall p | p in parts[1..] :: p in parts;
      assert parts[0] in parts;
      ParamsOfValid(parts[1..]);
      if parts[0] != "" && parts[0][0] == ':' {
        ValidJoin(parts, ' ');
        var joined := Join(parts, ' ');
        assert joined[0] == ':';
        assert joined == [':'] + joined[1..];
        ValidTail(':', joined[1..]);
      }
    }
  }

  lemma UpperKeeps(s: string)
    ensures ToUpper(ToUpper(s)) == ToUpper(s)
    ensures ' ' !in s ==> ' ' !in ToUpper(s)
    ensures '\n' !in s ==> '\n' !in ToUpper(s)
  {
    var u := ToUpper(s);
    assert forall i | 0 <= i < |s| :: u[i] == UpperChar(s[i]) && s[i] in s;
    UpperTwice(s);
  }

  lemma UpperTwice(s: string)
    ensures ToUpper(ToUpper(s)) == ToUpper(s)
  {
    var u, v := ToUpper(s), ToUpper(ToUpper(s));
    assert forall i | 0 <= i < |s| :: u[i] == UpperChar(s[i]) && v[i] == UpperChar(u[i]);
  }

  predicate ValidTags(tags: Tags) {
    forall k | k in tags :: ValidUtf8(k) && ValidUtf8(tags[k])
  }

  lemma {:induction false} AddTagsClean(pairs: seq<string>, tags: Tags)
    requires CleanTags(tags) && ValidTags(tags)
    requires forall p | p in pairs :: ';' !in p && ' ' !in p && ValidUtf8(p)
    ensures match AddTags(pairs, tags) case None => true case Some(t) => CleanTags(t) && ValidTags(t)
  {
    if pairs != [] && AddTag(pairs[0], tags).Some? {
      var pair := pairs[0];
      assert pair in pairs && forall p | p in pairs[1..] :: p in pairs;
      var t := AddTag(pair, tags).value;
      if '=' in pair {
        var (key, value) := Cut(pair, '=');
        ValidCut(key, '=', value);
        ValidUnescape(value);
        UnescapeIsSafe(value);
        assert forall c | c in key :: c in pair;
      }
      assert CleanTags(t) && ValidTags(t);
      AddTagsClean(pairs[1..], t);
    }
  }

  lemma TagsOfClean(section: string)
    requires ' ' !in section && ValidUtf8(section)
    ensures match TagsOf(section) case None => true case Some(t) => CleanTags(t) && ValidTags(t)
  {
    SplitPieces(section, ';');
    SplitChars(section, ';', ' ');
    ValidSplit(section, ';');
    AddTagsClean(Split(section, ';'), map[]);
  }

  predicate ValidFields(m: Message) {
    ValidTags(m.tags) && ValidUtf8(m.source) && ValidUtf8(m.command) && forall p | p in m.params :: ValidUtf8(p)
  }

  predicate NoLineFeed(m: Message) {
    '\n' !in m.command && forall p | p in m.params :: '\n' !in p
  }

  lemma BodyYields(raw: string, tags: Tags, source: string, rest: string)
    requires rest != "" && ValidUtf8(rest)
    requires CleanTags(tags) && ValidTags(tags) && ValidUtf8(source) && ' ' !in source
    ensures var m := ParseBody(raw, tags, source, rest).msg;
            Parsed(m) && ValidFields(m) && ('\n' !in rest ==> NoLineFeed(m))
  {
    var parts := Split(rest, ' ');
    assert parts[0] in parts;
    SplitPieces(rest, ' ');
    ValidSplit(rest, ' ');
    ValidUpper(parts[0]);
    UpperKeeps(parts[0]);
    assert forall p | p in parts[1..] :: p in parts;
    ParamsOfGood(parts[1..]);
    ParamsOfValid(parts[1..]);
    if '\n' !in rest {
      SplitChars(rest, ' ', '\n');
      ParamsOfChars(parts[1..], '\n');
    }
  }

  lemma CutAtSpace(rest: string, i: nat)
    requires 1 <= i < |rest| && rest[0] == ':' && rest[i] == ' ' && ValidUtf8(rest)
    ensures ValidUtf8(rest[1..i]) && ValidUtf8(rest[i + 1..])
  {
    hide ValidUtf8;
    assert rest == rest[..i] + [' '] + rest[i + 1..];
    ValidCut(rest[..i], ' ', rest[i + 1..]);
    assert rest[..i] == [':'] + rest[1..i];
    ValidTail(':', rest[1..i]);
  }

  predicate Yields(r: ParseResult, from: string) {
    r.Ok? ==> Parsed(r.msg) && ValidFields(r.msg) && ('\n' !in from ==> NoLineFeed(r.msg))
  }

  lemma SourceYields(raw: string, tags: Tags, rest: string)
    requires CleanTags(tags) && ValidTags(tags) && ValidUtf8(rest)
    ensures Yields(ParseSource(raw, tags, rest), rest)
  {
    hide ValidUtf8, ParseBody, Parsed, ValidFields, CleanTags, ValidTags;
    if rest != "" && rest[0] == ':' {
      var i := Index(rest, ' ');
      if i != -1 {
        CutAtSpace(rest, i);
        assert forall c | c in rest[1..i] :: c in rest[..i];
        if rest[i + 1..] != "" {
          BodyYields(raw, tags, rest[1..i], rest[i + 1..]);
        } else {
          NoBody(raw, tags, rest[1..i]);
        }
      }
    } else if rest != "" {
      EmptyValid();
      BodyYields(raw, tags, "", rest);
    } else {
      NoBody(raw, tags, "");
    }
  }

  lemma NoBody(raw: string, tags: Tags, source: string)
    ensures ParseBody(raw, tags, source, "") == Err(MissingCommand)
  {
  }

  lemma EmptyValid()
    ensures ValidUtf8("")
    ensures CleanTags(map[]) && ValidTags(map[])
  {
  }

  lemma TrimmedYields(raw: string)
    requires ValidUtf8(raw) && ParseTrimmed(raw).Ok?
    ensures Yields(ParseTrimmed(raw), raw)
  {
    hide ParseSource, TagsOf, ValidUtf8, Parsed, ValidFields, CleanTags, ValidTags;
    if raw[0] == '@' {
      var i := Index(raw, ' ');
      assert raw == raw[..i] + [' '] + raw[i + 1..];
      ValidCut(raw[..i], ' ', raw[i + 1..]);
      assert raw[..i] == ['@'] + raw[1..i];
      ValidTail('@', raw[1..i]);
      TagsOfClean(raw[1..i]);
      SourceYields(raw, TagsOf(raw[1..i]).value, raw[i + 1..]);
    } else {
      EmptyValid();
      SourceYields(raw, map[], raw);
    }
  }

  /** Everything ParseMessage accepts is in the shape the printer can reproduce, up to Reprintable. */
  lemma {:induction false} ParseYields(line: string)
    requires Parse(line).Ok?
    ensures var m := Parse(line).msg;
            Parsed(m) && ValidFields(m) && ('\n' !in line ==> NoLineFeed(m))
  {
    hide ParseTrimmed, ValidUtf8;
    var raw := TrimCRLF(line);
    if raw != line {
      assert line == raw + ['\r'] + "\n";
      ValidCut(raw, '\r', "\n");
    }
    TrimmedYields(raw);
  }

  // ---------- necessity: a parse never yields more than it read ----------

  function ParamsWeight(params: seq<string>): nat {
    if params == [] then 0 else |params[0]| + 1 + ParamsWeight(params[1..])
  }

  function BodyWeight(m: Message): nat {
    |m.command| + ParamsWeight(m.params)
  }

  function SourceWeight(m: Message): nat {
    |SourcePrefix(m)|
  }

  lemma {:induction false} JoinPrintWeight(params: seq<string>)
    requires params != []
    ensures |Join(PrintParams(params), ' ')| + 1 <= ParamsWeight(params) + 1
  {
    if |params| > 1 {
      JoinPrintWeight(params[1..]);
      JoinCons(params[0], PrintParams(params[1..]), ' ');
    } else {
      assert params[1..] == [];
    }
  }

  lemma BodyTextWeight(m: Message)
    ensures |BodyText(m)| <= BodyWeight(m) + 1
  {
    BodyStart(m);
    if m.params != [] {
      JoinPrintWeight(m.params);
      JoinCons(m.command, PrintParams(m.params), ' ');
    }
  }

  function PiecesWeight(parts: seq<string>): nat {
    if parts == [] then 0 else |parts[0]| + 1 + PiecesWeight(parts[1..])
  }

  lemma {:induction false} JoinWeight(parts: seq<string>)
    requires parts != []
    ensures |Join(parts, ' ')| + 1 == PiecesWeight(parts)
  {
    if |parts| > 1 {
      JoinWeight(parts[1..]);
    } else {
      assert parts[1..] == [];
    }
  }

  lemma {:induction false} ParamsOfWeight(parts: seq<string>)
    ensures ParamsWeight(ParamsOf(parts)) <= PiecesWeight(parts)
  {
    if parts != [] {
      ParamsOfWeight(parts[1..]);
      JoinWeight(parts);
      var all := ParamsOf(parts);
      if parts[0] != "" {
        if parts[0][0] == ':' {
          assert all[1..] == [];
        } else {
          assert all[1..] == ParamsOf(parts[1..]);
        }
      }
    }
  }

  lemma ParseBodyWeight(raw: string, tags: Tags, source: string, rest: string)
    requires rest != ""
    ensures BodyWeight(ParseBody(raw, tags, source, rest).msg) <= |rest|
  {
    var parts := Split(rest, ' ');
    JoinSplit(rest, ' ');
    JoinWeight(parts);
    ParamsOfWeight(parts[1..]);
  }

  lemma ParseSourceWeight(raw: string, tags: Tags, rest: string)
    requires ParseSource(raw, tags, rest).Ok?
    ensures var m := ParseSource(raw, tags, rest).msg;
            SourceWeight(m) + BodyWeight(m) <= |rest|
  {
    if rest[0] == ':' {
      var i := Index(rest, ' ');
      ParseBodyWeight(raw, tags, rest[1..i], rest[i + 1..]);
    } else {
      ParseBodyWeight(raw, tags, "", rest);
    }
  }

  /** A line whose first piece was read as a tag section or a source cannot give that piece back as the command. */
  lemma FirstPieceIsLost(m: Message, m': Message, rest: string)
    requires ' ' !in m.command && m.command != ""
    requires BodyWeight(m') + SourceWeight(m') <= |rest|
    requires |rest| + |m.command| + 1 <= |BodyText(m)|
    ensures !SameFields(m, m')
  {
    BodyTextWeight(m);
  }

  lemma CommandAsSource(m: Message, raw: string)
    requires Parsed(m) && m.source == "" && m.command != "" && m.command[0] == ':'
    ensures var r := ParseSource(raw, m.tags, BodyText(m)); r.Ok? ==> !SameFields(r.msg, m)
  {
    hide BodyText, BodyWeight;
    var body, r := BodyText(m), ParseSource(raw, m.tags, BodyText(m));
    BodyStart(m);
    if r.Ok? && SameFields(r.msg, m) {
      var i := Index(body, ' ');
      assert i >= |m.command| by {
        assert forall j | 0 <= j < |m.command| :: body[j] == m.command[j];
      }
      ParseBodyWeight(raw, m.tags, body[1..i], body[i + 1..]);
      FirstPieceIsLost(m, r.msg, body[i + 1..]);
    }
  }

  lemma CommandAsTags(m: Message)
    requires Parsed(m) && m.source == "" && m.command != "" && m.command[0] == '@'
    ensures var r := ParseTrimmed(BodyText(m)); r.Ok? ==> !SameFields(r.msg, m)
  {
    hide BodyText, BodyWeight, TagsOf, ParseSource;
    var body, r := BodyText(m), ParseTrimmed(BodyText(m));
    BodyStart(m);
    if r.Ok? && SameFields(r.msg, m) {
      var i := Index(body, ' ');
      assert i >= |m.command| by {
        assert forall j | 0 <= j < |m.command| :: body[j] == m.command[j];
      }
      ParseSourceWeight(body, TagsOf(body[1..i]).value, body[i + 1..]);
      FirstPieceIsLost(m, r.msg, body[i + 1..]);
    }
  }

  /** What is read after the tag section of a printed line, when the line is cut short by `cut` bytes. */
  lemma AfterTags(m: Message, order: seq<string>, rest: string)
    requires CleanTags(m.tags) && IsEnumeration(order, m.tags.Keys)
    requires |m.tags| == 0 ==> rest != "" && rest[0] != '@'
    ensures var raw := TagPrefix(m, order) + rest; ParseTrimmed(raw) == ParseSource(raw, m.tags, rest)
  {
    if |m.tags| > 0 {
      TagPrefixRoundTrip(m, order, rest);
    } else {
      assert m.tags == map[];
      assert TagPrefix(m, order) + rest == rest;
    }
  }

  lemma ParseTrimmedWeight(raw: string)
    requires ParseTrimmed(raw).Ok?
    ensures var m := ParseTrimmed(raw).msg; SourceWeight(m) + BodyWeight(m) <= |raw|
  {
    if raw[0] == '@' {
      var i := Index(raw, ' ');
      ParseSourceWeight(raw, TagsOf(raw[1..i]).value, raw[i + 1..]);
    } else {
      ParseSourceWeight(raw, map[], raw);
    }
  }

  /** A final CR LF of the last piece is taken for the end of the line and lost. */
  lemma {:induction false} LineEndIsLost(m: Message, order: seq<string>)
    requires Parsed(m) && IsEnumeration(order, m.tags.Keys) && EndsInCRLF(LastPiece(m))
    ensures var r := ParseTrimmed(TrimCRLF(Print(m, order))); r.Ok? ==> !SameFields(r.msg, m)
  {
    hide BodyText, ParamsWeight, Print, ParseSource, ParseTrimmed, Join, PrintParams;
    var line := Print(m, order);
    var raw, r := TrimCRLF(line), ParseTrimmed(TrimCRLF(line));
    PrintIsPrefixes(m, order);
    PrintEnd(m, order);
    BodyEnd(m);
    BodyTextWeight(m);
    var rest := SourcePrefix(m) + BodyText(m)[..|BodyText(m)| - 2];
    assert raw == TagPrefix(m, order) + rest;
    if r.Ok? && SameFields(r.msg, m) {
      if |m.tags| > 0 {
        TagPrefixRoundTrip(m, order, rest);
        ParseSourceWeight(raw, m.tags, rest);
      } else {
        ParseTrimmedWeight(raw);
      }
      assert false;
    }
  }

  lemma {:induction false} NotReprintable(m: Message, order: seq<string>)
    requires Parsed(m) && IsEnumeration(order, m.tags.Keys) && !Reprintable(m)
    ensures var r := ParseTrimmed(Print(m, order)); r.Ok? ==> !SameFields(r.msg, m)
  {
    var raw := Print(m, order);
    var rest := SourcePrefix(m) + BodyText(m);
    PrintIsPrefixes(m, order);
    BodyStart(m);
    if m.source == "" {
      assert rest == BodyText(m);
      if m.command != "" && m.command[0] == ':' {
        AfterTags(m, order, rest);
        CommandAsSource(m, raw);
      } else if m.command != "" {
        assert |m.tags| == 0;
        assert raw == BodyText(m);
        CommandAsTags(m);
      } else if |m.tags| > 0 {
        AfterTags(m, order, rest);
      }
    } else {
      AfterTags(m, order, rest);
      SourceRoundTrip(raw, m.tags, m.source, BodyText(m));
    }
  }

  /**
   Main result, for ASCII commands. Printing a message and parsing the line returns the same tags,
   source, command and parameters exactly when the message is well formed and the line is short
   enough and valid UTF-8, whatever order the tags are printed in.
   */
  lemma {:induction false} RoundTripExactlyWhen(m: Message, order: seq<string>)
    requires AsciiCommand(m) && IsEnumeration(order, m.tags.Keys)
    ensures var line := Print(m, order);
            var r := Parse(line);
            (r.Ok? && SameFields(r.msg, m)) <==> (WellFormed(m) && ValidUtf8(line) && |line| <= MAX_LINE)
  {
    var line := Print(m, order);
    var r := Parse(line);
    if WellFormed(m) && ValidUtf8(line) && |line| <= MAX_LINE {
      PrintThenParse(m, order);
    }
    if r.Ok? && SameFields(r.msg, m) {
      ParseYields(line);
      assert Parsed(m);
      PrintEnd(m, order);
      if EndsInCRLF(LastPiece(m)) {
        LineEndIsLost(m, order);
      } else if !Reprintable(m) {
        NotReprintable(m, order);
      }
    }
  }

  // ---------- printing normalises ----------

  lemma {:induction false} PrintTagsValid(tags: Tags, order: seq<string>)
    requires ValidTags(tags)
    requires forall k | k in order :: k in tags
    ensures forall p | p in PrintTags(tags, order) :: ValidUtf8(p)
  {
    if order != [] {
      var k := order[0];
      assert k in order && k in tags;
      PrintTagsValid(tags, order[1..]);
      ValidEscape(tags[k]);
      ValidAscii('=');
      ValidConcat(k, "=");
      ValidConcat(k + "=", EscapeTagValue(tags[k]));
    }
  }

  lemma {:induction false} PrintParamsValid(params: seq<string>)
    requires forall p | p in params :: ValidUtf8(p)
    ensures forall p | p in PrintParams(params) :: ValidUtf8(p)
  {
    if params != [] {
      assert params[0] in params && forall p | p in params[1..] :: p in params;
      PrintParamsValid(params[1..]);
      ValidTail(':', params[0]);
    }
  }

  /** A line printed from valid UTF-8 fields is valid UTF-8. */
  lemma PrintValid(m: Message, order: seq<string>)
    requires ValidFields(m)
    requires forall k | k in order :: k in m.tags
    ensures ValidUtf8(Print(m, order))
  {
    PrintTagsValid(m.tags, order);
    PrintParamsValid(m.params);
    ValidJoin(PrintTags(m.tags, order), ';');
    ValidTail('@', Join(PrintTags(m.tags, order), ';'));
    ValidTail(':', m.source);
    ValidJoin(TagPieces(m, order) + SourcePieces(m) + [m.command] + PrintParams(m.params), ' ');
  }

  /**
   Main result, for ASCII commands. Reprinting a parsed line and parsing again returns the same
   message exactly when the reprint fits the length limit and the message is reprintable.
   */
  lemma {:induction false} PrintingNormalises(line: string, order: seq<string>)
    requires Parse(line).Ok? && '\n' !in line && AsciiCommand(Parse(line).msg)
    requires IsEnumeration(order, Parse(line).msg.tags.Keys)
    ensures var m := Parse(line).msg;
            var again := Parse(Print(m, order));
            (again.Ok? && SameFields(again.msg, m)) <==> (Reprintable(m) && |Print(m, order)| <= MAX_LINE)
  {
    var m := Parse(line).msg;
    ParseYields(line);
    PrintValid(m, order);
    RoundTripExactlyWhen(m, order);
    if m.params != [] {
      assert LastPiece(m) in m.params;
    }
  }

  lemma ColonLine()
    ensures Parse(": :a") == Ok(Message(map[], "", ToUpper(":a"), [], ": :a"))
    ensures ToUpper(":a") != "" && ToUpper(":a")[0] == ':'
  {
    var line := ": :a";
    hide ValidUtf8, TagsOf;
    assert line == ":" + [' '] + ":a";
    IndexAt(":", ' ', ":a");
    assert line[1..1] == "" && line[2..] == ":a";
    assert Split(":a", ' ') == [":a"];
    assert [":a"][1..] == [];
    ColonLineValid();
  }

  lemma ColonLineValid()
    ensures ValidUtf8(": :a")
  {
    ValidAscii('a');
    assert ":a" == [':'] + "a" && " :a" == [' '] + ":a" && ": :a" == [':'] + " :a";
    ValidTail(':', "a");
    ValidTail(' ', ":a");
    ValidTail(':', " :a");
  }

  /** An accepted line whose reprint reads differently: the empty source disappears from the reprint. */
  lemma {:induction false} ReprintCanFail(order: seq<string>)
    requires IsEnumeration(order, {})
    ensures var m := Parse(": :a").msg;
            var again := Parse(Print(m, order));
            Parse(": :a").Ok? && m.tags == map[] && !(again.Ok? && SameFields(again.msg, m))
  {
    hide Parse, Print, ToUpper;
    ColonLine();
    PrintingNormalises(": :a", order);
  }
}
