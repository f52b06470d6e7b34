/**
 IRC lines with IRCv3 message tags (parser/message.go): the parser, the printer, and the
 functions they are proved against. Go's map iteration makes the printed order of the tags
 arbitrary, so the printed form takes the order as an argument.
 */
module Message {
  import opened GoStrings
  import opened TagEscaping
  import opened Utf8

  const MAX_MESSAGE_LENGTH := 512
  const MAX_TAG_LENGTH := 8192
  const MAX_LINE := MAX_MESSAGE_LENGTH + MAX_TAG_LENGTH

  type Tags = map<string, string>

  datatype Message = Message(tags: Tags, source: string, command: string, params: seq<string>, raw: string) {

    function GetParam(i: int): string {
      if 0 <= i < |params| then params[i] else ""
    }

    function GetTrailing(): string {
      if |params| == 0 then "" else params[|params| - 1]
    }

    predicate IsNumeric() {
      |command| == 3 && forall i | 0 <= i < 3 :: '0' <= command[i] <= '9'
    }
  }

  datatype ParseError =
    | InvalidUtf8 | TooLong | EmptyLine | TagsWithoutCommand | EmptyTagKey | SourceWithoutCommand | MissingCommand

  datatype Option<+T> = None | Some(value: T)

  datatype ParseResult = Ok(msg: Message) | Err(error: ParseError)

  // ---------- parsing ----------

  /** One `key`, `key=value` or empty piece of the tag section; None when the key is empty. */
  function AddTag(pair: string, tags: Tags): Option<Tags> {
    if pair == "" then Some(tags)
    else if '=' in pair then
      var (key, value) := Cut(pair, '=');
      if key == "" then None else Some(tags[key := UnescapeTagValue(value)])
    else Some(tags[pair := ""])
  }

  function AddTags(pairs: seq<string>, tags: Tags): Option<Tags> {
    if pairs == [] then Some(tags)
    else
      match AddTag(pairs[0], tags)
      case None => None
      case Some(t) => AddTags(pairs[1..], t)
  }

  function TagsOf(section: string): Option<Tags> {
    if section == "" then Some(map[]) else AddTags(Split(section, ';'), map[])
  }

  /** The parameters in the space-separated pieces that follow the command. */
  function ParamsOf(parts: seq<string>): seq<string> {
    if parts == [] then []
    else if parts[0] == "" then ParamsOf(parts[1..])
    else if parts[0][0] == ':' then [Join(parts, ' ')[1..]]
    else [parts[0]] + ParamsOf(parts[1..])
  }

  function ParseBody(raw: string, tags: Tags, source: string, rest: string): ParseResult {
    if rest == "" then Err(MissingCommand)
    else
      var parts := Split(rest, ' ');
      Ok(Message(tags, source, ToUpper(parts[0]), ParamsOf(parts[1..]), raw))
  }

  function ParseSource(raw: string, tags: Tags, rest: string): ParseResult {
    if rest != "" && rest[0] == ':' then
      var i := Index(rest, ' ');
      if i == -1 then Err(SourceWithoutCommand)
      else ParseBody(raw, tags, rest[1..i], rest[i + 1..])
    else ParseBody(raw, tags, "", rest)
  }

  function ParseTrimmed(raw: string): ParseResult {
    if raw == "" then Err(EmptyLine)
    else if raw[0] == '@' then
      var i := Index(raw, ' ');
      if i == -1 then Err(TagsWithoutCommand)
      else
        match TagsOf(raw[1..i])
        case None => Err(EmptyTagKey)
        case Some(tags) => ParseSource(raw, tags, raw[i + 1..])
    else ParseSource(raw, map[], raw)
  }

  function Parse(line: string): ParseResult {
    if !ValidUtf8(line) then Err(InvalidUtf8)
    else if |line| > MAX_LINE then Err(TooLong)
    else ParseTrimmed(TrimCRLF(line))
  }

  method ParseTags(section: string) returns (r: Option<Tags>)
    ensures r == TagsOf(section)
  {
    if section == "" {
      return Some(map[]);
    }
    var pairs := Split(section, ';');
    var tags: Tags := map[];
    for i := 0 to |pairs|
      invariant AddTags(pairs, map[]) == AddTags(pairs[i..], tags)
    {
      var pair := pairs[i];
      assert pairs[i..][0] == pair && pairs[i..][1..] == pairs[i + 1..];
      if pair == "" {
        continue;
      }
      if '=' in pair {
        var (key, value) := Cut(pair, '=');
        if key == "" {
          return None;
        }
        tags := tags[key := UnescapeTagValue(value)];
      } else {
        tags := tags[pair := ""];
      }
    }
    return Some(tags);
  }

  method ParseMessage(line: string) returns (r: ParseResult)
    ensures r == Parse(line)
  {
    hide ValidUtf8, RuneLen, TagsOf, AddTags, ParamsOf, Split, Index, ToUpper, Join, TrimCRLF;
    if !ValidUtf8(line) {
      return Err(InvalidUtf8);
    }
    if |line| > MAX_LINE {
      return Err(TooLong);
    }
    var raw := TrimCRLF(line);
    if raw == "" {
      return Err(EmptyLine);
    }
    var tags: Tags, pos := map[], 0;
    if raw[0] == '@' {
      pos := Index(raw, ' ');
      if pos == -1 {
        return Err(TagsWithoutCommand);
      }
      var parsed := ParseTags(raw[1..pos]);
      if parsed.None? {
        return Err(EmptyTagKey);
      }
      tags := parsed.value;
      pos := pos + 1;
    }
    assert raw[0..] == raw;
    r := ParseAfterTags(raw, tags, pos);
  }

  /** The rest of ParseMessage, from the first position after the tag section. */
  method ParseAfterTags(raw: string, tags: Tags, start: nat) returns (r: ParseResult)
    requires start <= |raw|
    ensures r == ParseSource(raw, tags, raw[start..])
  {
    hide ParamsOf, Split, Index, ToUpper, Join;
    var source, pos := "", start;
    ghost var rest := raw[start..];
    if pos < |raw| && raw[pos] == ':' {
      var spacePos := Index(raw[pos..], ' ');
      if spacePos == -1 {
        return Err(SourceWithoutCommand);
      }
      assert rest[1..spacePos] == raw[pos + 1..pos + spacePos];
      assert rest[spacePos + 1..] == raw[pos + spacePos + 1..];
      source := raw[pos + 1..pos + spacePos];
      pos := pos + spacePos + 1;
    }
    assert ParseSource(raw, tags, rest) == ParseBody(raw, tags, source, raw[pos..]);
    if pos >= |raw| {
      return Err(MissingCommand);
    }
    var parts := Split(raw[pos..], ' ');
    var params := ParseParams(parts);
    return Ok(Message(tags, source, ToUpper(parts[0]), params, raw));
  }

  /** The parameters follow the command, which is the first piece. */
  method ParseParams(parts: seq<string>) returns (params: seq<string>)
    requires |parts| > 0
    ensures params == ParamsOf(parts[1..])
  {
    params := [];
    for i := 1 to |parts|
      invariant ParamsOf(parts[1..]) == params + ParamsOf(parts[i..])
    {
      assert parts[i..][0] == parts[i] && parts[i..][1..] == parts[i + 1..];
      if parts[i] == "" {
        continue;
      }
      if parts[i][0] == ':' {
        var trailing := Join(parts[i..], ' ');
        params := params + [trailing[1..]];
        return;
      }
      params := params + [parts[i]];
    }
    assert parts[|parts|..] == [];
  }

  // ---------- printing ----------

  /** Go may enumerate a map's keys in any order, each key once. */
  ghost predicate IsEnumeration(order: seq<string>, keys: set<string>) {
    && (forall i, j | 0 <= i < j < |order| :: order[i] != order[j])
    && (forall k :: k in order <==> k in keys)
  }

  function PrintTag(key: string, value: string): string {
    if value == "" then key else key + "=" + EscapeTagValue(value)
  }

  function PrintTags(tags: Tags, order: seq<string>): seq<string>
    requires forall k | k in order :: k in tags
  {
    if order == [] then []
    else [PrintTag(order[0], tags[order[0]])] + PrintTags(tags, order[1..])
  }

  predicate NeedsColon(param: string) {
    ' ' in param || param == "" || param[0] == ':'
  }

  function PrintParams(params: seq<string>): seq<string> {
    if params == [] then []
    else if |params| == 1 then [if NeedsColon(params[0]) then ":" + params[0] else params[0]]
    else [params[0]] + PrintParams(params[1..])
  }

  function TagPieces(m: Message, order: seq<string>): seq<string>
    requires forall k | k in order :: k in m.tags
  {
    if |m.tags| > 0 then ["@" + Join(PrintTags(m.tags, order), ';')] else []
  }

  function SourcePieces(m: Message): seq<string> {
    if m.source != "" then [":" + m.source] else []
  }

  function Print(m: Message, order: seq<string>): string
    requires forall k | k in order :: k in m.tags
  {
    Join(TagPieces(m, order) + SourcePieces(m) + [m.command] + PrintParams(m.params), ' ')
  }

  lemma {:induction false} PrintTagsSnoc(tags: Tags, order: seq<string>, k: string)
    requires forall j | j in order :: j in tags
    requires k in tags
    ensures PrintTags(tags, order + [k]) == PrintTags(tags, order) + [PrintTag(k, tags[k])]
  {
    if order == [] {
      assert order + [k] == [k];
      assert [k][1..] == [];
    } else {
      PrintTagsSnoc(tags, order[1..], k);
      assert (order + [k])[1..] == order[1..] + [k];
    }
  }

  /** The printer walks the tag map in an order it does not choose. */
  method ToString(m: Message) returns (line: string)
    ensures exists order :: IsEnumeration(order, m.tags.Keys) && line == Print(m, order)
  {
    var parts: seq<string> := [];
    ghost var order: seq<string> := [];
    if |m.tags| > 0 {
      var tagParts: seq<string> := [];
      var keys := m.tags.Keys;
      while keys != {}
        invariant keys <= m.tags.Keys
        invariant IsEnumeration(order, m.tags.Keys - keys)
        invariant tagParts == PrintTags(m.tags, order)
        decreases |keys|
      {
        var key :| key in keys;
        var value := m.tags[key];
        PrintTagsSnoc(m.tags, order, key);
        if value == "" {
          tagParts := tagParts + [key];
        } else {
          tagParts := tagParts + [key + "=" + EscapeTagValue(value)];
        }
        order, keys := order + [key], keys - {key};
      }
      parts := ["@" + Join(tagParts, ';')];
    }
    assert IsEnumeration(order, m.tags.Keys);
    assert parts == TagPieces(m, order);
    if m.source != "" {
      parts := parts + [":" + m.source];
    }
    parts := parts + [m.command];
    ghost var head := parts;
    for i := 0 to |m.params|
      invariant head + PrintParams(m.params) == parts + PrintParams(m.params[i..])
    {
      var param := m.params[i];
      assert m.params[i..][0] == param && m.params[i..][1..] == m.params[i + 1..];
      if i == |m.params| - 1 && (' ' in param || param == "" || param[0] == ':') {
        parts := parts + [":" + param];
      } else {
        parts := parts + [param];
      }
    }
    assert m.params[|m.params|..] == [];
    assert head == TagPieces(m, order) + SourcePieces(m) + [m.command];
    assert parts == head + PrintParams(m.params);
    line := Join(parts, ' ');
    assert line == Print(m, order);
  }
}
