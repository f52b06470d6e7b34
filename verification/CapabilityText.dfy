/**
 What the capability handlers make of the text of a CAP line: of every word with its name and value, and
 however the words are spaced. Nothing here is said in terms of the handlers' own loops.
 */
module CapabilityText {
  import opened GoStrings
  import opened Message
  import opened Events
  import opened Wire
  import opened Io
  import opened Capabilities

  // ---------- words and white space ----------

  predicate White(s: string) {
    forall c | c in s :: IsSpace(c)
  }

  predicate IsWord(s: string) {
    s != "" && forall c | c in s :: !IsSpace(c)
  }

  /** The words, with gaps[0] in front of the first and the last gap behind the last. */
  function Padded(words: seq<string>, gaps: seq<string>): string
    requires |gaps| == |words| + 1
  {
    if words == [] then gaps[0] else gaps[0] + words[0] + Padded(words[1..], gaps[1..])
  }

  predicate Separate(words: seq<string>, gaps: seq<string>) {
    && |gaps| == |words| + 1 && (forall w | w in words :: IsWord(w))
    && (forall i | 0 <= i < |gaps| :: White(gaps[i])) && (forall i | 0 < i < |words| :: gaps[i] != "")
  }

  predicate Lists(text: string, words: seq<string>, gaps: seq<string>) {
    Separate(words, gaps) && text == Padded(words, gaps)
  }

  lemma {:induction false} FieldsSkip(gap: string, rest: string)
    requires White(gap)
    ensures Fields(gap + rest) == Fields(rest)
  {
    if gap == "" {
      assert gap + rest == rest;
    } else {
      assert gap[0] in gap && forall c | c in gap[1..] :: c in gap;
      assert (gap + rest)[1..] == gap[1..] + rest;
      FieldsSkip(gap[1..], rest);
    }
  }

  lemma {:induction false} WordThen(w: string, rest: string)
    requires (forall c | c in w :: !IsSpace(c)) && (rest == "" || IsSpace(rest[0]))
    ensures Word(w + rest) == w
  {
    if w == "" {
      assert w + rest == rest;
    } else {
      assert w[0] in w && forall c | c in w[1..] :: c in w;
      assert (w + rest)[1..] == w[1..] + rest;
      WordThen(w[1..], rest);
    }
  }

  lemma FieldsWord(w: string, rest: string)
    requires IsWord(w) && (rest == "" || IsSpace(rest[0]))
    ensures Fields(w + rest) == [w] + Fields(rest)
  {
    WordThen(w, rest);
    assert w[0] in w && (w + rest)[0] == w[0];
    assert (w + rest)[|w|..] == rest;
  }

  lemma {:induction false} FieldsOfPadded(words: seq<string>, gaps: seq<string>)
    requires Separate(words, gaps)
    ensures Fields(Padded(words, gaps)) == words
    decreases |words|
  {
    hide Fields;
    if words == [] {
      FieldsSkip(gaps[0], "");
      assert gaps[0] + "" == gaps[0];
      NoFields();
    } else {
      var rest := Padded(words[1..], gaps[1..]);
      SeparateTail(words, gaps);
      FieldsOfPadded(words[1..], gaps[1..]);
      assert gaps[0] + words[0] + rest == gaps[0] + (words[0] + rest);
      FieldsSkip(gaps[0], words[0] + rest);
      PaddedStart(words[1..], gaps[1..]);
      FieldsWord(words[0], rest);
    }
  }

  lemma NoFields()
    ensures Fields("") == []
  {
  }

  lemma SeparateTail(words: seq<string>, gaps: seq<string>)
    requires Separate(words, gaps) && words != []
    ensures Separate(words[1..], gaps[1..]) && IsWord(words[0]) && White(gaps[0]) && (|words| > 1 ==> gaps[1] != "")
  {
    hide IsWord, White;
    assert words[0] in words && forall w | w in words[1..] :: w in words;
  }

  lemma PaddedStart(words: seq<string>, gaps: seq<string>)
    requires Separate(words, gaps) && (words != [] ==> gaps[0] != "")
    ensures var s := Padded(words, gaps); s == "" || IsSpace(s[0])
  {
    assert White(gaps[0]);
    if gaps[0] != "" {
      assert gaps[0][0] in gaps[0];
    }
  }

  /** Every text lists its fields. */
  lemma {:induction false} FieldsListed(text: string) returns (gaps: seq<string>)
    ensures Lists(text, Fields(text), gaps)
    decreases |text|
  {
    hide IsWord, White;
    if text == "" {
      gaps := [""];
      OneGap("");
    } else if IsSpace(text[0]) {
      var more := FieldsListed(text[1..]);
      gaps := [[text[0]] + more[0]] + more[1..];
      WiderGap(text[0], Fields(text), more);
      assert text == [text[0]] + text[1..];
    } else {
      var w := Word(text);
      var more := FieldsListed(text[|w|..]);
      gaps := [""] + more;
      FirstField(text);
      WordFirst(w, text[|w|..], Fields(text[|w|..]), more);
      assert text == w + text[|w|..];
    }
  }

  lemma OneGap(gap: string)
    requires gap == ""
    ensures Lists(gap, [], [gap])
  {
  }

  lemma WiderGap(c: char, words: seq<string>, more: seq<string>)
    requires IsSpace(c) && Separate(words, more)
    ensures var gaps := [[c] + more[0]] + more[1..];
            Separate(words, gaps) && Padded(words, gaps) == [c] + Padded(words, more)
  {
    hide IsWord;
    var gaps := [[c] + more[0]] + more[1..];
    assert White(more[0]) && White([c] + more[0]);
    assert gaps[1..] == more[1..];
    if words != [] {
      assert Padded(words, gaps) == [c] + more[0] + words[0] + Padded(words[1..], more[1..]);
    }
  }

  lemma {:induction false} FirstField(text: string)
    requires text != "" && !IsSpace(text[0])
    ensures IsWord(Word(text))
  {
    if |text| > 1 && !IsSpace(text[1]) {
      FirstField(text[1..]);
    }
  }

  lemma WordFirst(w: string, rest: string, words: seq<string>, more: seq<string>)
    requires IsWord(w) && Lists(rest, words, more) && (rest == "" || IsSpace(rest[0]))
    ensures Lists(w + rest, [w] + words, [""] + more)
  {
    var gaps := [""] + more;
    assert gaps[1..] == more && ([w] + words)[1..] == words;
    hide IsWord;
    if words != [] && more[0] == "" {
      assert rest == words[0] + Padded(words[1..], more[1..]);
      WordStarts(words[0], words);
      assert false;
    }
    assert White("");
    hide White;
    assert "" + w + Padded(words, more) == w + rest;
  }

  lemma WordStarts(w: string, words: seq<string>)
    requires w in words && forall x | x in words :: IsWord(x)
    ensures w != "" && !IsSpace(w[0])
  {
    assert w[0] in w;
  }

  /** strings.Fields, without its loop. */
  lemma FieldsExactly(text: string, words: seq<string>)
    ensures Fields(text) == words <==> exists gaps :: Lists(text, words, gaps)
  {
    hide Fields, Separate, Padded;
    var gaps := FieldsListed(text);
    forall gaps | Lists(text, words, gaps) ensures Fields(text) == words {
      FieldsOfPadded(words, gaps);
    }
  }

  /** The last parameter of the event's message lists the words. */
  predicate Carries(e: Event, words: seq<string>, gaps: seq<string>) {
    e.message.Some? && e.message.value.params != []
    && Lists(e.message.value.params[|e.message.value.params| - 1], words, gaps)
  }

  // ---------- names and values ----------

  /** One advertised capability. */
  datatype Ad = Ad(name: string, value: Option<string>)

  function AdText(a: Ad): string {
    match a.value
    case None => a.name
    case Some(v) => a.name + "=" + v
  }

  function AdValue(a: Ad): string {
    match a.value
    case None => ""
    case Some(v) => v
  }

  function AdTexts(ads: seq<Ad>): seq<string> {
    seq(|ads|, i requires 0 <= i < |ads| => AdText(ads[i]))
  }

  predicate CleanAds(ads: seq<Ad>) {
    forall a | a in ads :: '=' !in a.name
  }

  /** What the list says of a name: the last word for it counts. */
  function Advertised(ads: seq<Ad>, name: string): Option<string> {
    var n := |ads|;
    if n == 0 then None
    else if ads[n - 1].name == name then Some(AdValue(ads[n - 1]))
    else Advertised(ads[..n - 1], name)
  }

  /** The names of the list that are wanted, in order. */
  function Wanted(ads: seq<Ad>, requested: seq<string>): seq<string> {
    var n := |ads|;
    if n == 0 then []
    else Wanted(ads[..n - 1], requested) + if ads[n - 1].name in requested then [ads[n - 1].name] else []
  }

  lemma AdRead(a: Ad)
    requires '=' !in a.name
    ensures NameOf(AdText(a)) == a.name && ValueOf(AdText(a)) == AdValue(a)
  {
    if a.value.Some? {
      var s := AdText(a);
      assert s == a.name + ['='] + a.value.value;
      IndexAt(a.name, '=', a.value.value);
      assert s[|a.name|] == '=' && s[..|a.name|] == a.name && s[|a.name| + 1..] == a.value.value;
    }
  }

  lemma {:induction false} AvailableRead(ads: seq<Ad>, target: map<string, string>, name: string)
    requires CleanAds(ads)
    ensures var after := AddAvailable(AdTexts(ads), target);
            match Advertised(ads, name)
            case None => (name in after <==> name in target) && (name in target ==> after[name] == target[name])
            case Some(value) => name in after && after[name] == value
    decreases |ads|
  {
    var n := |ads|;
    if n == 0 {
      assert AdTexts(ads) == [];
    } else {
      var front, last := ads[..n - 1], ads[n - 1];
      assert AdTexts(ads) == AdTexts(front) + [AdText(last)];
      assert last in ads && forall a | a in front :: a in ads;
      hide AdText, AdTexts, NameOf, ValueOf, AddAvailable, AdValue;
      AvailableRead(front, target, name);
      AddAvailableSnoc(AdTexts(front), AdText(last), target);
      AdRead(last);
    }
  }

  lemma {:induction false} WantedRead(ads: seq<Ad>, requested: seq<string>)
    requires CleanAds(ads)
    ensures Select(NamesOf(AdTexts(ads)), Elements(requested)) == Wanted(ads, requested)
    decreases |ads|
  {
    var n := |ads|;
    if n == 0 {
      assert AdTexts(ads) == [];
    } else {
      var front, last := ads[..n - 1], ads[n - 1];
      assert AdTexts(ads) == AdTexts(front) + [AdText(last)];
      assert last in ads && forall a | a in front :: a in ads;
      hide AdText, AdTexts, NameOf, NamesOf, Select;
      WantedRead(front, requested);
      NamesOfSnoc(AdTexts(front), AdText(last));
      AdRead(last);
      SelectSnoc(NamesOf(AdTexts(front)), last.name, Elements(requested));
    }
  }

  lemma {:induction false} WantedNames(ads: seq<Ad>, requested: seq<string>, name: string)
    ensures name in Wanted(ads, requested) <==> name in requested && Advertised(ads, name).Some?
  {
    var n := |ads|;
    if n > 0 {
      WantedNames(ads[..n - 1], requested, name);
    }
  }

  lemma {:induction false} NamesRead(ads: seq<Ad>, name: string)
    requires CleanAds(ads)
    ensures name in NamesOf(AdTexts(ads)) <==> Advertised(ads, name).Some?
  {
    var n := |ads|;
    if n == 0 {
      assert AdTexts(ads) == [];
    } else {
      var front, last := ads[..n - 1], ads[n - 1];
      assert AdTexts(ads) == AdTexts(front) + [AdText(last)];
      assert last in ads && forall a | a in front :: a in ads;
      hide AdText, AdTexts, NameOf, NamesOf;
      NamesRead(front, name);
      NamesOfSnoc(AdTexts(front), AdText(last));
      AdRead(last);
    }
  }

  /** The values the map takes from the list. */
  ghost predicate Takes(before: map<string, string>, ads: seq<Ad>, after: map<string, string>) {
    forall name :: match Advertised(ads, name)
                   case None => (name in after <==> name in before) && (name in before ==> after[name] == before[name])
                   case Some(value) => name in after && after[name] == value
  }

  function RequestLog(io: Io, net: Outcomes, names: seq<string>): seq<Attempt> {
    if names == [] then [] else [Attempt("CAP", ["REQ", Join(names, ' ')], net(|io.log|))]
  }

  /**
   Main result for CAP LS and CAP NEW. Whatever the spacing: each name gets the value of its last word, the
   names wanted are requested in one line, in order, and are pending; nothing else changes.
   */
  lemma ProcessesText(c: Caps, io: Io, net: Outcomes, text: string, ads: seq<Ad>, gaps: seq<string>)
    requires CleanAds(ads) && Lists(text, AdTexts(ads), gaps)
    ensures var r, wanted := ProcessNew(c, io, net, text), Wanted(ads, c.requested);
            && Takes(c.available, ads, r.caps.available)
            && r.caps == c.(available := r.caps.available, pending := c.pending + Elements(wanted))
            && r.io == io.(log := io.log + RequestLog(io, net, wanted))
            && (r.ok <==> wanted == [] || net(|io.log|))
  {
    hide Fields, AddAvailable, Advertised, AdTexts, Lists, NamesOf, Join, Select, Takes, Wanted, CleanAds;
    ListedFields(text, AdTexts(ads), gaps);
    AvailableTakes(ads, c.available);
    WantedRead(ads, c.requested);
    NothingWanted(ads, c.requested);
    var available, wanted := AddAvailable(AdTexts(ads), c.available), Wanted(ads, c.requested);
    WantedAvailable(ads, c.requested, c.available, available);
    SelectAll(wanted, available.Keys);
    assert c.pending + Elements([]) == c.pending && io.log + [] == io.log;
  }

  lemma ListedFields(text: string, words: seq<string>, gaps: seq<string>)
    requires Lists(text, words, gaps)
    ensures Fields(text) == words
  {
    hide Separate, Padded, Fields;
    FieldsOfPadded(words, gaps);
  }

  lemma AvailableTakes(ads: seq<Ad>, target: map<string, string>)
    requires CleanAds(ads)
    ensures Takes(target, ads, AddAvailable(AdTexts(ads), target))
  {
    hide AddAvailable, Advertised, AdTexts, CleanAds;
    forall name
      ensures var after := AddAvailable(AdTexts(ads), target);
              match Advertised(ads, name)
              case None => (name in after <==> name in target) && (name in target ==> after[name] == target[name])
              case Some(value) => name in after && after[name] == value
    {
      AvailableRead(ads, target, name);
    }
  }

  lemma WantedAvailable(ads: seq<Ad>, requested: seq<string>, before: map<string, string>, after: map<string, string>)
    requires Takes(before, ads, after)
    ensures forall x | x in Wanted(ads, requested) :: x in after
  {
    hide Advertised, Wanted;
    forall x | x in Wanted(ads, requested) ensures x in after {
      WantedNames(ads, requested, x);
    }
  }

  lemma {:induction false} NothingWanted(ads: seq<Ad>, requested: seq<string>)
    ensures requested == [] ==> Wanted(ads, requested) == []
  {
    var n := |ads|;
    if n > 0 {
      NothingWanted(ads[..n - 1], requested);
    }
  }

  /** CAP LS, as a message with such a text: handled while negotiating. */
  lemma HandlesLS(c: Caps, io: Io, net: Outcomes, e: Event, ads: seq<Ad>, gaps: seq<string>)
    requires c.negotiating && CleanAds(ads) && Carries(e, AdTexts(ads), gaps)
    ensures var r, wanted := OnLS(c, io, net, e), Wanted(ads, c.requested);
            && Takes(c.available, ads, r.caps.available)
            && r.caps.pending == c.pending + Elements(wanted) && r.caps.acked == c.acked && r.caps.requested == c.requested
            && r.caps.negotiating && r.caps.tokens == c.tokens
            && r.io.log == io.log + RequestLog(io, net, wanted)
            && (if (wanted == [] || net(|io.log|)) && (c.requested == [] || c.pending + Elements(wanted) == {})
                then r.caps.waiters == c.waiters + [Fresh]
                     && r.io.queue == io.queue + [Internally(CapPreEnd, CapPreEndData(c.acked.Keys, c.acked))]
                else r.caps.waiters == c.waiters && r.io.queue == io.queue)
  {
    ProcessesText(c, io, net, Trailing(e), ads, gaps);
    hide ProcessNew, Takes, Lists, CleanAds, Wanted;
  }

  /** CAP NEW does the same, at any time, and ends nothing. */
  lemma HandlesNEW(c: Caps, io: Io, net: Outcomes, e: Event, ads: seq<Ad>, gaps: seq<string>)
    requires CleanAds(ads) && Carries(e, AdTexts(ads), gaps)
    ensures var r, wanted := OnNEW(c, io, net, e), Wanted(ads, c.requested);
            && Takes(c.available, ads, r.caps.available)
            && r.caps == c.(available := r.caps.available, pending := c.pending + Elements(wanted))
            && r.io == io.(log := io.log + RequestLog(io, net, wanted))
  {
    ProcessesText(c, io, net, Trailing(e), ads, gaps);
    hide ProcessNew, Takes, Lists, CleanAds, Wanted;
  }

  // ---------- ACK, NAK, DEL ----------

  /** What an acknowledged name is worth. */
  function Worth(c: Caps, name: string): string {
    if name in c.acked then c.acked[name] else if name in c.available then c.available[name] else ""
  }

  function CapAddedEvent(name: string): Event {
    Event(CapAdded, Option.None, CapAddedData(name))
  }

  function CapRemovedEvent(name: string): Event {
    Event(CapRemoved, Option.None, CapRemovedData(name))
  }

  function Additions(words: seq<string>): seq<Event> {
    seq(|words|, i requires 0 <= i < |words| => CapAddedEvent(words[i]))
  }

  function Removals(words: seq<string>): seq<Event> {
    seq(|words|, i requires 0 <= i < |words| => CapRemovedEvent(words[i]))
  }

  lemma {:induction false} AnnouncedInOrder(words: seq<string>)
    ensures AddedAll(words) == Additions(words) && RemovedAll(words) == Removals(words)
  {
    if words != [] {
      AnnouncedInOrder(words[1..]);
      assert Additions(words) == [CapAddedEvent(words[0])] + Additions(words[1..]);
      assert Removals(words) == [CapRemovedEvent(words[0])] + Removals(words[1..]);
    }
  }

  lemma {:induction false} AckedWorth(c: Caps, words: seq<string>, name: string)
    ensures var acked := AckAll(c, words).acked;
            && (name in acked <==> name in c.acked || name in words)
            && (name in acked ==> acked[name] == Worth(c, name))
    decreases |words|
  {
    if words != [] {
      var c1 := AckOne(c, words[0]);
      AckedWorth(c1, words[1..], name);
      assert AckAll(c, words) == AckAll(c1, words[1..]);
      assert words == [words[0]] + words[1..];
      assert name in words <==> name == words[0] || name in words[1..];
      assert name in c1.acked <==> name in c.acked || name == words[0];
      assert Worth(c1, name) == Worth(c, name);
      hide AckAll, AckOne, Worth;
    }
  }

  /** Main result for CAP ACK: the names, their values, the announcements, and the end if nothing is pending. */
  lemma HandlesACK(c: Caps, io: Io, e: Event, words: seq<string>, gaps: seq<string>)
    requires c.negotiating && Carries(e, words, gaps)
    ensures var r := OnACK(c, io, e);
            && (forall name :: (name in r.caps.acked <==> name in c.acked || name in words)
                               && (name in r.caps.acked ==> r.caps.acked[name] == Worth(c, name)))
            && r.caps.pending == c.pending - Elements(words)
            && r.caps == c.(acked := r.caps.acked, pending := r.caps.pending, waiters := r.caps.waiters)
            && r.io.log == io.log
            && (if c.pending - Elements(words) == {}
                then r.caps.waiters == c.waiters + [Fresh]
                     && r.io.queue == io.queue + Additions(words)
                                      + [Internally(CapPreEnd, CapPreEndData(r.caps.acked.Keys, r.caps.acked))]
                else r.caps.waiters == c.waiters && r.io.queue == io.queue + Additions(words))
  {
    FieldsOfPadded(words, gaps);
    AckAllFields(c, words);
    forall name
      ensures var acked := AckAll(c, words).acked;
              (name in acked <==> name in c.acked || name in words) && (name in acked ==> acked[name] == Worth(c, name))
    {
      AckedWorth(c, words, name);
    }
    AnnouncedInOrder(words);
    hide Fields, AckAll, AddedAll, RemovedAll, Additions, Removals, Worth, Lists;
  }

  lemma HandlesNAK(c: Caps, io: Io, e: Event, words: seq<string>, gaps: seq<string>)
    requires c.negotiating && Carries(e, words, gaps)
    ensures var r := OnNAK(c, io, e);
            && r.caps == c.(pending := c.pending - Elements(words), waiters := r.caps.waiters)
            && r.io.log == io.log
            && (if c.pending - Elements(words) == {}
                then r.caps.waiters == c.waiters + [Fresh]
                     && r.io.queue == io.queue + [Internally(CapPreEnd, CapPreEndData(c.acked.Keys, c.acked))]
                else r.caps.waiters == c.waiters && r.io == io)
  {
    FieldsOfPadded(words, gaps);
    hide Fields, Lists;
  }

  lemma HandlesDEL(c: Caps, io: Io, e: Event, words: seq<string>, gaps: seq<string>)
    requires Carries(e, words, gaps)
    ensures var r := OnDEL(c, io, e);
            && r.caps == c.(acked := r.caps.acked)
            && (forall name :: (name in r.caps.acked <==> name in c.acked && name !in words)
                               && (name in r.caps.acked ==> r.caps.acked[name] == c.acked[name]))
            && r.io == io.(queue := io.queue + Removals(words))
  {
    FieldsOfPadded(words, gaps);
    AnnouncedInOrder(words);
    hide Fields, Lists, RemovedAll, Additions, Removals;
  }

  // ---------- Reset, and the buffer of ready signals ----------

  /** Reset forgets what was advertised and acknowledged, and closes the negotiation; requests stay pending. */
  lemma Forgets(c: Caps)
    ensures var c' := ResetCaps(c);
            && c'.acked == map[] && c'.available == map[] && !c'.negotiating
            && c'.pending == c.pending && c'.requested == c.requested && c'.tokens == c.tokens && c'.waiters == c.waiters
  {
  }

  /** A hundred ready signals are kept, and no more. */
  lemma Buffers(c: Caps)
    ensures OnEndReady(c) == c.(tokens := if c.tokens < 100 then c.tokens + 1 else c.tokens)
  {
  }

  // ---------- from the advertisement to CapPreEnd ----------

  /** CAP LS, then CAP ACK. */
  function Negotiated(c: Caps, io: Io, net: Outcomes, ls: Event, ack: Event): Result {
    var r := OnLS(c, io, net, ls);
    OnACK(r.caps, r.io, ack)
  }

  /** An open negotiation in which `ls` advertises something wanted, REQ goes out, and `ack` acknowledges it. */
  predicate Granted(
    c: Caps, io: Io, net: Outcomes, ls: Event, ads: seq<Ad>, gaps: seq<string>, ack: Event, gaps': seq<string>)
  {
    && c.negotiating && c.pending == {} && c.acked == map[] && net(|io.log|)
    && CleanAds(ads) && Carries(ls, AdTexts(ads), gaps) && Wanted(ads, c.requested) != []
    && Carries(ack, Wanted(ads, c.requested), gaps')
  }

  /** The event with what was wanted of the list, and its values. */
  ghost predicate Brings(e: Event, ads: seq<Ad>, requested: seq<string>) {
    && e.kind == CapPreEnd && e.data.CapPreEndData? && e.data.activeCaps == e.data.capValues.Keys
    && forall name :: (name in e.data.activeCaps <==> name in requested && Advertised(ads, name).Some?)
                      && (name in e.data.activeCaps ==> Some(e.data.capValues[name]) == Advertised(ads, name))
  }

  /**
   Main result: advertised, requested and acknowledged, a capability reaches CapPreEnd with the value it
   was advertised with.
   */
  lemma ValueReachesPreEnd(
    c: Caps, io: Io, net: Outcomes, ls: Event, ads: seq<Ad>, gaps: seq<string>, ack: Event, gaps': seq<string>)
    requires Granted(c, io, net, ls, ads, gaps, ack, gaps')
    ensures var r := Negotiated(c, io, net, ls, ack);
            && r.io.log == io.log + [Attempt("CAP", ["REQ", Join(Wanted(ads, c.requested), ' ')], true)]
            && r.io.queue != [] && Brings(r.io.queue[|r.io.queue| - 1], ads, c.requested)
  {
    var wanted := Wanted(ads, c.requested);
    hide OnLS, OnACK, Lists, Wanted, Advertised, CleanAds, AdTexts, Carries, Takes, Additions;
    HandlesLS(c, io, net, ls, ads, gaps);
    var r1 := OnLS(c, io, net, ls);
    assert wanted[0] in Elements(wanted) && {} + Elements(wanted) == Elements(wanted);
    assert r1.caps.pending - Elements(wanted) == {};
    NothingWanted(ads, c.requested);
    HandlesACK(r1.caps, r1.io, ack, wanted, gaps');
    forall name ensures name in wanted <==> name in c.requested && Advertised(ads, name).Some? {
      WantedNames(ads, c.requested, name);
    }
    forall name | name in wanted ensures Some(Worth(r1.caps, name)) == Advertised(ads, name) {
      WorthAdvertised(c, r1.caps, ads, name);
    }
  }

  lemma WorthAdvertised(c: Caps, c1: Caps, ads: seq<Ad>, name: string)
    requires Takes(c.available, ads, c1.available) && c1.acked == map[] && Advertised(ads, name).Some?
    ensures Some(Worth(c1, name)) == Advertised(ads, name)
  {
    hide Advertised;
  }
}
