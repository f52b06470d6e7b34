/**
 SASL authentication (parser/sasl.go): the session state machine, the PLAIN mechanism with its
 in-place buffers, and the chunked sender. The class methods are proved against functions on
 plain values.
 */
module Sasl {
  import opened GoStrings
  import opened Message
  import opened Events
  import opened Wire
  import opened EventBus
  import opened Io

  const DEFAULT_CHUNK_SIZE := 400

  datatype SaslState = Inactive | Requesting | Authenticating | Success | Failed

  /** The PLAIN mechanism; its credentials are empty once they have been used. */
  datatype Mechanism = Mechanism(username: string, password: string, complete: bool)

  datatype Sasl = Sasl(
    state: SaslState,
    mechanism: Option<Mechanism>,
    timerArmed: bool,
    mechanisms: seq<string>,
    username: string,
    password: string,
    maxChunk: nat)

  /** Base64, left abstract: an encoder and a decoder that may refuse. */
  datatype Codec = Codec(encode: string -> string, decode: string -> Option<string>)

  datatype SaslResult = SaslResult(sasl: Sasl, io: Io, ok: bool)

  predicate Active(s: Sasl) {
    s.state == Requesting || s.state == Authenticating
  }

  function NameOfMechanism(s: Sasl): string {
    if s.mechanism.Some? then "PLAIN" else "unknown"
  }

  function FailEvent(mechanism: string, reason: string): Event {
    Internally(SASLFail, SASLData(mechanism, reason))
  }

  // ---------- PLAIN ----------

  /** username NUL username NUL password */
  function PlainPayload(username: string, password: string): string {
    username + "\0" + username + "\0" + password
  }

  function Zeros(n: nat): string {
    seq(n, i => '\0')
  }

  /** The payload determines the credentials exactly when the server can split it at the NULs. */
  lemma PlainPayloadSplits(username: string, password: string)
    ensures Split(PlainPayload(username, password), '\0') == [username, username, password]
            <==> '\0' !in username && '\0' !in password
  {
    var p := PlainPayload(username, password);
    if '\0' !in username && '\0' !in password {
      var rest := username + ['\0'] + password;
      assert p == username + ['\0'] + rest;
      SplitAt(username, '\0', rest);
      SplitAt(username, '\0', password);
      assert Split(password, '\0') == [password];
    }
    if Split(p, '\0') == [username, username, password] {
      SplitPieces(p, '\0');
      assert username in Split(p, '\0') && password in Split(p, '\0');
    }
  }

  class PlainMechanism {
    var username: array?<char>
    var password: array?<char>
    var complete: bool

    constructor (username: string, password: string)
      ensures View() == Mechanism(username, password, false)
      ensures this.username != null && this.password != null
      ensures fresh(this.username) && fresh(this.password)
    {
      this.username := new char[|username|](i requires 0 <= i < |username| => username[i]);
      this.password := new char[|password|](i requires 0 <= i < |password| => password[i]);
      complete := false;
      new;
      assert this.username[..] == username && this.password[..] == password;
    }

    static function Bytes(a: array?<char>): string
      reads a
    {
      if a == null then "" else a[..]
    }

    function View(): Mechanism
      reads this, username, password
    {
      Mechanism(Bytes(username), Bytes(password), complete)
    }

    /** Overwrites the whole buffer with zero bytes. */
    static method Wipe(a: array?<char>)
      modifies a
      ensures Bytes(a) == Zeros(|old(Bytes(a))|)
    {
      if a != null {
        for i := 0 to a.Length
          invariant forall j | 0 <= j < i :: a[j] == '\0'
        {
          a[i] := '\0';
        }
      }
    }

    /** copy(dst[at:], src) */
    static method CopyAt(dst: array<char>, at: nat, src: array<char>)
      requires dst != src && at + src.Length <= dst.Length
      modifies dst
      ensures dst[..] == old(dst[..at]) + src[..] + old(dst[at + src.Length..])
      ensures dst[..at + src.Length] == old(dst[..at]) + src[..]
    {
      for i := 0 to src.Length
        invariant forall j | 0 <= j < i :: dst[at + j] == src[j]
        invariant forall j | 0 <= j < dst.Length && !(at <= j < at + i) :: dst[j] == old(dst[j])
      {
        dst[at + i] := src[i];
      }
    }

    /** The three parts, one behind the other in a new buffer. */
    static method Fill(username: array<char>, password: array<char>) returns (authBytes: array<char>)
      ensures fresh(authBytes) && authBytes[..] == PlainPayload(username[..], password[..])
    {
      var n := username.Length;
      authBytes := new char[n * 2 + password.Length + 2](_ => '\0');
      var offset := 0;
      CopyAt(authBytes, offset, username);
      offset := offset + n;
      authBytes[offset] := '\0';
      offset := offset + 1;
      assert authBytes[..offset] == username[..] + ['\0'];
      ghost var first := authBytes[..offset];
      CopyAt(authBytes, offset, username);
      offset := offset + n;
      authBytes[offset] := '\0';
      offset := offset + 1;
      assert authBytes[..offset] == first + username[..] + ['\0'];
      ghost var second := authBytes[..offset];
      CopyAt(authBytes, offset, password);
      assert authBytes[..] == authBytes[..authBytes.Length] == second + password[..];
    }

    /**
     The response to the server's empty challenge. Afterwards the old buffers hold only zeros and the
     mechanism no longer has credentials, so a second Start fails.
     */
    method Start(encode: string -> string) returns (response: Option<string>)
      modifies this, username, password
      ensures old(Bytes(username)) == "" || old(Bytes(password)) == "" ==>
                response == None && View() == old(View())
      ensures old(Bytes(username)) != "" && old(Bytes(password)) != "" ==>
                && response == Some(encode(PlainPayload(old(Bytes(username)), old(Bytes(password)))))
                && View() == Mechanism("", "", true)
                && Bytes(old(username)) == Zeros(|old(Bytes(username))|)
                && Bytes(old(password)) == Zeros(|old(Bytes(password))|)
      ensures (username == old(username) && password == old(password)) || (username == null && password == null)
    {
      if username == null || password == null || username.Length == 0 || password.Length == 0 {
        return None;
      }
      hide PlainPayload;
      var authBytes := Fill(username, password);
      response := Some(encode(authBytes[..]));
      Wipe(authBytes);
      Wipe(username);
      Wipe(password);
      username, password, complete := null, null, true;
    }

    /** PLAIN has no answer to a challenge. */
    method Next(challenge: string) returns (response: Option<string>)
      ensures response == None
    {
      return None;
    }

    method Reset()
      modifies this`complete
      ensures !complete
    {
      complete := false;
    }
  }

  // ---------- chunked sending ----------

  /** `data` cut into pieces of `size` bytes, the last one possibly shorter. */
  function Pieces(data: string, size: nat): seq<string>
    requires size > 0
  {
    if data == "" then []
    else if |data| <= size then [data]
    else [data[..size]] + Pieces(data[size..], size)
  }

  /** The arguments of the AUTHENTICATE lines for one response, if none of them fails. */
  function Payloads(data: string, size: nat): seq<string>
    requires size > 0
  {
    if data == "" then ["+"] else if |data| <= size then [data] else Pieces(data, size) + ["+"]
  }

  /** Sends one line per payload until a send fails. */
  function SendEach(io: Io, net: Outcomes, payloads: seq<string>): (Io, bool)
    decreases |payloads|
  {
    if payloads == [] then (io, true)
    else
      var io' := Send(io, net, "AUTHENTICATE", [payloads[0]]);
      if Accepted(io, net) then SendEach(io', net, payloads[1..]) else (io', false)
  }

  function SendAuthData(s: Sasl, io: Io, net: Outcomes, data: string): SaslResult
    requires s.maxChunk > 0
  {
    var (io', ok) := SendEach(io, net, Payloads(data, s.maxChunk));
    if ok then SaslResult(s, io', true)
    else SaslResult(s.(state := Failed), Emit(io', FailEvent(NameOfMechanism(s), "send failed")), false)
  }

  function Concat(parts: seq<string>): string {
    if parts == [] then "" else parts[0] + Concat(parts[1..])
  }

  lemma {:induction false} PiecesConcat(data: string, size: nat)
    requires size > 0
    ensures Concat(Pieces(data, size)) == data
    decreases |data|
  {
    if data == "" {
    } else if |data| <= size {
      assert [data][1..] == [];
    } else {
      PiecesConcat(data[size..], size);
      assert ([data[..size]] + Pieces(data[size..], size))[1..] == Pieces(data[size..], size);
      assert data == data[..size] + data[size..];
    }
  }

  lemma MulBound(d: int, size: int)
    requires size > 0
    ensures d >= 1 ==> d * size >= size
    ensures d <= -1 ==> d * size <= -size
  {
  }

  lemma DivUnique(n: int, q: int, r: int, size: int)
    requires size > 0 && n == q * size + r && 0 <= r < size
    ensures n / size == q && n % size == r
  {
    var d := n / size - q;
    assert n == (n / size) * size + n % size;
    assert d * size == r - n % size;
    MulBound(d, size);
  }

  lemma DivStep(n: int, size: int)
    requires size > 0
    ensures (n - size) / size == n / size - 1
    ensures (n - size) % size == n % size
  {
    var q, r := n / size, n % size;
    assert n == q * size + r;
    assert n - size == (q - 1) * size + r;
    DivUnique(n - size, q - 1, r, size);
  }

  /** How many pieces there are, and how long each is. */
  lemma {:induction false} PiecesShape(data: string, size: nat)
    requires size > 0
    ensures var ps := Pieces(data, size);
            && |ps| == (|data| + size - 1) / size
            && (forall i | 0 <= i < |ps| :: 0 < |ps[i]| <= size)
            && (forall i | 0 <= i < |ps| - 1 :: |ps[i]| == size)
    decreases |data|
  {
    var ps := Pieces(data, size);
    if data == "" {
      DivUnique(size - 1, 0, size - 1, size);
    } else if |data| <= size {
      DivUnique(|data| + size - 1, 1, |data| - 1, size);
    } else {
      var rest := Pieces(data[size..], size);
      PiecesShape(data[size..], size);
      DivStep(|data| + size - 1, size);
      assert ps == [data[..size]] + rest;
      assert forall i | 1 <= i < |ps| :: ps[i] == rest[i - 1];
    }
  }

  /** The payloads accepted before a failure, or all of them. */
  function AcceptedOf(io: Io, net: Outcomes, payloads: seq<string>): seq<string>
    decreases |payloads|
  {
    if payloads == [] || !Accepted(io, net) then []
    else [payloads[0]] + AcceptedOf(Send(io, net, "AUTHENTICATE", [payloads[0]]), net, payloads[1..])
  }

  function Lines(payloads: seq<string>, ok: bool): seq<Attempt> {
    if payloads == [] then [] else [Attempt("AUTHENTICATE", [payloads[0]], ok)] + Lines(payloads[1..], ok)
  }

  /** The payload whose send failed, if one did. */
  function RefusedOf(io: Io, net: Outcomes, payloads: seq<string>): seq<string>
    decreases |payloads|
  {
    if payloads == [] then []
    else if !Accepted(io, net) then [payloads[0]]
    else RefusedOf(Send(io, net, "AUTHENTICATE", [payloads[0]]), net, payloads[1..])
  }

  /** What SendEach leaves on the wire: a prefix of the payloads accepted, and at most one refused line. */
  lemma {:induction false} SendEachLog(io: Io, net: Outcomes, payloads: seq<string>)
    ensures var (io', ok) := SendEach(io, net, payloads);
            var sent, refused := AcceptedOf(io, net, payloads), RefusedOf(io, net, payloads);
            && sent + refused <= payloads
            && (if ok then sent == payloads && refused == [] else |refused| == 1)
            && io'.queue == io.queue
            && io'.log == io.log + Lines(sent, true) + Lines(refused, false)
    decreases |payloads|
  {
    if payloads == [] {
      assert io.log + [] + [] == io.log;
    } else {
      var head, tail := payloads[0], payloads[1..];
      assert payloads == [head] + tail;
      var io1 := Send(io, net, "AUTHENTICATE", [head]);
      if Accepted(io, net) {
        SendEachLog(io1, net, tail);
        var rest, refused := AcceptedOf(io1, net, tail), RefusedOf(io1, net, tail);
        assert ([head] + rest)[1..] == rest;
        assert io1.log + Lines(rest, true) + Lines(refused, false)
            == io.log + ([Attempt("AUTHENTICATE", [head], true)] + Lines(rest, true)) + Lines(refused, false);
        assert [head] + rest + refused == [head] + (rest + refused);
      } else {
        assert [head][1..] == [];
        assert io.log + [] + Lines([head], false) == io.log + [Attempt("AUTHENTICATE", [head], false)];
      }
    }
  }

  lemma {:induction false} ConcatPrefix(a: seq<string>, b: seq<string>)
    requires a <= b
    ensures Concat(a) <= Concat(b)
  {
    if a != [] {
      assert a[1..] <= b[1..];
      ConcatPrefix(a[1..], b[1..]);
    }
  }

  lemma {:induction false} ConcatSnoc(a: seq<string>, s: string)
    ensures Concat(a + [s]) == Concat(a) + s
  {
    if a == [] {
      assert a + [s] == [s];
      assert [s][1..] == [];
    } else {
      ConcatSnoc(a[1..], s);
      assert (a + [s])[1..] == a[1..] + [s];
    }
  }

  /**
   Main result for sendAuthData on data longer than one chunk. All the sends succeed: the accepted
   payloads are the pieces of the data followed by "+". Some send fails: what was accepted of the
   pieces is a prefix of the data, the session has failed, and exactly one SASLFail was emitted.
   */
  lemma LongDataIsChunked(s: Sasl, io: Io, net: Outcomes, data: string)
    requires s.maxChunk > 0 && |data| > s.maxChunk
    ensures var r := SendAuthData(s, io, net, data);
            var sent := AcceptedOf(io, net, Payloads(data, s.maxChunk));
            var n := (|data| + s.maxChunk - 1) / s.maxChunk;
            && (r.ok ==> |sent| == n + 1 && Concat(sent[..n]) == data && sent[n] == "+"
                         && r.sasl == s && r.io.queue == io.queue)
            && (!r.ok ==> |sent| <= n && Concat(sent) <= data && r.sasl == s.(state := Failed)
                          && r.io.queue == io.queue + [FailEvent(NameOfMechanism(s), "send failed")])
            && r.io.log == io.log + Lines(sent, true)
                         + Lines(RefusedOf(io, net, Payloads(data, s.maxChunk)), false)
  {
    var ps := Pieces(data, s.maxChunk);
    var all := Payloads(data, s.maxChunk);
    var sent := AcceptedOf(io, net, all);
    SendEachLog(io, net, all);
    PiecesConcat(data, s.maxChunk);
    PiecesShape(data, s.maxChunk);
    if sent == all {
      assert sent[..|ps|] == ps;
    } else {
      assert all[..|ps|] == ps;
      assert sent == all[..|sent|] == ps[..|sent|];
      ConcatPrefix(sent, ps);
    }
  }

  // ---------- what the server reassembles ----------

  /**
   The receiving side of IRCv3 SASL 3.1: chunks are collected until one is shorter than `size` or is
   "+"; that completes one response. Returns the completed responses and what is still pending.
   */
  function Reassemble(payloads: seq<string>, pending: string, size: nat): (seq<string>, Option<string>)
    decreases |payloads|
  {
    if payloads == [] then ([], if pending == "" then None else Some(pending))
    else
      var p := payloads[0];
      if p == "+" then
        var (rs, left) := Reassemble(payloads[1..], "", size);
        ([pending] + rs, left)
      else if |p| < size then
        var (rs, left) := Reassemble(payloads[1..], "", size);
        ([pending + p] + rs, left)
      else Reassemble(payloads[1..], pending + p, size)
  }

  predicate NoLonePlus(payloads: seq<string>) {
    forall p | p in payloads :: p != "+"
  }

  lemma {:induction false} ReassemblePieces(data: string, size: nat, pending: string)
    requires size > 0 && |data| > 0 && NoLonePlus(Pieces(data, size))
    ensures Reassemble(Pieces(data, size) + ["+"], pending, size) ==
            if |data| % size == 0 then ([pending + data], None) else ([pending + data, ""], None)
    decreases |data|
  {
    var ps := Pieces(data, size);
    if |data| <= size {
      assert data in ps;
      ReassembleLast(data, size, pending);
    } else {
      var rest := data[size..];
      DivStep(|data|, size);
      assert ps == [data[..size]] + Pieces(rest, size);
      assert data[..size] in ps;
      assert forall p | p in Pieces(rest, size) :: p in ps;
      ReassemblePieces(rest, size, pending + data[..size]);
      ReassembleFull(data[..size], Pieces(rest, size) + ["+"], pending, size);
      assert ps + ["+"] == [data[..size]] + (Pieces(rest, size) + ["+"]);
      assert data == data[..size] + rest;
      assert pending + data[..size] + rest == pending + data;
    }
  }

  lemma ReassembleFull(p: string, rest: seq<string>, pending: string, size: nat)
    requires p != "+" && |p| >= size
    ensures Reassemble([p] + rest, pending, size) == Reassemble(rest, pending + p, size)
  {
    assert ([p] + rest)[1..] == rest;
  }

  lemma ReassemblePlus(pending: string, size: nat)
    ensures Reassemble(["+"], pending, size) == ([pending], None)
  {
    assert ["+"][1..] == [];
    assert [pending] + [] == [pending];
  }

  lemma ReassembleLast(data: string, size: nat, pending: string)
    requires 0 < |data| <= size && data != "+"
    ensures Reassemble([data] + ["+"], pending, size) ==
            if |data| % size == 0 then ([pending + data], None) else ([pending + data, ""], None)
  {
    if |data| == size {
      DivUnique(size, 1, 0, size);
      ReassembleFull(data, ["+"], pending, size);
      ReassemblePlus(pending + data, size);
    } else {
      DivUnique(|data|, 0, |data|, size);
      assert ([data] + ["+"])[1..] == ["+"];
      ReassemblePlus("", size);
      assert [pending + data] + [""] == [pending + data, ""];
    }
  }

  /**
   Main result: for base64 data (no piece is a lone "+"), the server reads exactly one response,
   the data, if and only if the data is shorter than a chunk or a longer multiple of the chunk
   size. Data of exactly one chunk never completes; any other long data is followed by an empty
   extra response.
   */
  lemma ServerReadsOneResponseExactlyWhen(data: string, size: nat)
    requires size > 0 && NoLonePlus(Pieces(data, size))
    ensures Reassemble(Payloads(data, size), "", size) == ([data], None)
            <==> |data| < size || (|data| > size && |data| % size == 0)
    ensures |data| == size ==> Reassemble(Payloads(data, size), "", size) == ([], Some(data))
    ensures |data| > size && |data| % size != 0 ==> Reassemble(Payloads(data, size), "", size) == ([data, ""], None)
  {
    assert "" + data == data;
    if data == "" {
      ReassemblePlus("", size);
    } else if |data| <= size {
      assert data in Pieces(data, size);
      assert [data][1..] == [];
      assert [data] + [] == [data];
    } else {
      ReassemblePieces(data, size, "");
    }
  }

  // ---------- one handler call each, as a function ----------

  function StartAuthentication(s: Sasl, io: Io, net: Outcomes): SaslResult {
    if s.state != Inactive || s.mechanism.None? || "PLAIN" !in s.mechanisms then SaslResult(s, io, false)
    else
      var ok := Accepted(io, net);
      SaslResult(
        if ok then s.(state := Requesting, timerArmed := true) else s.(state := Failed),
        Send(io, net, "AUTHENTICATE", ["PLAIN"]),
        ok)
  }

  function StartPlain(s: Sasl, io: Io, net: Outcomes): SaslResult {
    if "PLAIN" !in s.mechanisms || s.username == "" || s.password == "" then SaslResult(s, io, false)
    else StartAuthentication(s.(mechanism := Some(Mechanism(s.username, s.password, false))), io, net)
  }

  function MechanismsIn(values: map<string, string>): seq<string> {
    if "sasl" in values && values["sasl"] != "" then Split(values["sasl"], ',') else ["PLAIN"]
  }

  function OnPreEnd(s: Sasl, io: Io, net: Outcomes, e: Event): SaslResult {
    if !e.data.CapPreEndData? then SaslResult(s, Emit(io, Plain(CapEndReady)), true)
    else if "sasl" !in e.data.activeCaps then
      var io' := Emit(io, Internally(Error, ErrorData("SASL required but not supported by server")));
      SaslResult(s, Emit(io', Plain(CapEndReady)), true)
    else
      var s' := s.(mechanisms := MechanismsIn(e.data.capValues));
      if s.username == "" && s.password == "" then SaslResult(s', Emit(io, Plain(CapEndReady)), true)
      else
        var r := StartPlain(s', io, net);
        if r.ok then r
        else
          var io' := Emit(r.io, FailEvent("unknown", "failed to start SASL"));
          SaslResult(r.sasl, Emit(io', Plain(CapEndReady)), true)
  }

  function AbortSession(s: Sasl, io: Io, net: Outcomes): SaslResult {
    if !Active(s) then SaslResult(s, io, false)
    else
      SaslResult(s.(state := Failed, timerArmed := false), Send(io, net, "AUTHENTICATE", ["*"]), Accepted(io, net))
  }

  function OnAuthenticate(s: Sasl, io: Io, net: Outcomes, codec: Codec, e: Event): SaslResult
    requires s.maxChunk > 0
  {
    if e.message.None? || s.state != Requesting then SaslResult(s, io, true)
    else if s.mechanism.None? then AbortSession(s, io, net)
    else
      var s1 := s.(state := Authenticating);
      var m := s.mechanism.value;
      if Trailing(e) != "+" || m.username == "" || m.password == "" then AbortSession(s1, io, net)
      else
        SendAuthData(
          s1.(mechanism := Some(Mechanism("", "", true))), io, net,
          codec.encode(PlainPayload(m.username, m.password)))
  }

  function OnSuccess(s: Sasl, io: Io): SaslResult {
    if !Active(s) then SaslResult(s, io, true)
    else
      var io' :=
        if s.mechanism.Some?
        then Emit(io, Internally(SASLSuccess, SASLData("PLAIN", "authentication successful")))
        else io;
      SaslResult(s.(state := Success, timerArmed := false), Emit(io', Plain(CapEndReady)), true)
  }

  function ResetMechanism(m: Option<Mechanism>): Option<Mechanism> {
    match m case None => None case Some(p) => Some(p.(complete := false))
  }

  function FailReason(e: Event): string {
    if e.message.Some? && |e.message.value.params| > 1 then Trailing(e) else "authentication failed"
  }

  function OnFail(s: Sasl, io: Io, e: Event): SaslResult {
    if !Active(s) then SaslResult(s, io, true)
    else
      var io' := Emit(io, FailEvent(NameOfMechanism(s), FailReason(e)));
      SaslResult(
        s.(state := Failed, timerArmed := false, mechanism := ResetMechanism(s.mechanism)),
        Emit(io', Plain(CapEndReady)),
        true)
  }

  function OnTimer(s: Sasl, io: Io): SaslResult {
    SaslResult(s.(state := Failed, timerArmed := false), Emit(io, FailEvent(NameOfMechanism(s), "timeout")), true)
  }

  function ResetSasl(s: Sasl): Sasl {
    s.(state := Inactive, timerArmed := false, mechanism := ResetMechanism(s.mechanism))
  }

  // ---------- the handler ----------

  class SASLHandler {
    const bus: EventBus
    const wire: Wire
    const codec: Codec
    const username: string
    const password: string
    var state: SaslState
    var mechanism: PlainMechanism?
    var timerArmed: bool
    var availableMechs: seq<string>
    var maxChunkSize: nat

    constructor (bus: EventBus, wire: Wire, codec: Codec, username: string, password: string)
      ensures this.bus == bus && this.wire == wire && this.codec == codec && mechanism == null
      ensures View() == Sasl(Inactive, None, false, [], username, password, DEFAULT_CHUNK_SIZE)
    {
      this.bus, this.wire, this.codec := bus, wire, codec;
      this.username, this.password := username, password;
      state, mechanism, timerArmed, availableMechs := Inactive, null, false, [];
      maxChunkSize := DEFAULT_CHUNK_SIZE;
    }

    /** The session's own buffers. */
    function Buffers(): set<object>
      reads this, mechanism
    {
      if mechanism == null then {}
      else {mechanism}
           + (if mechanism.username == null then {} else {mechanism.username as object})
           + (if mechanism.password == null then {} else {mechanism.password as object})
    }

    function View(): Sasl
      reads this, mechanism, Buffers()
    {
      Sasl(state, if mechanism == null then None else Some(mechanism.View()), timerArmed, availableMechs,
           username, password, maxChunkSize)
    }

    method EmitEvent(event: Event)
      modifies bus`queue
      ensures View() == old(View()) && Buffers() == old(Buffers())
      ensures IoOf(bus, wire) == Emit(old(IoOf(bus, wire)), event)
    {
      bus.Emit(event);
    }

    method StartAuth() returns (ok: bool)
      modifies this`state, this`timerArmed, wire`log
      ensures var r := StartAuthentication(old(View()), old(IoOf(bus, wire)), wire.outcome);
              View() == r.sasl && IoOf(bus, wire) == r.io && ok == r.ok
    {
      if state != Inactive || mechanism == null {
        return false;
      }
      var supported := false;
      for i := 0 to |availableMechs|
        invariant !supported && "PLAIN" !in availableMechs[..i]
        invariant View() == old(View()) && wire.log == old(wire.log)
      {
        if availableMechs[i] == "PLAIN" {
          supported := true;
          break;
        }
      }
      assert supported <==> "PLAIN" in availableMechs by {
        assert availableMechs[..|availableMechs|] == availableMechs;
      }
      if !supported {
        return false;
      }
      state := Requesting;
      var sent := wire.Send("AUTHENTICATE", ["PLAIN"]);
      if !sent {
        state := Failed;
        return false;
      }
      timerArmed := true;
      return true;
    }

    method StartPlainAuthentication() returns (ok: bool)
      modifies this, wire`log
      ensures Buffers() == old(Buffers()) || fresh(Buffers())
      ensures var r := StartPlain(old(View()), old(IoOf(bus, wire)), wire.outcome);
              View() == r.sasl && IoOf(bus, wire) == r.io && ok == r.ok
    {
      if "PLAIN" !in availableMechs {
        return false;
      }
      if username == "" || password == "" {
        return false;
      }
      mechanism := new PlainMechanism(username, password);
      ok := StartAuth();
    }

    method ReadMechanisms(values: map<string, string>)
      modifies this`availableMechs
      ensures View() == old(View()).(mechanisms := MechanismsIn(values)) && Buffers() == old(Buffers())
    {
      if "sasl" in values && values["sasl"] != "" {
        availableMechs := Split(values["sasl"], ',');
      } else {
        availableMechs := ["PLAIN"];
      }
    }

    method HandlePreEnd(event: Event)
      modifies this, bus`queue, wire`log
      ensures Buffers() == old(Buffers()) || fresh(Buffers())
      ensures var r := OnPreEnd(old(View()), old(IoOf(bus, wire)), wire.outcome, event);
              View() == r.sasl && IoOf(bus, wire) == r.io
    {
      hide StartPlain, MechanismsIn;
      if !event.data.CapPreEndData? {
        EmitEvent(Plain(CapEndReady));
        return;
      }
      if "sasl" !in event.data.activeCaps {
        EmitEvent(Internally(Error, ErrorData("SASL required but not supported by server")));
        EmitEvent(Plain(CapEndReady));
        return;
      }
      ReadMechanisms(event.data.capValues);
      if username == "" && password == "" {
        EmitEvent(Plain(CapEndReady));
        return;
      }
      var ok := StartPlainAuthentication();
      if !ok {
        EmitEvent(FailEvent("unknown", "failed to start SASL"));
        EmitEvent(Plain(CapEndReady));
      }
    }

    method Abort() returns (ok: bool)
      modifies this`state, this`timerArmed, wire`log
      ensures var r := AbortSession(old(View()), old(IoOf(bus, wire)), wire.outcome);
              View() == r.sasl && IoOf(bus, wire) == r.io && ok == r.ok
    {
      if !(state == Requesting || state == Authenticating) {
        return false;
      }
      state := Failed;
      timerArmed := false;
      ok := wire.Send("AUTHENTICATE", ["*"]);
    }

    method HandleAuthenticate(event: Event)
      requires maxChunkSize > 0
      modifies this, bus`queue, wire`log, Buffers()
      ensures Buffers() <= old(Buffers())
      ensures var r := OnAuthenticate(old(View()), old(IoOf(bus, wire)), wire.outcome, codec, event);
              View() == r.sasl && IoOf(bus, wire) == r.io
    {
      if event.message.None? || state != Requesting {
        return;
      }
      var challenge := event.message.value.GetTrailing();
      if mechanism == null {
        var _ := Abort();
        return;
      }
      state := Authenticating;
      var response: Option<string>;
      if challenge == "+" {
        response := mechanism.Start(codec.encode);
      } else {
        var decoded := codec.decode(challenge);
        if decoded.None? {
          var _ := Abort();
          return;
        }
        response := mechanism.Next(decoded.value);
      }
      if response.None? {
        var _ := Abort();
        return;
      }
      SendData(response.value);
    }

    method SendData(data: string)
      requires maxChunkSize > 0
      modifies this`state, bus`queue, wire`log
      ensures var r := SendAuthData(old(View()), old(IoOf(bus, wire)), wire.outcome, data);
              View() == r.sasl && IoOf(bus, wire) == r.io
    {
      ghost var io0, all := IoOf(bus, wire), Payloads(data, maxChunkSize);
      if |data| <= maxChunkSize {
        var only := if |data| == 0 then "+" else data;
        assert all == [only] && all[1..] == [];
        var sent := wire.Send("AUTHENTICATE", [only]);
        assert SendEach(io0, wire.outcome, all) == (IoOf(bus, wire), sent);
        if !sent {
          FailSending();
        }
        return;
      }
      var rest := data;
      while |rest| > 0
        invariant View() == old(View())
        invariant SendEach(io0, wire.outcome, all) ==
                  SendEach(IoOf(bus, wire), wire.outcome, Pieces(rest, maxChunkSize) + ["+"])
        decreases |rest|
      {
        var chunkSize := if |rest| < maxChunkSize then |rest| else maxChunkSize;
        var chunk := rest[..chunkSize];
        PiecesStep(rest, maxChunkSize);
        rest := rest[chunkSize..];
        var sent := wire.Send("AUTHENTICATE", [chunk]);
        if !sent {
          FailSending();
          return;
        }
      }
      assert Pieces(rest, maxChunkSize) + ["+"] == ["+"] && ["+"][1..] == [];
      var sent := wire.Send("AUTHENTICATE", ["+"]);
      if !sent {
        FailSending();
      }
    }

    method FailSending()
      modifies this`state, bus`queue
      ensures View() == old(View()).(state := Failed)
      ensures IoOf(bus, wire) == Emit(old(IoOf(bus, wire)), FailEvent(NameOfMechanism(old(View())), "send failed"))
    {
      state := Failed;
      EmitEvent(FailEvent(if mechanism == null then "unknown" else "PLAIN", "send failed"));
    }

    method HandleSASLSuccess()
      modifies this, bus`queue
      ensures mechanism == old(mechanism)
      ensures var r := OnSuccess(old(View()), old(IoOf(bus, wire))); View() == r.sasl && IoOf(bus, wire) == r.io
    {
      if !(state == Requesting || state == Authenticating) {
        return;
      }
      state := Success;
      timerArmed := false;
      if mechanism != null {
        EmitEvent(Internally(SASLSuccess, SASLData("PLAIN", "authentication successful")));
      }
      EmitEvent(Plain(CapEndReady));
    }

    method HandleSASLFail(event: Event)
      modifies this, bus`queue, mechanism
      ensures mechanism == old(mechanism) && Buffers() == old(Buffers())
      ensures var r := OnFail(old(View()), old(IoOf(bus, wire)), event); View() == r.sasl && IoOf(bus, wire) == r.io
    {
      if !(state == Requesting || state == Authenticating) {
        return;
      }
      state := Failed;
      timerArmed := false;
      var name := "unknown";
      if mechanism != null {
        name := "PLAIN";
        mechanism.Reset();
      }
      var reason := "authentication failed";
      if event.message.Some? && |event.message.value.params| > 1 {
        reason := event.message.value.GetTrailing();
      }
      EmitEvent(FailEvent(name, reason));
      EmitEvent(Plain(CapEndReady));
    }

    /** The callback of the 30 s session timer. */
    method TimerFired()
      modifies this, bus`queue
      ensures mechanism == old(mechanism)
      ensures var r := OnTimer(old(View()), old(IoOf(bus, wire))); View() == r.sasl && IoOf(bus, wire) == r.io
    {
      state := Failed;
      timerArmed := false;
      EmitEvent(FailEvent(if mechanism == null then "unknown" else "PLAIN", "timeout"));
    }

    method Reset()
      modifies this, mechanism
      ensures mechanism == old(mechanism) && Buffers() == old(Buffers())
      ensures View() == ResetSasl(old(View()))
    {
      state := Inactive;
      timerArmed := false;
      if mechanism != null {
        mechanism.Reset();
      }
    }
  }

  lemma PiecesStep(rest: string, size: nat)
    requires size > 0 && |rest| > 0
    ensures var n := if |rest| < size then |rest| else size;
            var all := Pieces(rest, size) + ["+"];
            all[0] == rest[..n] && all[1..] == Pieces(rest[n..], size) + ["+"]
  {
    if |rest| <= size {
      assert rest[..|rest|] == rest;
      assert Pieces("", size) + ["+"] == ["+"];
    }
  }
}
