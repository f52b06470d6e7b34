/**
 Capability negotiation (parser/capabilities.go): the handler class, and the functions on plain
 values its methods are proved against.
 */
module Capabilities {
  import opened GoStrings
  import opened Events
  import opened Wire
  import opened EventBus
  import opened Io

  const PROTOCOL_VERSION := "302"
  const READY_BUFFER := 100

  /** The goroutine EndCapabilityNegotiation leaves behind: not yet started, or counting ready signals. */
  datatype Waiter = Fresh | Counting(expected: nat, ready: nat)

  datatype Caps = Caps(
    requested: seq<string>,
    pending: set<string>,
    available: map<string, string>,
    acked: map<string, string>,
    negotiating: bool,
    tokens: nat,
    waiters: seq<Waiter>)

  datatype Result = Result(caps: Caps, io: Io, ok: bool)

  // ---------- names ----------

  function NameOf(capability: string): string {
    if '=' in capability then Cut(capability, '=').0 else capability
  }

  function ValueOf(capability: string): string {
    if '=' in capability then Cut(capability, '=').1 else ""
  }

  function NamesOf(words: seq<string>): seq<string> {
    if words == [] then [] else [NameOf(words[0])] + NamesOf(words[1..])
  }

  function AddAvailable(words: seq<string>, target: map<string, string>): map<string, string> {
    if words == [] then target
    else AddAvailable(words[1..], target[NameOf(words[0]) := ValueOf(words[0])])
  }

  /** The names in `wanted`, in the order of `names`. */
  function Select(names: seq<string>, wanted: set<string>): seq<string> {
    if names == [] then []
    else (if names[0] in wanted then [names[0]] else []) + Select(names[1..], wanted)
  }

  function Elements(s: seq<string>): set<string> {
    set x | x in s
  }

  // ---------- one handler call each, as a function ----------

  function Request(c: Caps, io: Io, net: Outcomes, capabilities: seq<string>): Result {
    var available := Select(capabilities, c.available.Keys);
    if available == [] then Result(c, io, true)
    else
      Result(
        c.(pending := c.pending + Elements(available)),
        Send(io, net, "CAP", ["REQ", Join(available, ' ')]),
        Accepted(io, net))
  }

  function ProcessNew(c: Caps, io: Io, net: Outcomes, text: string): Result {
    var words := Fields(text);
    var c' := c.(available := AddAvailable(words, c.available));
    if c.requested == [] then Result(c', io, true)
    else Request(c', io, net, Select(NamesOf(words), Elements(c.requested)))
  }

  function EndNegotiation(c: Caps, io: Io): Result {
    if !c.negotiating then Result(c, io, true)
    else
      Result(
        c.(waiters := c.waiters + [Fresh]),
        Emit(io, Internally(CapPreEnd, CapPreEndData(c.acked.Keys, c.acked))),
        true)
  }

  function CheckEnd(c: Caps, io: Io): Result {
    if c.pending == {} then EndNegotiation(c, io) else Result(c, io, true)
  }

  function OnConnected(c: Caps, io: Io, net: Outcomes): Result {
    Result(c.(negotiating := Accepted(io, net)), Send(io, net, "CAP", ["LS", PROTOCOL_VERSION]), true)
  }

  function OnLS(c: Caps, io: Io, net: Outcomes, e: Event): Result {
    if !c.negotiating then Result(c, io, true)
    else
      var r := ProcessNew(c, io, net, Trailing(e));
      if r.ok && (c.requested == [] || r.caps.pending == {}) then EndNegotiation(r.caps, r.io) else r
  }

  function Added(capability: string): Event {
    Internally(CapAdded, CapAddedData(capability))
  }

  function Removed(capability: string): Event {
    Internally(CapRemoved, CapRemovedData(capability))
  }

  function AckOne(c: Caps, capability: string): Caps {
    var acked :=
      if capability in c.acked then c.acked
      else c.acked[capability := if capability in c.available then c.available[capability] else ""];
    c.(acked := acked, pending := c.pending - {capability})
  }

  function AckAll(c: Caps, words: seq<string>): Caps
    decreases |words|
  {
    if words == [] then c else AckAll(AckOne(c, words[0]), words[1..])
  }

  function AddedAll(words: seq<string>): seq<Event> {
    if words == [] then [] else [Added(words[0])] + AddedAll(words[1..])
  }

  function RemovedAll(words: seq<string>): seq<Event> {
    if words == [] then [] else [Removed(words[0])] + RemovedAll(words[1..])
  }

  function EmitAll(io: Io, es: seq<Event>): Io {
    io.(queue := io.queue + es)
  }

  function OnACK(c: Caps, io: Io, e: Event): Result {
    if !c.negotiating || e.message.None? then Result(c, io, true)
    else
      var words := Fields(Trailing(e));
      CheckEnd(AckAll(c, words), EmitAll(io, AddedAll(words)))
  }

  function OnNAK(c: Caps, io: Io, e: Event): Result {
    if !c.negotiating || e.message.None? then Result(c, io, true)
    else CheckEnd(c.(pending := c.pending - Elements(Fields(Trailing(e)))), io)
  }

  function OnDEL(c: Caps, io: Io, e: Event): Result {
    if e.message.None? then Result(c, io, true)
    else
      var words := Fields(Trailing(e));
      Result(c.(acked := c.acked - Elements(words)), EmitAll(io, RemovedAll(words)), true)
  }

  function OnNEW(c: Caps, io: Io, net: Outcomes, e: Event): Result {
    if e.message.None? then Result(c, io, true) else ProcessNew(c, io, net, Trailing(e))
  }

  function OnCapEnd(c: Caps, io: Io, net: Outcomes): Result {
    Result(c.(negotiating := c.negotiating && !Accepted(io, net)), Send(io, net, "CAP", ["END"]), true)
  }

  function OnEndReady(c: Caps): Caps {
    if c.tokens < READY_BUFFER then c.(tokens := c.tokens + 1) else c
  }

  // ---------- the waiter ----------

  function DropWaiter(c: Caps, i: nat): Caps
    requires i < |c.waiters|
  {
    c.(waiters := c.waiters[..i] + c.waiters[i + 1..])
  }

  /** The goroutine's first step: count the listeners; with none, end at once. */
  function WaiterStart(c: Caps, io: Io, net: Outcomes, i: nat, listeners: nat): Result
    requires i < |c.waiters|
  {
    if listeners == 0 then OnCapEnd(DropWaiter(c, i), io, net)
    else Result(c.(waiters := c.waiters[i := Counting(listeners, 0)]), io, true)
  }

  /** One ready signal is taken from the channel. */
  function WaiterToken(c: Caps, io: Io, net: Outcomes, i: nat): Result
    requires i < |c.waiters| && c.waiters[i].Counting? && c.tokens > 0
  {
    var w := c.waiters[i];
    var c' := c.(tokens := c.tokens - 1);
    if w.ready + 1 >= w.expected then OnCapEnd(DropWaiter(c', i), io, net)
    else Result(c'.(waiters := c.waiters[i := Counting(w.expected, w.ready + 1)]), io, true)
  }

  function WaiterTimeout(c: Caps, io: Io, net: Outcomes, i: nat): Result
    requires i < |c.waiters|
  {
    OnCapEnd(DropWaiter(c, i), io, net)
  }

  function ResetCaps(c: Caps): Caps {
    c.(acked := map[], available := map[], negotiating := false)
  }

  /** A Go map: the handler and the Parser hold the same one until the handler is reset. */
  class CapMap {
    var entries: map<string, string>
    constructor ()
      ensures entries == map[]
    {
      entries := map[];
    }
  }

  // ---------- lemmas for the loops ----------

  lemma {:induction false} SelectSnoc(names: seq<string>, x: string, wanted: set<string>)
    ensures Select(names + [x], wanted) == Select(names, wanted) + (if x in wanted then [x] else [])
  {
    if names == [] {
      assert names + [x] == [x];
      assert [x][1..] == [];
    } else {
      SelectSnoc(names[1..], x, wanted);
      assert (names + [x])[1..] == names[1..] + [x];
    }
  }

  lemma {:induction false} NamesOfSnoc(words: seq<string>, x: string)
    ensures NamesOf(words + [x]) == NamesOf(words) + [NameOf(x)]
  {
    if words == [] {
      assert words + [x] == [x];
      assert [x][1..] == [];
    } else {
      NamesOfSnoc(words[1..], x);
      assert (words + [x])[1..] == words[1..] + [x];
    }
  }

  lemma {:induction false} AddAvailableSnoc(words: seq<string>, x: string, target: map<string, string>)
    ensures AddAvailable(words + [x], target) == AddAvailable(words, target)[NameOf(x) := ValueOf(x)]
  {
    if words == [] {
      assert words + [x] == [x];
      assert [x][1..] == [];
    } else {
      AddAvailableSnoc(words[1..], x, target[NameOf(words[0]) := ValueOf(words[0])]);
      assert (words + [x])[1..] == words[1..] + [x];
    }
  }

  lemma {:induction false} AckAllSnoc(c: Caps, words: seq<string>, x: string)
    ensures AckAll(c, words + [x]) == AckOne(AckAll(c, words), x)
    decreases |words|
  {
    if words == [] {
      assert words + [x] == [x];
      assert [x][1..] == [];
    } else {
      AckAllSnoc(AckOne(c, words[0]), words[1..], x);
      assert (words + [x])[1..] == words[1..] + [x];
    }
  }

  lemma {:induction false} EventsSnoc(words: seq<string>, x: string)
    ensures AddedAll(words + [x]) == AddedAll(words) + [Added(x)]
    ensures RemovedAll(words + [x]) == RemovedAll(words) + [Removed(x)]
  {
    if words == [] {
      assert words + [x] == [x];
      assert [x][1..] == [];
    } else {
      EventsSnoc(words[1..], x);
      assert (words + [x])[1..] == words[1..] + [x];
    }
  }

  lemma {:induction false} AddAvailableKeys(words: seq<string>, target: map<string, string>)
    ensures AddAvailable(words, target).Keys == target.Keys + Elements(NamesOf(words))
    decreases |words|
  {
    if words != [] {
      var n, rest := NameOf(words[0]), NamesOf(words[1..]);
      assert NamesOf(words) == [n] + rest;
      assert Elements(NamesOf(words)) == {n} + Elements(rest);
      AddAvailableKeys(words[1..], target[n := ValueOf(words[0])]);
    }
  }

  /** Select keeps exactly the wanted names, in order. */
  lemma {:induction false} SelectMeaning(names: seq<string>, wanted: set<string>)
    ensures forall x :: x in Select(names, wanted) <==> x in names && x in wanted
  {
    if names != [] {
      SelectMeaning(names[1..], wanted);
      assert names == [names[0]] + names[1..];
    }
  }

  /** Selecting from names that are all wanted drops nothing. */
  lemma {:induction false} SelectAll(names: seq<string>, wanted: set<string>)
    requires forall x | x in names :: x in wanted
    ensures Select(names, wanted) == names
  {
    if names != [] {
      SelectAll(names[1..], wanted);
      assert names == [names[0]] + names[1..];
    }
  }

  lemma {:induction false} SelectNone(names: seq<string>)
    ensures Select(names, {}) == []
  {
    if names != [] {
      SelectNone(names[1..]);
    }
  }

  /** All an ACK's loop does. */
  lemma {:induction false} AckAllFields(c: Caps, words: seq<string>)
    ensures var c' := AckAll(c, words);
            c'.tokens == c.tokens && c'.waiters == c.waiters && c'.negotiating == c.negotiating
            && c'.requested == c.requested && c'.available == c.available
            && c'.pending == c.pending - Elements(words)
            && c'.acked.Keys == c.acked.Keys + Elements(words)
    decreases |words|
  {
    if words != [] {
      AckAllFields(AckOne(c, words[0]), words[1..]);
      assert Elements(words) == {words[0]} + Elements(words[1..]) by {
        assert words == [words[0]] + words[1..];
      }
    }
  }

  /** What processNewCapabilities leaves alone. */
  lemma ProcessNewFrame(c: Caps, io: Io, net: Outcomes, text: string)
    ensures var r := ProcessNew(c, io, net, text);
            && r.io.queue == io.queue && io.log <= r.io.log && |r.io.log| <= |io.log| + 1
            && r.caps == c.(available := r.caps.available, pending := r.caps.pending) && c.pending <= r.caps.pending
  {
    hide Fields, Select, NamesOf, AddAvailable, Join;
  }

  lemma ElementsSnoc(words: seq<string>, i: nat)
    requires i < |words|
    ensures words[..i + 1] == words[..i] + [words[i]]
    ensures Elements(words[..i + 1]) == Elements(words[..i]) + {words[i]}
  {
    assert words[..i + 1] == words[..i] + [words[i]];
  }

  // ---------- the handler ----------

  class CapabilitiesHandler {
    const bus: EventBus
    const wire: Wire
    const requestedCaps: seq<string>
    var pendingCaps: set<string>
    var availableCaps: map<string, string>
    var ackedCaps: CapMap
    var negotiating: bool
    var ready: nat
    var waiters: seq<Waiter>

    /** The subscriptions NewCapabilitiesHandler makes are in Session.SubscribeCaps. */
    constructor (bus: EventBus, wire: Wire, capabilities: CapMap, caps: seq<string>)
      ensures this.bus == bus && this.wire == wire && ackedCaps == capabilities
      ensures View() == Caps(caps, {}, map[], capabilities.entries, false, 0, [])
    {
      this.bus, this.wire, requestedCaps := bus, wire, caps;
      pendingCaps, availableCaps, ackedCaps := {}, map[], capabilities;
      negotiating, ready, waiters := false, 0, [];
    }

    function View(): Caps
      reads this, ackedCaps
    {
      Caps(requestedCaps, pendingCaps, availableCaps, ackedCaps.entries, negotiating, ready, waiters)
    }

    method HandleConnected()
      modifies this`negotiating, wire`log
      ensures var r := OnConnected(old(View()), old(IoOf(bus, wire)), wire.outcome);
              View() == r.caps && IoOf(bus, wire) == r.io
    {
      negotiating := true;
      var ok := wire.Send("CAP", ["LS", PROTOCOL_VERSION]);
      if !ok {
        negotiating := false;
      }
    }

    method HandleCapLS(event: Event)
      modifies this, bus`queue, wire`log
      ensures ackedCaps == old(ackedCaps)
      ensures var r := OnLS(old(View()), old(IoOf(bus, wire)), wire.outcome, event);
              View() == r.caps && IoOf(bus, wire) == r.io
    {
      if !negotiating {
        return;
      }
      var capsStr := "";
      if event.message.Some? {
        capsStr := event.message.value.GetTrailing();
      }
      var ok := ProcessNewCapabilities(capsStr);
      if !ok {
        return;
      }
      if |requestedCaps| == 0 || pendingCaps == {} {
        EndCapabilityNegotiation();
      }
    }

    method HandleCapACK(event: Event)
      modifies this, bus`queue, ackedCaps
      ensures ackedCaps == old(ackedCaps)
      ensures var r := OnACK(old(View()), old(IoOf(bus, wire)), event);
              View() == r.caps && IoOf(bus, wire) == r.io
    {
      if !negotiating || event.message.None? {
        return;
      }
      var acked := Fields(event.message.value.GetTrailing());
      ghost var c0, io0 := View(), IoOf(bus, wire);
      for i := 0 to |acked|
        invariant ackedCaps == old(ackedCaps)
        invariant View() == AckAll(c0, acked[..i])
        invariant IoOf(bus, wire) == EmitAll(io0, AddedAll(acked[..i]))
      {
        ElementsSnoc(acked, i);
        AckAllSnoc(c0, acked[..i], acked[i]);
        EventsSnoc(acked[..i], acked[i]);
        AddCapability(acked[i]);
        pendingCaps := pendingCaps - {acked[i]};
        bus.Emit(Added(acked[i]));
      }
      assert acked[..|acked|] == acked;
      CheckEndNegotiation();
    }

    method HandleCapNAK(event: Event)
      modifies this, bus`queue
      ensures ackedCaps == old(ackedCaps)
      ensures var r := OnNAK(old(View()), old(IoOf(bus, wire)), event);
              View() == r.caps && IoOf(bus, wire) == r.io
    {
      if !negotiating || event.message.None? {
        return;
      }
      var naked := Fields(event.message.value.GetTrailing());
      ghost var c0 := View();
      for i := 0 to |naked|
        invariant ackedCaps == old(ackedCaps)
        invariant View() == c0.(pending := c0.pending - Elements(naked[..i]))
        invariant IoOf(bus, wire) == old(IoOf(bus, wire))
      {
        ElementsSnoc(naked, i);
        pendingCaps := pendingCaps - {naked[i]};
      }
      assert naked[..|naked|] == naked;
      CheckEndNegotiation();
    }

    method HandleCapDEL(event: Event)
      modifies ackedCaps, bus`queue
      ensures var r := OnDEL(old(View()), old(IoOf(bus, wire)), event);
              View() == r.caps && IoOf(bus, wire) == r.io
    {
      hide Fields;
      if event.message.None? {
        return;
      }
      var removed := Fields(event.message.value.GetTrailing());
      ghost var c0, io0 := View(), IoOf(bus, wire);
      for i := 0 to |removed|
        invariant View() == c0.(acked := c0.acked - Elements(removed[..i]))
        invariant IoOf(bus, wire) == EmitAll(io0, RemovedAll(removed[..i]))
      {
        ElementsSnoc(removed, i);
        EventsSnoc(removed[..i], removed[i]);
        ackedCaps.entries := ackedCaps.entries - {removed[i]};
        bus.Emit(Removed(removed[i]));
      }
      assert removed[..|removed|] == removed;
    }

    method HandleCapNEW(event: Event)
      modifies this, wire`log
      ensures ackedCaps == old(ackedCaps)
      ensures var r := OnNEW(old(View()), old(IoOf(bus, wire)), wire.outcome, event);
              View() == r.caps && IoOf(bus, wire) == r.io
    {
      if event.message.None? {
        return;
      }
      var ok := ProcessNewCapabilities(event.message.value.GetTrailing());
    }

    method RequestCapabilities(capabilities: seq<string>) returns (ok: bool)
      modifies this`pendingCaps, wire`log
      ensures var r := Request(old(View()), old(IoOf(bus, wire)), wire.outcome, capabilities);
              View() == r.caps && IoOf(bus, wire) == r.io && ok == r.ok
    {
      if |capabilities| == 0 {
        return true;
      }
      var available: seq<string> := [];
      for i := 0 to |capabilities|
        invariant available == Select(capabilities[..i], availableCaps.Keys)
        invariant View() == old(View()) && wire.log == old(wire.log)
      {
        ElementsSnoc(capabilities, i);
        SelectSnoc(capabilities[..i], capabilities[i], availableCaps.Keys);
        if capabilities[i] in availableCaps {
          available := available + [capabilities[i]];
        }
      }
      assert capabilities[..|capabilities|] == capabilities;
      if |available| == 0 {
        return true;
      }
      ghost var pending0 := pendingCaps;
      for i := 0 to |available|
        invariant pendingCaps == pending0 + Elements(available[..i])
        invariant wire.log == old(wire.log)
      {
        ElementsSnoc(available, i);
        pendingCaps := pendingCaps + {available[i]};
      }
      assert available[..|available|] == available;
      ok := wire.Send("CAP", ["REQ", Join(available, ' ')]);
    }

    method EndCapabilityNegotiation()
      modifies this`waiters, bus`queue
      ensures var r := EndNegotiation(old(View()), old(IoOf(bus, wire)));
              View() == r.caps && IoOf(bus, wire) == r.io
    {
      if !negotiating {
        return;
      }
      bus.Emit(Internally(CapPreEnd, CapPreEndData(ackedCaps.entries.Keys, ackedCaps.entries)));
      waiters := waiters + [Fresh];
    }

    method CheckEndNegotiation()
      modifies this`waiters, bus`queue
      ensures var r := CheckEnd(old(View()), old(IoOf(bus, wire)));
              View() == r.caps && IoOf(bus, wire) == r.io
    {
      if pendingCaps == {} {
        EndCapabilityNegotiation();
      }
    }

    method HandleCapEnd()
      modifies this`negotiating, wire`log
      ensures var r := OnCapEnd(old(View()), old(IoOf(bus, wire)), wire.outcome);
              View() == r.caps && IoOf(bus, wire) == r.io
    {
      var ok := wire.Send("CAP", ["END"]);
      if !ok {
        return;
      }
      negotiating := false;
    }

    method HandleCapEndReady()
      modifies this`ready
      ensures View() == OnEndReady(old(View()))
    {
      if ready < READY_BUFFER {
        ready := ready + 1;
      }
    }

    method AddCapability(capability: string)
      modifies ackedCaps
      ensures View() == AckOne(old(View()), capability).(pending := old(pendingCaps))
    {
      if capability in ackedCaps.entries {
        return;
      }
      var value := "";
      if capability in availableCaps {
        value := availableCaps[capability];
      }
      ackedCaps.entries := ackedCaps.entries[capability := value];
    }

    method ParseAvailableCapabilities(capsStr: string)
      modifies this`availableCaps
      ensures availableCaps == AddAvailable(Fields(capsStr), old(availableCaps))
    {
      var caps := Fields(capsStr);
      for i := 0 to |caps|
        invariant availableCaps == AddAvailable(caps[..i], old(availableCaps))
      {
        ElementsSnoc(caps, i);
        AddAvailableSnoc(caps[..i], caps[i], old(availableCaps));
        if '=' in caps[i] {
          var (name, value) := Cut(caps[i], '=');
          availableCaps := availableCaps[name := value];
        } else {
          availableCaps := availableCaps[caps[i] := ""];
        }
      }
      assert caps[..|caps|] == caps;
    }

    method ProcessNewCapabilities(capsStr: string) returns (ok: bool)
      modifies this`availableCaps, this`pendingCaps, wire`log
      ensures var r := ProcessNew(old(View()), old(IoOf(bus, wire)), wire.outcome, capsStr);
              View() == r.caps && IoOf(bus, wire) == r.io && ok == r.ok
    {
      ParseAvailableCapabilities(capsStr);
      if |requestedCaps| == 0 {
        return true;
      }
      var newCaps := Fields(capsStr);
      var toRequest: seq<string> := [];
      for i := 0 to |newCaps|
        invariant toRequest == Select(NamesOf(newCaps[..i]), Elements(requestedCaps))
        invariant View() == old(View()).(available := AddAvailable(newCaps, old(availableCaps)))
        invariant wire.log == old(wire.log)
      {
        ElementsSnoc(newCaps, i);
        NamesOfSnoc(newCaps[..i], newCaps[i]);
        var capName := newCaps[i];
        if '=' in capName {
          capName := Cut(capName, '=').0;
        }
        SelectSnoc(NamesOf(newCaps[..i]), capName, Elements(requestedCaps));
        if capName in requestedCaps {
          toRequest := toRequest + [capName];
        }
      }
      assert newCaps[..|newCaps|] == newCaps;
      ok := true;
      if |toRequest| > 0 {
        ok := RequestCapabilities(toRequest);
      }
    }

    // ----- the waiter goroutine, one select at a time -----

    method StartWaiter(i: nat)
      requires i < |waiters|
      modifies this, wire`log
      ensures ackedCaps == old(ackedCaps)
      ensures var r := WaiterStart(old(View()), old(IoOf(bus, wire)), wire.outcome, i, |Entries(bus.handlers, CapPreEnd)|);
              View() == r.caps && IoOf(bus, wire) == r.io
    {
      var expected := bus.CountListeners(CapPreEnd);
      if expected == 0 {
        waiters := waiters[..i] + waiters[i + 1..];
        HandleCapEnd();
        return;
      }
      waiters := waiters[i := Counting(expected, 0)];
    }

    method ReceiveReady(i: nat)
      requires i < |waiters| && waiters[i].Counting? && ready > 0
      modifies this, wire`log
      ensures ackedCaps == old(ackedCaps)
      ensures var r := WaiterToken(old(View()), old(IoOf(bus, wire)), wire.outcome, i);
              View() == r.caps && IoOf(bus, wire) == r.io
    {
      ready := ready - 1;
      var w := waiters[i];
      if w.ready + 1 >= w.expected {
        waiters := waiters[..i] + waiters[i + 1..];
        HandleCapEnd();
        return;
      }
      waiters := waiters[i := Counting(w.expected, w.ready + 1)];
    }

    method TimeOut(i: nat)
      requires i < |waiters|
      modifies this, wire`log
      ensures ackedCaps == old(ackedCaps)
      ensures var r := WaiterTimeout(old(View()), old(IoOf(bus, wire)), wire.outcome, i);
              View() == r.caps && IoOf(bus, wire) == r.io
    {
      waiters := waiters[..i] + waiters[i + 1..];
      HandleCapEnd();
    }

    method Cancel(i: nat)
      requires i < |waiters|
      modifies this
      ensures ackedCaps == old(ackedCaps)
      ensures View() == DropWaiter(old(View()), i)
    {
      waiters := waiters[..i] + waiters[i + 1..];
    }

    method Reset()
      modifies this
      ensures fresh(ackedCaps)
      ensures View() == ResetCaps(old(View()))
    {
      ackedCaps := new CapMap();
      availableCaps := map[];
      negotiating := false;
    }
  }
}
