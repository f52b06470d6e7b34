/** PING and PONG (parser/ping.go). What the PING carries is the clock, an input. */
module Keepalive {
  import opened Events
  import opened Wire
  import opened EventBus
  import opened Io

  /** The timer is made on the welcome; an elapsed one starts again with the next line. */
  datatype Timer = NoTimer | Ticking | Elapsed

  function SendOrReport(io: Io, net: Outcomes, command: string, params: seq<string>): Io {
    var io' := Send(io, net, command, params);
    if Accepted(io, net) then io' else Emit(io', Internally(Error, ErrorData("failed to send ping")))
  }

  function OnPing(io: Io, net: Outcomes, e: Event): Io {
    if e.data.PingData? then SendOrReport(io, net, "PONG", [e.data.server]) else io
  }

  function OnRaw(t: Timer): Timer {
    if t == NoTimer then t else Ticking
  }

  function OnPingWelcome(t: Timer): Timer {
    if t == NoTimer then Ticking else t
  }

  class PingHandler {
    const bus: EventBus
    const wire: Wire
    var timer: Timer

    constructor (bus: EventBus, wire: Wire)
      ensures this.bus == bus && this.wire == wire && timer == NoTimer
    {
      this.bus, this.wire, timer := bus, wire, NoTimer;
    }

    method SendReporting(command: string, params: seq<string>)
      modifies bus`queue, wire`log
      ensures IoOf(bus, wire) == SendOrReport(old(IoOf(bus, wire)), wire.outcome, command, params)
    {
      var ok := wire.Send(command, params);
      if !ok {
        bus.Emit(Internally(Error, ErrorData("failed to send ping")));
      }
    }

    method HandlePing(event: Event)
      modifies bus`queue, wire`log
      ensures IoOf(bus, wire) == OnPing(old(IoOf(bus, wire)), wire.outcome, event)
    {
      if event.data.PingData? {
        SendReporting("PONG", [event.data.server]);
      }
    }

    method HandleRaw()
      modifies this
      ensures timer == OnRaw(old(timer))
    {
      if timer == NoTimer {
        return;
      }
      timer := Ticking;
    }

    method HandleWelcome()
      modifies this
      ensures timer == OnPingWelcome(old(timer))
    {
      if timer == NoTimer {
        timer := Ticking;
      }
    }

    /** The callback of the 60 s ping timer. */
    method TimerFired(clock: string)
      modifies this, bus`queue, wire`log
      ensures timer == Elapsed
      ensures IoOf(bus, wire) == SendOrReport(old(IoOf(bus, wire)), wire.outcome, "PING", ["tithon-" + clock])
    {
      timer := Elapsed;
      SendReporting("PING", ["tithon-" + clock]);
    }
  }
}
