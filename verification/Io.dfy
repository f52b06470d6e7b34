/** What the handlers do to the world outside them: emit events and send lines. */
module Io {
  import opened Message
  import opened Events
  import opened Wire
  import opened EventBus

  datatype Io = Io(queue: seq<Event>, log: seq<Attempt>)

  function Emit(io: Io, e: Event): Io {
    io.(queue := io.queue + [e])
  }

  function Plain(kind: EventType): Event {
    Event(kind, Option.None, NoData)
  }

  function Internally(kind: EventType, data: Data): Event {
    Event(kind, Option.None, data)
  }

  /** Does the next send succeed? */
  predicate Accepted(io: Io, net: Outcomes) {
    net(|io.log|)
  }

  function Send(io: Io, net: Outcomes, command: string, params: seq<string>): Io {
    io.(log := io.log + [Attempt(command, params, net(|io.log|))])
  }

  function IoOf(bus: EventBus, wire: Wire): Io
    reads bus`queue, wire`log
  {
    Io(bus.queue, wire.log)
  }

  function Trailing(e: Event): string {
    match e.message
    case None => ""
    case Some(m) => m.GetTrailing()
  }
}
