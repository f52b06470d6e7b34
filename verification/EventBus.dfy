/**
 The event bus (parser/eventbus.go): a handler table with numbered entries and one FIFO queue.
 */
module EventBus {
  import opened Events

  /**
   Who is subscribed. `ClientOnEvent` is the client's handler for the type it is subscribed under;
   `User` stands for any handler the library does not define.
   */
  datatype Handler =
    | SaslAuthenticate | SaslOnSuccess | SaslOnFail | SaslOnPreEnd | SaslCounting
    | CapsOnConnected | CapsOnLS | CapsOnACK | CapsOnNAK | CapsOnDEL | CapsOnNEW | CapsOnEnd | CapsOnEndReady
    | RegOnConnected | RegOnWelcome | RegOnNumeric
    | PingOnPing | PingOnRaw | PingOnWelcome
    | ClientOnEvent
    | User(n: nat)

  datatype Wrapper = Wrapper(id: nat, handler: Handler)

  type Table = map<EventType, seq<Wrapper>>

  function Entries(table: Table, kind: EventType): seq<Wrapper> {
    if kind in table then table[kind] else []
  }

  /** `entries` without the last entry numbered `id`. */
  function RemoveLast(entries: seq<Wrapper>, id: nat): seq<Wrapper> {
    var n := |entries|;
    if n == 0 then []
    else if entries[n - 1].id == id then entries[..n - 1]
    else RemoveLast(entries[..n - 1], id) + [entries[n - 1]]
  }

  predicate Occurs(entries: seq<Wrapper>, id: nat) {
    exists i :: 0 <= i < |entries| && entries[i].id == id
  }

  function AddEntry(table: Table, kind: EventType, id: nat, handler: Handler): Table {
    table[kind := Entries(table, kind) + [Wrapper(id, handler)]]
  }

  function RemoveEntry(table: Table, kind: EventType, id: nat): Table {
    if Occurs(Entries(table, kind), id) then table[kind := RemoveLast(Entries(table, kind), id)] else table
  }

  lemma {:induction false} RemoveLastAt(entries: seq<Wrapper>, id: nat, i: nat)
    requires i < |entries| && entries[i].id == id
    requires forall j | i < j < |entries| :: entries[j].id != id
    ensures RemoveLast(entries, id) == entries[..i] + entries[i + 1..]
    decreases |entries|
  {
    var n := |entries|;
    if i < n - 1 {
      var front := entries[..n - 1];
      RemoveLastAt(front, id, i);
      assert front[..i] == entries[..i];
      assert front[i + 1..] + [entries[n - 1]] == entries[i + 1..];
    }
  }

  class EventBus {
    var handlers: Table
    var nextID: nat
    var queue: seq<Event>

    constructor ()
      ensures handlers == map[] && nextID == 0 && queue == []
    {
      handlers, nextID, queue := map[], 0, [];
    }

    /** First half of Subscribe, under idMutex. */
    method TakeID() returns (id: nat)
      modifies this`nextID
      ensures id == old(nextID) && nextID == old(nextID) + 1
    {
      id := nextID;
      nextID := nextID + 1;
    }

    /** Second half of Subscribe, under the table's mutex. */
    method Append(kind: EventType, id: nat, handler: Handler)
      modifies this`handlers
      ensures handlers == AddEntry(old(handlers), kind, id, handler)
    {
      var entries := if kind in handlers then handlers[kind] else [];
      handlers := handlers[kind := entries + [Wrapper(id, handler)]];
    }

    method Subscribe(kind: EventType, handler: Handler) returns (id: nat)
      modifies this`nextID, this`handlers
      ensures id == old(nextID) && nextID == old(nextID) + 1
      ensures handlers == AddEntry(old(handlers), kind, id, handler)
    {
      id := TakeID();
      Append(kind, id, handler);
    }

    method CountListeners(kind: EventType) returns (n: nat)
      ensures n == |Entries(handlers, kind)|
    {
      n := if kind in handlers then |handlers[kind]| else 0;
    }

    method UnsubscribeByID(kind: EventType, id: nat)
      modifies this`handlers
      ensures handlers == RemoveEntry(old(handlers), kind, id)
    {
      var entries := if kind in handlers then handlers[kind] else [];
      var i := |entries| - 1;
      while i >= 0
        invariant -1 <= i < |entries|
        invariant handlers == old(handlers)
        invariant forall j | i < j < |entries| :: entries[j].id != id
      {
        if entries[i].id == id {
          RemoveLastAt(entries, id, i);
          assert Occurs(entries, id);
          handlers := handlers[kind := entries[..i] + entries[i + 1..]];
          break;
        }
        i := i - 1;
      }
    }

    method Emit(event: Event)
      modifies this`queue
      ensures queue == old(queue) + [event]
    {
      queue := queue + [event];
    }

    /** The dispatch loop takes the oldest event and works on a snapshot of its handlers. */
    method Take() returns (event: Event, snapshot: seq<Wrapper>)
      requires queue != []
      modifies this`queue
      ensures event == old(queue)[0] && queue == old(queue)[1..]
      ensures snapshot == Entries(handlers, event.kind)
    {
      event := queue[0];
      queue := queue[1..];
      snapshot := if event.kind in handlers then handlers[event.kind] else [];
    }
  }
}
