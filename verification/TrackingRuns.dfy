/** The tracked objects and the relation, end to end. */
module TrackingRuns {
  import opened Events
  import opened EventBus
  import opened Tracking
  import opened TrackedHeap
  import opened TrackingTheorems

  /**
   Main result: a new client that has handled any sequence of events holds, on the heap and whatever the
   order of its maps, exactly the relation those events describe, unless one of them renames somebody
   present to the nick they have. Its lists and keys are consistent, and with harmless events only it is
   itself in every channel it tracks.
   */
  method Track(bus: EventBus, nick: string, es: seq<Event>) returns (client: Client)
    modifies bus`queue
    ensures fresh(client) && client.state.Valid()
    ensures var v := client.state.View();
            && Tidy(v)
            && (NoneInPlace(InitialView(nick), es) ==> Abs(v) == RunRel(Abs(InitialView(nick)), es))
            && (AllHarmless(nick, es) ==> OwnNickEverywhere(v))
  {
    hide *;
    client := new Client(bus, nick);
    client.HandleAll(es);
    AlwaysTidy(nick, es);
    if NoneInPlace(InitialView(nick), es) {
      RunRefines(InitialView(nick), es);
    }
    if AllHarmless(nick, es) {
      OwnNickAlways(nick, es);
    }
  }
}
