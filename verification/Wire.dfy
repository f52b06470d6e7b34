/**
 The `send` function the handlers share. Whether the n-th send succeeds is not the library's
 choice: it is a function of n that every theorem quantifies over.
 */
module Wire {
  type Outcomes = nat -> bool

  datatype Attempt = Attempt(command: string, params: seq<string>, ok: bool)

  class Wire {
    const outcome: Outcomes
    var log: seq<Attempt>

    constructor (outcome: Outcomes)
      ensures this.outcome == outcome && log == []
    {
      this.outcome := outcome;
      log := [];
    }

    method Send(command: string, params: seq<string>) returns (ok: bool)
      modifies this`log
      ensures ok == outcome(|old(log)|)
      ensures log == old(log) + [Attempt(command, params, ok)]
    {
      ok := outcome(|log|);
      log := log + [Attempt(command, params, ok)];
    }
  }
}
