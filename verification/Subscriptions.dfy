/**
 Subscribe takes its number under one lock and appends the entry under another, so two calls can
 interleave between the two steps. The theorems here quantify over all such interleavings.
 */
module Subscriptions {
  import opened Events
  import opened EventBus

  datatype Claim = Claim(kind: EventType, handler: Handler)

  /** `issued[id]` is what `id` was handed out for; `inFlight` are the numbers taken but not yet in the table. */
  datatype State = State(table: Table, issued: seq<Claim>, inFlight: seq<nat>)

  datatype Op =
    | OpTake(claim: Claim)
    | OpAppend(which: nat)
    | OpUnsubscribe(kind: EventType, id: nat)

  function Apply(s: State, op: Op): State {
    match op
    case OpTake(claim) => s.(issued := s.issued + [claim], inFlight := s.inFlight + [|s.issued|])
    case OpAppend(w) =>
      if w < |s.inFlight| && s.inFlight[w] < |s.issued| then
        var id := s.inFlight[w];
        var c := s.issued[id];
        s.(table := AddEntry(s.table, c.kind, id, c.handler), inFlight := s.inFlight[..w] + s.inFlight[w + 1..])
      else s
    case OpUnsubscribe(kind, id) => s.(table := RemoveEntry(s.table, kind, id))
  }

  function Run(s: State, ops: seq<Op>): State {
    if ops == [] then s else Apply(Run(s, ops[..|ops| - 1]), ops[|ops| - 1])
  }

  const INITIAL := State(map[], [], [])

  predicate DistinctEntries(entries: seq<Wrapper>) {
    forall i, j | 0 <= i < j < |entries| :: entries[i].id != entries[j].id
  }

  predicate DistinctNats(s: seq<nat>) {
    forall i, j | 0 <= i < j < |s| :: s[i] != s[j]
  }

  /** A number stands for the one subscription it was issued to, and occurs at most once anywhere. */
  ghost predicate Numbered(s: State) {
    && (forall k | k in s.table :: DistinctEntries(s.table[k]))
    && (forall k, i | k in s.table && 0 <= i < |s.table[k]| ::
          var w := s.table[k][i];
          w.id < |s.issued| && s.issued[w.id] == Claim(k, w.handler) && w.id !in s.inFlight)
    && DistinctNats(s.inFlight)
    && (forall id | id in s.inFlight :: id < |s.issued|)
  }

  lemma {:induction false} RemoveLastKeeps(entries: seq<Wrapper>, id: nat)
    requires DistinctEntries(entries)
    ensures var r := RemoveLast(entries, id);
            DistinctEntries(r) && (forall w :: w in r <==> w in entries && w.id != id)
    decreases |entries|
  {
    var n := |entries|;
    if n > 0 {
      var front := entries[..n - 1];
      assert entries == front + [entries[n - 1]];
      RemoveLastKeeps(front, id);
      var r := RemoveLast(front, id);
      if entries[n - 1].id != id {
        forall i | 0 <= i < |r| ensures r[i].id != entries[n - 1].id {
          assert r[i] in front;
        }
      }
    }
  }

  lemma TakeStep(s: State, claim: Claim)
    requires Numbered(s)
    ensures Numbered(Apply(s, OpTake(claim)))
  {
    assert forall i | 0 <= i < |s.inFlight| :: s.inFlight[i] in s.inFlight;
    assert forall i | 0 <= i < |s.inFlight| :: s.inFlight[i] < |s.issued|;
  }

  lemma AppendStep(s: State, w: nat)
    requires Numbered(s) && w < |s.inFlight|
    ensures Numbered(Apply(s, OpAppend(w)))
  {
    var id := s.inFlight[w];
    assert id in s.inFlight;
    var c := s.issued[id];
    var rest := s.inFlight[..w] + s.inFlight[w + 1..];
    assert forall x | x in rest :: x in s.inFlight && x != id;
    var old_, new_ := Entries(s.table, c.kind), Entries(s.table, c.kind) + [Wrapper(id, c.handler)];
    forall i | 0 <= i < |old_| ensures old_[i].id != id {
      assert c.kind in s.table;
    }
    assert DistinctEntries(new_);
    var s' := Apply(s, OpAppend(w));
    forall k, i | k in s'.table && 0 <= i < |s'.table[k]|
      ensures var e := s'.table[k][i];
              e.id < |s'.issued| && s'.issued[e.id] == Claim(k, e.handler) && e.id !in s'.inFlight
    {
      if k == c.kind && i == |old_| {
      } else {
        assert s'.table[k][i] == s.table[k][i];
      }
    }
  }

  lemma UnsubscribeStep(s: State, kind: EventType, id: nat)
    requires Numbered(s)
    ensures Numbered(Apply(s, OpUnsubscribe(kind, id)))
  {
    var entries := Entries(s.table, kind);
    if Occurs(entries, id) {
      assert kind in s.table;
      RemoveLastKeeps(entries, id);
      var s' := Apply(s, OpUnsubscribe(kind, id));
      forall k, i | k in s'.table && 0 <= i < |s'.table[k]|
        ensures var e := s'.table[k][i];
                e.id < |s'.issued| && s'.issued[e.id] == Claim(k, e.handler) && e.id !in s'.inFlight
      {
        assert s'.table[k][i] in s.table[k];
      }
    }
  }

  /** Main result: over every interleaving, numbers are unique across all event types and never reused. */
  lemma {:induction false} NumberedAlways(ops: seq<Op>)
    ensures Numbered(Run(INITIAL, ops))
    decreases |ops|
  {
    if ops != [] {
      var s := Run(INITIAL, ops[..|ops| - 1]);
      NumberedAlways(ops[..|ops| - 1]);
      match ops[|ops| - 1]
      case OpTake(claim) => TakeStep(s, claim);
      case OpAppend(w) =>
        if w < |s.inFlight| {
          AppendStep(s, w);
        }
      case OpUnsubscribe(kind, id) => UnsubscribeStep(s, kind, id);
    }
  }

  /** The entries other than number `id`, in their order. */
  function Without(entries: seq<Wrapper>, id: nat): seq<Wrapper> {
    if entries == [] then []
    else (if entries[0].id == id then [] else [entries[0]]) + Without(entries[1..], id)
  }

  lemma {:induction false} WithoutNone(entries: seq<Wrapper>, id: nat)
    requires !Occurs(entries, id)
    ensures Without(entries, id) == entries
  {
    if entries != [] {
      assert entries[0].id != id;
      forall i | 0 <= i < |entries[1..]| ensures entries[1..][i].id != id {
        assert entries[1..][i] == entries[i + 1];
      }
      WithoutNone(entries[1..], id);
    }
  }

  lemma {:induction false} WithoutOne(entries: seq<Wrapper>, id: nat, i: nat)
    requires i < |entries| && entries[i].id == id && DistinctEntries(entries)
    ensures Without(entries, id) == entries[..i] + entries[i + 1..]
  {
    var rest := entries[1..];
    if i == 0 {
      assert forall j | 0 <= j < |rest| :: rest[j] == entries[j + 1];
      WithoutNone(rest, id);
    } else {
      assert entries[0].id != id;
      assert forall j | 0 <= j < |rest| :: rest[j] == entries[j + 1];
      WithoutOne(rest, id, i - 1);
      assert entries[..i] == [entries[0]] + rest[..i - 1];
      assert rest[i..] == entries[i + 1..];
    }
  }

  /**
   Main result: in every reachable state, unsubscribing a number drops the one subscription the
   number was issued for, if it is there, keeps the order of the rest, and touches no other
   event type.
   */
  lemma {:induction false} UnsubscribeRemovesOnlyItsOwn(ops: seq<Op>, kind: EventType, id: nat)
    ensures var s := Run(INITIAL, ops);
            var t := RemoveEntry(s.table, kind, id);
            && Entries(t, kind) == Without(Entries(s.table, kind), id)
            && |Entries(t, kind)| >= |Entries(s.table, kind)| - 1
            && (forall k | k != kind :: Entries(t, k) == Entries(s.table, k))
            && (forall w | w in Entries(s.table, kind) && w !in Entries(t, kind) ::
                  id < |s.issued| && s.issued[id] == Claim(kind, w.handler))
  {
    hide Run, Without, RemoveLast;
    var s := Run(INITIAL, ops);
    NumberedAlways(ops);
    var entries := Entries(s.table, kind);
    if Occurs(entries, id) {
      var i :| 0 <= i < |entries| && entries[i].id == id;
      assert kind in s.table;
      WithoutOne(entries, id, i);
      RemoveLastAt(entries, id, i);
      RemoveLastKeeps(entries, id);
    } else {
      WithoutNone(entries, id);
    }
  }

  /** A number never changes its meaning: later claims only extend the list. */
  lemma {:induction false} ClaimsPersist(ops: seq<Op>, more: seq<Op>)
    ensures Run(INITIAL, ops).issued <= Run(INITIAL, ops + more).issued
    decreases |more|
  {
    if more == [] {
      assert ops + more == ops;
    } else {
      var front := more[..|more| - 1];
      ClaimsPersist(ops, front);
      assert (ops + more)[..|ops + more| - 1] == ops + front;
    }
  }
}
