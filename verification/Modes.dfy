/**
 Mode lists and MODE changes (the mode parts of parser/types.go and client/state.go, and the loop of
 handleMode in client/client.go). Here one `char` is one rune.
 */
module Modes {
  import opened Message

  /** UserMode and ChannelMode: a letter and its parameter. */
  datatype ModeEntry = ModeEntry(letter: char, parameter: string)

  /** One mode letter of a MODE message with its sign and argument. */
  datatype Change = Change(adding: bool, letter: char, parameter: string)

  // ---------- mode lists ----------

  /** AddMode: the first entry for the letter is replaced, or a new one appended. */
  function WithMode(modes: seq<ModeEntry>, letter: char, parameter: string): seq<ModeEntry> {
    if modes == [] then [ModeEntry(letter, parameter)]
    else if modes[0].letter == letter then [ModeEntry(letter, parameter)] + modes[1..]
    else [modes[0]] + WithMode(modes[1..], letter, parameter)
  }

  /** RemoveMode: the first entry for the letter is removed. */
  function WithoutMode(modes: seq<ModeEntry>, letter: char): seq<ModeEntry> {
    if modes == [] then []
    else if modes[0].letter == letter then modes[1..]
    else [modes[0]] + WithoutMode(modes[1..], letter)
  }

  function Letters(modes: seq<ModeEntry>): seq<char> {
    seq(|modes|, i requires 0 <= i < |modes| => modes[i].letter)
  }

  predicate Distinct(modes: seq<ModeEntry>) {
    forall i, j :: 0 <= i < j < |modes| ==> modes[i].letter != modes[j].letter
  }

  /** The parameter the list holds for a letter. */
  function Lookup(modes: seq<ModeEntry>, letter: char): Option<string> {
    if modes == [] then None
    else if modes[0].letter == letter then Some(modes[0].parameter)
    else Lookup(modes[1..], letter)
  }

  lemma {:induction false} WithModeAt(modes: seq<ModeEntry>, letter: char, parameter: string, i: nat)
    requires i < |modes| && modes[i].letter == letter
    requires forall j | 0 <= j < i :: modes[j].letter != letter
    ensures WithMode(modes, letter, parameter) == modes[i := ModeEntry(letter, parameter)]
  {
    if i > 0 {
      WithModeAt(modes[1..], letter, parameter, i - 1);
    }
  }

  lemma {:induction false} WithModeAbsent(modes: seq<ModeEntry>, letter: char, parameter: string)
    requires forall j | 0 <= j < |modes| :: modes[j].letter != letter
    ensures WithMode(modes, letter, parameter) == modes + [ModeEntry(letter, parameter)]
    ensures WithoutMode(modes, letter) == modes
  {
    if modes != [] {
      WithModeAbsent(modes[1..], letter, parameter);
    }
  }

  lemma {:induction false} WithoutModeAt(modes: seq<ModeEntry>, letter: char, i: nat)
    requires i < |modes| && modes[i].letter == letter
    requires forall j | 0 <= j < i :: modes[j].letter != letter
    ensures WithoutMode(modes, letter) == modes[..i] + modes[i + 1..]
  {
    if i > 0 {
      WithoutModeAt(modes[1..], letter, i - 1);
      assert modes[..i] == [modes[0]] + modes[1..][..i - 1];
    }
  }

  /** A letter is listed exactly if looking it up finds something. */
  lemma {:induction false} LookupFinds(modes: seq<ModeEntry>, letter: char)
    ensures Lookup(modes, letter).None? <==> letter !in Letters(modes)
  {
    if modes != [] {
      LookupFinds(modes[1..], letter);
      assert Letters(modes) == [modes[0].letter] + Letters(modes[1..]);
    }
  }

  lemma DistinctTail(modes: seq<ModeEntry>)
    requires modes != []
    ensures Distinct(modes) <==> Distinct(modes[1..]) && modes[0].letter !in Letters(modes[1..])
  {
    var tail := modes[1..];
    if Distinct(tail) && modes[0].letter !in Letters(tail) {
      forall i, j | 0 <= i < j < |modes| ensures modes[i].letter != modes[j].letter {
        assert modes[j] == tail[j - 1] && Letters(tail)[j - 1] == modes[j].letter;
        if i > 0 {
          assert modes[i] == tail[i - 1];
        }
      }
    }
    if Distinct(modes) {
      assert forall i | 0 <= i < |tail| :: tail[i] == modes[i + 1];
    }
  }

  lemma {:induction false} AddModeLookup(modes: seq<ModeEntry>, letter: char, parameter: string, l: char)
    ensures Lookup(WithMode(modes, letter, parameter), l) == if l == letter then Some(parameter) else Lookup(modes, l)
  {
    if modes == [] {
      assert Lookup([], letter).None?;
    } else {
      AddModeLookup(modes[1..], letter, parameter, l);
    }
  }

  lemma {:induction false} AddModeLetters(modes: seq<ModeEntry>, letter: char, parameter: string)
    ensures Letters(WithMode(modes, letter, parameter)) ==
            if letter in Letters(modes) then Letters(modes) else Letters(modes) + [letter]
  {
    if modes != [] {
      var after := WithMode(modes, letter, parameter);
      assert Letters(modes) == [modes[0].letter] + Letters(modes[1..]);
      assert Letters(after) == [after[0].letter] + Letters(after[1..]);
      if modes[0].letter != letter {
        assert after[1..] == WithMode(modes[1..], letter, parameter);
        AddModeLetters(modes[1..], letter, parameter);
      }
    }
  }

  lemma DistinctLetters(modes: seq<ModeEntry>)
    ensures Distinct(modes) <==> forall i, j :: 0 <= i < j < |Letters(modes)| ==> Letters(modes)[i] != Letters(modes)[j]
  {
    var letters := Letters(modes);
    assert forall i | 0 <= i < |modes| :: letters[i] == modes[i].letter;
  }

  /** AddMode is a map update that keeps the list free of repeats; a new letter goes to the end. */
  lemma AddModeMeaning(modes: seq<ModeEntry>, letter: char, parameter: string)
    ensures var after := WithMode(modes, letter, parameter);
            && (forall l :: Lookup(after, l) == if l == letter then Some(parameter) else Lookup(modes, l))
            && Letters(after) == (if letter in Letters(modes) then Letters(modes) else Letters(modes) + [letter])
            && (Distinct(modes) ==> Distinct(after))
  {
    hide *;
    var after := WithMode(modes, letter, parameter);
    forall l ensures Lookup(after, l) == if l == letter then Some(parameter) else Lookup(modes, l) {
      AddModeLookup(modes, letter, parameter, l);
    }
    AddModeLetters(modes, letter, parameter);
    DistinctLetters(modes);
    DistinctLetters(after);
  }

  /** RemoveMode is a map removal, on lists without repeats. */
  lemma {:induction false} RemoveModeMeaning(modes: seq<ModeEntry>, letter: char)
    requires Distinct(modes)
    ensures var after := WithoutMode(modes, letter);
            && (forall l :: Lookup(after, l) == if l == letter then None else Lookup(modes, l))
            && Distinct(after)
            && (forall l :: l in Letters(after) ==> l in Letters(modes))
  {
    var after := WithoutMode(modes, letter);
    if modes != [] {
      DistinctTail(modes);
      assert Letters(modes) == [modes[0].letter] + Letters(modes[1..]);
      if modes[0].letter == letter {
        LookupFinds(after, letter);
      } else {
        RemoveModeMeaning(modes[1..], letter);
        assert after[1..] == WithoutMode(modes[1..], letter);
        assert Letters(after) == [modes[0].letter] + Letters(after[1..]);
        DistinctTail(after);
      }
    }
  }

  // ---------- a MODE message ----------

  function ArgAt(args: seq<string>, j: nat): string {
    if j < |args| then args[j] else ""
  }

  /** The changes a sign/mode string asks for: each letter takes the next argument while there is one. */
  function Changes(modes: string, adding: bool, args: seq<string>): seq<Change> {
    if modes == "" then []
    else if modes[0] == '+' then Changes(modes[1..], true, args)
    else if modes[0] == '-' then Changes(modes[1..], false, args)
    else [Change(adding, modes[0], ArgAt(args, 0))] + Changes(modes[1..], adding, if args == [] then [] else args[1..])
  }

  predicate IsSign(c: char) {
    c == '+' || c == '-'
  }

  function LetterCount(modes: string): nat {
    if modes == "" then 0 else (if IsSign(modes[0]) then 0 else 1) + LetterCount(modes[1..])
  }

  /** The sign in force after `read`: its last sign, or `initial`. */
  function SignAfter(read: string, initial: bool): bool {
    if read == "" then initial
    else
      var last := read[|read| - 1];
      if IsSign(last) then last == '+' else SignAfter(read[..|read| - 1], initial)
  }

  lemma {:induction false} SignAfterFirst(read: string, initial: bool)
    requires read != ""
    ensures SignAfter(read, initial) == SignAfter(read[1..], if IsSign(read[0]) then read[0] == '+' else initial)
  {
    if |read| > 1 && !IsSign(read[|read| - 1]) {
      SignAfterFirst(read[..|read| - 1], initial);
      assert read[..|read| - 1][1..] == read[1..][..|read| - 2];
    }
  }

  /** Position by position: the letter at `i`, the j-th, gets the last sign before it and argument j. */
  lemma {:induction false} ChangesAt(modes: string, adding: bool, args: seq<string>, i: nat)
    requires i < |modes| && !IsSign(modes[i])
    ensures |Changes(modes, adding, args)| == LetterCount(modes)
    ensures var j := LetterCount(modes[..i]);
            j < LetterCount(modes) &&
            Changes(modes, adding, args)[j] == Change(SignAfter(modes[..i], adding), modes[i], ArgAt(args, j))
    decreases |modes|
  {
    ChangesLength(modes, adding, args);
    if i > 0 {
      var adding' := if IsSign(modes[0]) then modes[0] == '+' else adding;
      var args' := if IsSign(modes[0]) || args == [] then args else args[1..];
      SignAfterFirst(modes[..i], adding);
      assert modes[..i][1..] == modes[1..][..i - 1];
      ChangesAt(modes[1..], adding', args', i - 1);
    }
  }

  lemma {:induction false} ChangesLength(modes: string, adding: bool, args: seq<string>)
    ensures |Changes(modes, adding, args)| == LetterCount(modes)
  {
    if modes != "" {
      var adding' := if IsSign(modes[0]) then modes[0] == '+' else adding;
      var args' := if IsSign(modes[0]) || args == [] then args else args[1..];
      ChangesLength(modes[1..], adding', args');
    }
  }

  function Apply(modes: seq<ModeEntry>, c: Change): seq<ModeEntry> {
    if c.adding then WithMode(modes, c.letter, c.parameter) else WithoutMode(modes, c.letter)
  }

  function ApplyAll(modes: seq<ModeEntry>, changes: seq<Change>): seq<ModeEntry>
    decreases |changes|
  {
    if changes == [] then modes else ApplyAll(Apply(modes, changes[0]), changes[1..])
  }

  /** The last change to a letter. */
  function LastOf(changes: seq<Change>, letter: char): (r: Option<Change>)
    ensures r.None? <==> forall i | 0 <= i < |changes| :: changes[i].letter != letter
    ensures r.Some? ==>
              exists i :: 0 <= i < |changes| && changes[i] == r.value && r.value.letter == letter
                          && forall j | i < j < |changes| :: changes[j].letter != letter
  {
    var n := |changes|;
    if n == 0 then None
    else if changes[n - 1].letter == letter then Some(changes[n - 1])
    else LastOf(changes[..n - 1], letter)
  }

  lemma {:induction false} ApplyAllSnoc(modes: seq<ModeEntry>, changes: seq<Change>)
    requires changes != []
    ensures var n := |changes|;
            ApplyAll(modes, changes) == Apply(ApplyAll(modes, changes[..n - 1]), changes[n - 1])
    decreases |changes|
  {
    var n := |changes|;
    if n > 1 {
      ApplyAllSnoc(Apply(modes, changes[0]), changes[1..]);
      assert changes[1..][..n - 2] == changes[..n - 1][1..];
    }
  }

  /**
   Main result: after all changes a letter is set iff its last occurrence was under '+', with that
   occurrence's parameter, or it did not occur and was set before; the list stays without repeats.
   */
  lemma {:induction false} LastOccurrenceRule(modes: seq<ModeEntry>, changes: seq<Change>)
    requires Distinct(modes)
    ensures Distinct(ApplyAll(modes, changes))
    ensures forall l ::
              Lookup(ApplyAll(modes, changes), l) ==
              match LastOf(changes, l)
              case None => Lookup(modes, l)
              case Some(c) => if c.adding then Some(c.parameter) else None
    decreases |changes|
  {
    var n := |changes|;
    if n > 0 {
      LastOccurrenceRule(modes, changes[..n - 1]);
      ApplyAllSnoc(modes, changes);
      var before, c := ApplyAll(modes, changes[..n - 1]), changes[n - 1];
      AddModeMeaning(before, c.letter, c.parameter);
      RemoveModeMeaning(before, c.letter);
      hide Lookup, WithMode, WithoutMode, ApplyAll;
    }
  }

  /** The changes whose argument is `nick`, as they apply to that user: without a parameter. */
  function ChangesFor(changes: seq<Change>, nick: string): seq<Change> {
    if changes == [] || nick == "" then []
    else
      (if changes[0].parameter == nick then [changes[0].(parameter := "")] else []) + ChangesFor(changes[1..], nick)
  }
}
