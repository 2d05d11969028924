/**
  How long the slot of a call that has ended is spared: an entry marked with a count is passed over
  by as many looks less one, and taken by the next.
 */
module SlotReuse {
  import opened Phrases
  import opened CallSpace
  import opened CallSafety

  /**
    An allocation in this state looks at entry e: it is time to look, e is below the cursor, and no
    entry before it is marked, released and at the end of its count, where the look would stop.
   */
  ghost predicate Looks(s: Space, e: nat) {
    && s.globseq % 64 == 0 && e < s.globseq <= |s.calltable|
    && forall d :: 0 <= d < e ==>
         !(s.calltable[d].gc && s.calltable[d].disposable && s.calltable[d].gcShyness <= 1)
  }

  /** Entry e is marked and released, with n looks to wait. */
  ghost predicate Resting(s: Space, e: nat, n: nat) {
    && 2 <= e < |s.calltable| && s.calltable[e].gc && s.calltable[e].disposable && s.calltable[e].gcShyness == n
  }

  /** One allocation and a resting entry. */
  lemma LookAges(s: Space, required: string, cs: CallS, t: Space, slot: nat, name: string, e: nat, n: nat)
    requires Consistent(s) && Allocates(s, required, cs, t, slot, name) && Resting(s, e, n)
    ensures Looks(s, e) && n <= 1 ==> slot == e
    ensures slot == e && !(Looks(s, e) && n <= 1) ==> NextInLine(s, e)
    ensures slot != e ==> Resting(t, e, if Looks(s, e) then n - 1 else n) && (Looks(s, e) ==> n > 1)
  {
    hide Nth, Tagged, Digits, Grown, Inverse, Labelled, ReleasedUnregistered;
    ConsistentIsSized(s);
    TableAfter(s, required, cs, t, slot, name);
    var stop: nat, k: nat, table: seq<CallS> :| AllocatesBy(s, required, cs, t, slot, name, stop, k, table);
    var g := Nth(s.globseq, k);
    NthInRange(s.globseq, k);
    GrownKeeps(table, g);
    assert slot != e ==> t.calltable[e] == table[e];
  }

  /** How many of the allocations from i up to j look at e. */
  ghost function LooksAt(states: seq<System>, events: seq<Event>, e: nat, i: nat, j: nat): nat
    requires i <= j <= |events| <= |states|
    decreases j
  {
    if i == j then 0
    else
      LooksAt(states, events, e, i, j - 1)
      + if events[j - 1].Allocate? && Looks(states[j - 1].space, e) then 1 else 0
  }

  /** The move does not give slot e out, nor mark or fill in its entry. */
  predicate LeavesEntry(event: Event, e: nat) {
    !((event.Allocate? || event.Mark? || event.Install?) && event.slot == e)
  }

  lemma RestsOn(sys: System, event: Event, after: System, e: nat, n: nat)
    requires Safe(sys) && Next(sys, event, after) && Resting(sys.space, e, n) && LeavesEntry(event, e)
    ensures if event.Allocate? && Looks(sys.space, e) then n > 1 && Resting(after.space, e, n - 1)
            else Resting(after.space, e, n)
  {
    hide Allocates, InstanceOf, Inverse, Labelled, Looks;
    SafeIsConsistent(sys);
    if event.Allocate? {
      LookAges(sys.space, event.required, event.cs, after.space, event.slot, event.name, e, n);
    }
  }

  /** A call that has ended and then been marked with a count rests with that count. */
  lemma {:induction false} ReleasedUntilMarked(states: seq<System>, events: seq<Event>, a: nat, b: nat, e: nat)
    requires IsOwnedRun(states, events) && a < b < |states| && events[a].Exit? && events[a].slot == e
    requires forall k :: a < k < b ==> LeavesEntry(events[k], e)
    ensures e >= 2 && e < |states[b].space.calltable| && states[b].space.calltable[e].disposable
    ensures e !in states[b].space.numlookup
    decreases b
  {
    hide Safe, May, Next, Initial, Owned;
    RunStaysSafe(states, events, b - 1);
    if b == a + 1 {
      ExitReleases(states[a], events[a], states[b]);
    } else {
      ReleasedUntilMarked(states, events, a, b - 1, e);
      StaysReleased(states[b - 1], events[b - 1], states[b], e);
    }
  }

  lemma ExitReleases(sys: System, event: Event, after: System)
    requires Safe(sys) && May(sys, event) && Next(sys, event, after) && event.Exit?
    ensures var e := event.slot;
      && 2 <= e < |after.space.calltable| && after.space.calltable[e].disposable && e !in after.space.numlookup
      && sys.space.numlookup[e] !in after.space.fnlookup
  {
    hide InstanceOf, Inverse, Labelled;
  }

  lemma StaysReleased(sys: System, event: Event, after: System, e: nat)
    requires Safe(sys) && Next(sys, event, after) && LeavesEntry(event, e)
    requires 2 <= e < |sys.space.calltable| && sys.space.calltable[e].disposable && e !in sys.space.numlookup
    ensures e < |after.space.calltable| && after.space.calltable[e].disposable && e !in after.space.numlookup
  {
    hide Allocates, InstanceOf, Inverse, Labelled;
    SafeIsConsistent(sys);
    if event.Allocate? {
      ConsistentIsSized(sys.space);
      TableAfter(sys.space, event.required, event.cs, after.space, event.slot, event.name);
      HandsOutFree(sys.space, event.required, event.cs, after.space, event.slot, event.name);
    }
  }

  /** For as long as a marked entry is left alone it has been looked at fewer times than its count. */
  lemma {:induction false} SparedByLooks(states: seq<System>, events: seq<Event>, i: nat, j: nat, e: nat, n: nat)
    requires IsOwnedRun(states, events) && i <= j < |states| && n > 0 && Resting(states[i].space, e, n)
    requires forall k :: i <= k < j ==> LeavesEntry(events[k], e)
    ensures LooksAt(states, events, e, i, j) < n
    ensures Resting(states[j].space, e, n - LooksAt(states, events, e, i, j))
    decreases j
  {
    hide Safe, May, Next, Initial, Owned, Looks;
    if i < j {
      SparedByLooks(states, events, i, j - 1, e, n);
      RunStaysSafe(states, events, j - 1);
      RestsOn(states[j - 1], events[j - 1], states[j], e, n - LooksAt(states, events, e, i, j - 1));
    }
  }

  /**
    In every run: a call ends in slot e and its entry is marked with a count n > 0. Of the
    allocations that look at the entry after that, the first n - 1 pass it over, unless its slot is
    the first free one from the cursor on, and the one after them takes it.
   */
  lemma ReusedAtLastLook(states: seq<System>, events: seq<Event>, a: nat, b: nat, j: nat, e: nat, n: nat)
    requires IsOwnedRun(states, events) && a < b < j < |events| && n > 0
    requires events[a].Exit? && events[a].slot == e && events[b] == Mark(e, true, n) && events[j].Allocate?
    requires forall k :: a < k < j && k != b ==> LeavesEntry(events[k], e)
    ensures var looks := LooksAt(states, events, e, b + 1, j);
      && looks < n
      && (Looks(states[j].space, e) && looks == n - 1 ==> events[j].slot == e)
      && (events[j].slot == e && !(Looks(states[j].space, e) && looks == n - 1) ==> NextInLine(states[j].space, e))
  {
    hide Safe, May, Initial, Owned, Looks, LooksAt, Allocates, NextInLine, Consistent, Resting;
    ReleasedUntilMarked(states, events, a, b, e);
    assert Resting(states[b + 1].space, e, n) by {
      MarkRests(states[b], events[b], states[b + 1]);
    }
    SparedByLooks(states, events, b + 1, j, e, n);
    RunStaysSafe(states, events, j);
    SafeIsConsistent(states[j]);
    var event := events[j];
    LookAges(states[j].space, event.required, event.cs, states[j + 1].space, event.slot, event.name, e,
             n - LooksAt(states, events, e, b + 1, j));
  }

  lemma MarkRests(sys: System, event: Event, after: System)
    requires event.Mark? && event.gc && Next(sys, event, after)
    requires 2 <= event.slot < |sys.space.calltable| && sys.space.calltable[event.slot].disposable
    ensures Resting(after.space, event.slot, event.shyness)
  {
  }

  /** The entry of a slot handed out: the caller's own if it was prepared, and otherwise cleared for waiting. */
  lemma HandedOutEntry(s: Space, required: string, cs: CallS, t: Space, slot: nat, name: string)
    requires Allocates(s, required, cs, t, slot, name) && slot < |t.calltable|
    ensures var c := t.calltable[slot];
      && !c.disposable
      && (cs.prepared ==>
            c.fs == name && c.prepared && c.gc == cs.gc && c.gcShyness == cs.gcShyness && c.retvals == cs.retvals)
      && (!cs.prepared ==> !c.gc && c.gcShyness == 0)
  {
    hide Nth, Tagged, Grown, SettlesAfter, SweepsTo, Swept;
    var stop: nat, k: nat, table: seq<CallS> :| AllocatesBy(s, required, cs, t, slot, name, stop, k, table);
  }
}
