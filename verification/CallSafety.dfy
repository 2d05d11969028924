/**
  Runs of the call space in any order of allocating, starting, exiting, marking and installing:
  what every reachable state keeps, and when a slot whose call is running can be handed out again.
 */
module CallSafety {
  import opened Phrases
  import opened CallSpace

  datatype Event =
    | Allocate(required: string, cs: CallS, slot: nat, name: string)
    | Start(slot: nat)
    | Exit(slot: nat, results: Option<int>)
    | Mark(slot: nat, gc: bool, shyness: nat)
    | Install(slot: nat)

  /** What a call takes to be its name and its slot, for as long as it runs. */
  datatype Belief = Belief(fs: string, ifs: nat)

  /** The space, the slots given out to calls that have not exited, and what those that have started believe. */
  datatype System = System(space: Space, live: set<nat>, started: map<nat, Belief>)

  /** At start-up the first two slots are named and nothing runs. */
  ghost predicate Initial(sys: System) {
    && sys.live == {} && sys.started == map[]
    && sys.space.globseq == 0
    && |sys.space.calltable| == CALL_CAP
    && (forall e :: 0 <= e < CALL_CAP ==> sys.space.calltable[e] == EMPTY)
    && sys.space.numlookup == map[0 := "global", 1 := "main"]
    && sys.space.fnlookup == map["global" := 0, "main" := 1]
  }

  /**
    What may happen. Callers ask for proper names, and prepare the entry of every tagged one; a
    call starts once, and exits once it has started.
   */
  ghost predicate May(sys: System, e: Event) {
    match e
    case Allocate(required, cs, _, _) => Askable(required) && (required[|required| - 1] == '@' ==> cs.prepared)
    case Start(slot) => slot in sys.live && slot !in sys.started
    case Exit(slot, _) => slot in sys.started
    case Mark(slot, _, _) => slot < |sys.space.calltable|
    case Install(slot) => slot in sys.live && !TaggedSlot(sys.space, slot)
  }

  ghost predicate TaggedSlot(s: Space, slot: nat) {
    slot in s.numlookup && exists tag :: InstanceOf(s.numlookup[slot], tag)
  }

  /** The slot's name is looked up to the slot, and its entry carries that name. */
  ghost predicate OwnsName(s: Space, slot: nat) {
    && slot in s.numlookup && slot < |s.calltable| && s.calltable[slot].fs == s.numlookup[slot]
    && s.numlookup[slot] in s.fnlookup && s.fnlookup[s.numlookup[slot]] == slot
  }

  /** The call that starts is one whose name stands for its slot. */
  ghost predicate Owned(sys: System, e: Event) { e.Start? ==> OwnsName(sys.space, e.slot) }

  ghost predicate Next(sys: System, e: Event, after: System) {
    match e
    case Allocate(required, cs, slot, name) =>
      && Allocates(sys.space, required, cs, after.space, slot, name)
      && after.live == sys.live + {slot} && after.started == sys.started - {slot}
    case Start(slot) =>
      && slot < |sys.space.calltable|
      && after == sys.(started := sys.started[slot := Belief(sys.space.calltable[slot].fs, Believed(sys.space, slot))])
    case Exit(slot, results) =>
      && slot in sys.started && sys.started[slot].ifs < |sys.space.calltable|
      && after == System(Exited(sys.space, sys.started[slot].fs, sys.started[slot].ifs, results),
                         sys.live - {slot}, sys.started - {slot})
    case Mark(slot, gc, shyness) =>
      slot < |sys.space.calltable| && after == sys.(space := Marked(sys.space, slot, gc, shyness))
    case Install(slot) =>
      && slot < |sys.space.calltable| && slot in sys.space.numlookup
      && after == sys.(space := Installed(sys.space, slot))
  }

  /**
    The space is consistent, every live slot is named, and every call that has started believes
    itself in its own slot, which has the name it believes.
   */
  ghost predicate Safe(sys: System) {
    && Consistent(sys.space)
    && (forall slot :: slot in sys.live ==> slot >= 2 && slot in sys.space.numlookup)
    && (forall slot :: slot in sys.started ==>
          slot in sys.live && sys.started[slot] == Belief(sys.space.numlookup[slot], slot))
  }

  ghost predicate IsRun(states: seq<System>, events: seq<Event>) {
    && |states| == |events| + 1 && Initial(states[0])
    && forall i :: 0 <= i < |events| ==> May(states[i], events[i]) && Next(states[i], events[i], states[i + 1])
  }

  /** A run in which every call starts while its name stands for its slot. */
  ghost predicate IsOwnedRun(states: seq<System>, events: seq<Event>) {
    IsRun(states, events) && forall i :: 0 <= i < |events| ==> Owned(states[i], events[i])
  }

  // ---------------------------------------------------------------- one move

  lemma InitialIsSafe(sys: System)
    requires Initial(sys)
    ensures Safe(sys)
  {
    PlainName("global");
    PlainName("main");
  }

  lemma PlainName(name: string)
    requires forall c :: c in name ==> c != '@'
    ensures forall slot :: !InstanceOf(name, slot)
  {
    forall slot ensures !InstanceOf(name, slot) {
      if |name| > |Digits(slot)| {
        assert name[|name| - |Digits(slot)| - 1] in name;
      }
    }
  }

  /** What allocation hands out: a slot with no name, by either of its two ways of finding one. */
  lemma HandsOutFree(s: Space, required: string, cs: CallS, t: Space, slot: nat, name: string)
    requires Consistent(s) && Allocates(s, required, cs, t, slot, name)
    ensures slot !in s.numlookup
    ensures t.numlookup == s.numlookup[slot := name] && t.fnlookup == s.fnlookup[name := slot]
    ensures |required| > 0 && name == Tagged(required, slot) && NamedFor(name, required, slot)
  {
    hide Nth, Grown, Inverse, Labelled, Tagged, Digits, NamedFor;
    var stop: nat, k: nat, table: seq<CallS> :| AllocatesBy(s, required, cs, t, slot, name, stop, k, table);
    TaggedIsNamedFor(required, slot);
    if 0 < stop < s.globseq {
      assert Due(s.calltable[stop]);
    }
  }

  /** The same entry but for how long it has waited. */
  predicate SameCall(a: CallS, b: CallS) {
    a.fs == b.fs && a.gc == b.gc && a.disposable == b.disposable && a.prepared == b.prepared && a.retvals == b.retvals
  }

  /** Its table is the old one, possibly longer, with no entry but the slot's newly held. */
  lemma TableAfter(s: Space, required: string, cs: CallS, t: Space, slot: nat, name: string)
    requires Sized(s) && Allocates(s, required, cs, t, slot, name)
    ensures t.globseq < GNFS_MODULUS && t.globseq < |t.calltable| && |s.calltable| <= |t.calltable| <= 2 * GNFS_MODULUS
    ensures slot < |t.calltable|
    ensures !t.calltable[slot].disposable && (cs.prepared ==> t.calltable[slot].fs == name)
    ensures forall e :: 0 <= e < |s.calltable| && e != slot ==> SameCall(s.calltable[e], t.calltable[e])
    ensures forall e :: |s.calltable| <= e < |t.calltable| && e != slot ==> t.calltable[e] == EMPTY
  {
    hide Nth, Tagged, Digits, Grown, SettlesAfter;
    var stop: nat, k: nat, table: seq<CallS> :| AllocatesBy(s, required, cs, t, slot, name, stop, k, table);
    NthInRange(s.globseq, k);
    var g := Nth(s.globseq, k);
    GrownKeeps(table, g);
    var big := Grown(table, g);
    forall e | 0 <= e < |s.calltable| && e != slot
      ensures SameCall(s.calltable[e], t.calltable[e])
    {
      assert t.calltable[e] == big[e] == table[e];
    }
  }

  lemma AllocateKeeps(s: Space, required: string, cs: CallS, t: Space, slot: nat, name: string)
    requires Consistent(s) && Askable(required) && (required[|required| - 1] == '@' ==> cs.prepared)
    requires Allocates(s, required, cs, t, slot, name)
    ensures Consistent(t)
  {
    hide Allocates, Tagged, InstanceOf, Inverse, Labelled, SweepsTo, Swept, AllocatesBy, Digits;
    HandsOutFree(s, required, cs, t, slot, name);
    TableAfter(s, required, cs, t, slot, name);
    TaggedOnlyHere(required, slot);
    NamedKeepsInverse(s, t, slot, name);
    NamedKeepsLabelled(s, t, slot, name, required, cs);
  }

  /** A tag in the name handed out is the slot's own. */
  lemma TaggedOnlyHere(required: string, slot: nat)
    requires Askable(required)
    ensures var name := Tagged(required, slot);
      && (forall tag :: InstanceOf(name, tag) ==> tag == slot)
      && ((exists tag :: InstanceOf(name, tag)) ==> required[|required| - 1] == '@')
  {
    hide InstanceOf, Digits;
    var name := Tagged(required, slot);
    if required[|required| - 1] == '@' {
      TaggedIsInstance(required, slot);
      forall tag | InstanceOf(name, tag)
        ensures tag == slot
      {
        InstanceOfOne(name, tag, slot);
      }
    }
  }

  lemma NamedKeepsInverse(s: Space, t: Space, slot: nat, name: string)
    requires Inverse(s) && slot !in s.numlookup
    requires t.numlookup == s.numlookup[slot := name] && t.fnlookup == s.fnlookup[name := slot]
    requires forall tag :: InstanceOf(name, tag) ==> tag == slot
    ensures Inverse(t)
  {
    hide InstanceOf;
  }

  lemma NamedKeepsLabelled(s: Space, t: Space, slot: nat, name: string, required: string, cs: CallS)
    requires Labelled(s) && slot !in s.numlookup && |required| > 0
    requires t.numlookup == s.numlookup[slot := name]
    requires slot < |t.calltable| && |s.calltable| <= |t.calltable| && (cs.prepared ==> t.calltable[slot].fs == name)
    requires forall e :: 0 <= e < |s.calltable| && e != slot ==> t.calltable[e].fs == s.calltable[e].fs
    requires forall tag :: InstanceOf(name, tag) ==> tag == slot
    requires (exists tag :: InstanceOf(name, tag)) ==> required[|required| - 1] == '@'
    requires required[|required| - 1] == '@' ==> cs.prepared
    ensures Labelled(t)
  {
    hide InstanceOf;
    forall other, tag | other in t.numlookup && InstanceOf(t.numlookup[other], tag)
      ensures tag == other && other < |t.calltable| && t.calltable[other].fs == t.numlookup[other]
    {
      if other != slot {
        assert s.numlookup[other] == t.numlookup[other];
      }
    }
  }

  /** A running call under a tagged name finds its own slot when it looks its name up. */
  lemma TaggedOwnsName(s: Space, slot: nat)
    requires Consistent(s) && TaggedSlot(s, slot)
    ensures OwnsName(s, slot)
  {
    hide InstanceOf;
    var tag :| InstanceOf(s.numlookup[slot], tag);
    assert tag == slot;
  }

  /** A call ends that believes itself in its own slot, even if its name has been given out again since. */
  lemma ExitKeeps(s: Space, slot: nat, results: Option<int>)
    requires Consistent(s) && slot >= 2 && slot in s.numlookup
    ensures slot < |s.calltable| && Consistent(Exited(s, s.numlookup[slot], slot, results))
  {
    hide InstanceOf;
    var t := Exited(s, s.numlookup[slot], slot, results);
    ExitKeepsInverse(s, slot, t);
    assert 0 in t.numlookup && 1 in t.numlookup;
  }

  lemma ExitKeepsInverse(s: Space, slot: nat, t: Space)
    requires Inverse(s) && Labelled(s) && slot in s.numlookup
    requires t.numlookup == s.numlookup - {slot} && t.fnlookup == s.fnlookup - {s.numlookup[slot]}
    ensures Inverse(t)
  {
    hide InstanceOf;
    forall other, name | InstanceOf(name, other) && other in t.numlookup && t.numlookup[other] == name
      ensures name in t.fnlookup && t.fnlookup[name] == other
    {
      if name == s.numlookup[slot] {
        assert slot == other;
      }
    }
    forall other, name | InstanceOf(name, other) && name in t.fnlookup
      ensures t.fnlookup[name] == other && other in t.numlookup && t.numlookup[other] == name
    {
      assert s.numlookup[other] == name;
    }
  }

  lemma MarkKeeps(s: Space, slot: nat, gc: bool, shyness: nat)
    requires Consistent(s) && slot < |s.calltable|
    ensures Consistent(Marked(s, slot, gc, shyness))
  {
    hide InstanceOf;
    var t := Marked(s, slot, gc, shyness);
    assert forall e :: 0 <= e < |s.calltable| ==>
      t.calltable[e].disposable == s.calltable[e].disposable && t.calltable[e].fs == s.calltable[e].fs;
  }

  lemma InstallKeeps(s: Space, slot: nat)
    requires Consistent(s) && slot in s.numlookup && !TaggedSlot(s, slot)
    ensures Consistent(Installed(s, slot))
  {
    hide InstanceOf;
  }

  lemma MoveKeepsSafe(sys: System, e: Event, after: System)
    requires Safe(sys) && May(sys, e) && Owned(sys, e) && Next(sys, e, after)
    ensures Safe(after)
    ensures e.Allocate? ==> e.slot !in sys.live && e.slot !in sys.space.numlookup
  {
    hide Allocates, InstanceOf, Tagged, Askable, Consistent, TaggedSlot;
    match e
    case Allocate(required, cs, slot, name) =>
      HandsOutFree(sys.space, required, cs, after.space, slot, name);
      AllocateKeeps(sys.space, required, cs, after.space, slot, name);
      FirstTwoNamed(sys.space);
    case Start(slot) =>
    case Exit(slot, results) => ExitKeeps(sys.space, slot, results);
    case Mark(slot, gc, shyness) => MarkKeeps(sys.space, slot, gc, shyness);
    case Install(slot) => InstallKeeps(sys.space, slot);
  }

  lemma FirstTwoNamed(s: Space)
    requires Consistent(s)
    ensures 0 in s.numlookup && 1 in s.numlookup
  {
  }

  // ---------------------------------------------------------------- whole runs

  /** Every state such a run reaches is safe. */
  lemma {:induction false} RunStaysSafe(states: seq<System>, events: seq<Event>, i: nat)
    requires IsOwnedRun(states, events) && i < |states|
    ensures Safe(states[i])
    decreases i
  {
    hide Safe, May, Next, Initial, Owned;
    if i == 0 {
      InitialIsSafe(states[0]);
    } else {
      RunStaysSafe(states, events, i - 1);
      MoveKeepsSafe(states[i - 1], events[i - 1], states[i]);
    }
  }

  /**
    In every such run, whatever the order of the moves: a slot handed out while a call runs is not
    that call's slot, and the call ends by dropping its own slot.
   */
  lemma RunningSlotIsNeverHandedOut(states: seq<System>, events: seq<Event>, i: nat, running: nat)
    requires IsOwnedRun(states, events) && i < |events| && running in states[i].live
    ensures events[i].Allocate? ==> events[i].slot != running && running in states[i + 1].live
    ensures running in states[i].started ==> states[i].started[running].ifs == running
  {
    hide TaggedSlot, OwnsName, Consistent, Allocates, Initial, May, Owned, Askable;
    RunStaysSafe(states, events, i);
    MoveKeepsSafe(states[i], events[i], states[i + 1]);
  }

  /** Runs in which only calls under instance names start are such runs. */
  lemma {:induction false} InstanceRunsAreOwned(states: seq<System>, events: seq<Event>, n: nat)
    requires IsRun(states, events) && n <= |events|
    requires forall i :: 0 <= i < n && events[i].Start? ==> TaggedSlot(states[i].space, events[i].slot)
    ensures Safe(states[n]) && forall i :: 0 <= i < n ==> Owned(states[i], events[i])
    decreases n
  {
    hide Safe, May, Next, Initial, TaggedSlot, OwnsName;
    if n == 0 {
      InitialIsSafe(states[0]);
    } else {
      InstanceRunsAreOwned(states, events, n - 1);
      if events[n - 1].Start? {
        SafeIsConsistent(states[n - 1]);
        TaggedOwnsName(states[n - 1].space, events[n - 1].slot);
      }
      MoveKeepsSafe(states[n - 1], events[n - 1], states[n]);
    }
  }

  lemma SafeIsConsistent(sys: System)
    requires Safe(sys)
    ensures Consistent(sys.space)
  {
    hide Consistent;
  }

  /** In every reachable state the two lookups are inverse on instance names. */
  lemma LookupsStayInverse(states: seq<System>, events: seq<Event>, i: nat, slot: nat, name: string)
    requires IsOwnedRun(states, events) && i < |states| && InstanceOf(name, slot)
    ensures var s := states[i].space;
      (slot in s.numlookup && s.numlookup[slot] == name) <==> (name in s.fnlookup && s.fnlookup[name] == slot)
  {
    hide InstanceOf, IsOwnedRun;
    RunStaysSafe(states, events, i);
  }

  // ---------------------------------------------------------------- results

  /** The results a call leaves behind stay in its entry for as long as its slot is not handed out. */
  lemma {:induction false} ResultsLast(states: seq<System>, events: seq<Event>, i: nat, j: nat, results: int)
    requires IsOwnedRun(states, events) && i < j < |states|
    requires events[i].Exit? && events[i].results == Some(results)
    requires forall k :: i < k < j ==> !(events[k].Allocate? && events[k].slot == events[i].slot)
    ensures Waiting(states[j], events[i].slot, results)
    decreases j
  {
    hide Safe, May, Next, Initial, Waiting, Owned;
    RunStaysSafe(states, events, j - 1);
    if j == i + 1 {
      ExitLeaves(states[i], events[i], states[j], results);
    } else {
      ResultsLast(states, events, i, j - 1, results);
      MoveKeepsResults(states[j - 1], events[j - 1], states[j], events[i].slot, results);
    }
  }

  /** The slot is released and its entry holds these results. */
  ghost predicate Waiting(sys: System, slot: nat, results: int) {
    slot !in sys.live && slot < |sys.space.calltable| && sys.space.calltable[slot].retvals == Some(results)
  }

  lemma ExitLeaves(sys: System, e: Event, after: System, results: int)
    requires Safe(sys) && Next(sys, e, after) && e.Exit? && e.results == Some(results)
    ensures Waiting(after, e.slot, results)
  {
    hide InstanceOf, Consistent;
  }

  lemma MoveKeepsResults(sys: System, e: Event, after: System, slot: nat, results: int)
    requires Safe(sys) && May(sys, e) && Next(sys, e, after) && Waiting(sys, slot, results)
    requires !(e.Allocate? && e.slot == slot)
    ensures Waiting(after, slot, results)
  {
    hide InstanceOf, Consistent, Allocates, Tagged, Askable, TaggedSlot;
    SafeIsConsistent(sys);
    match e
    case Allocate(required, cs, other, name) =>
      ConsistentIsSized(sys.space);
      TableAfter(sys.space, required, cs, after.space, other, name);
    case Start(other) =>
    case Exit(other, more) =>
    case Mark(other, gc, shyness) =>
    case Install(other) =>
  }

  lemma ConsistentIsSized(s: Space)
    requires Consistent(s)
    ensures Sized(s)
  {
    hide Sized;
  }

  /** The search from where the cursor stands meets no free slot before this one. */
  ghost predicate NextInLine(s: Space, slot: nat) {
    exists k: nat :: Nth(s.globseq, k) == slot && SettlesAfter(s.numlookup, s.globseq, k)
  }

  /** It is no time to look for reusable entries, or none is due. */
  ghost predicate NoneDue(s: Space)
    requires s.globseq <= |s.calltable|
  {
    s.globseq % DISPOSAL_FREQ != 0 || forall e :: 0 <= e < s.globseq ==> !Due(s.calltable[e])
  }

  /** It is time to look for reusable entries, and this is the first that is due. */
  ghost predicate FirstDue(s: Space, slot: nat)
    requires s.globseq <= |s.calltable|
  {
    && s.globseq % DISPOSAL_FREQ == 0 && slot < s.globseq && Due(s.calltable[slot])
    && forall e :: 0 <= e < slot ==> !Due(s.calltable[e])
  }

  /**
    Exactly when the results left in a released slot are lost: the next allocation, by anyone,
    takes the slot if and only if its entry is the first that is due for reuse, or none is due and
    the slot is the first free one from the cursor on. Before the caller has marked the slot only
    the second can be. Being prepared, the allocation replaces the results.
   */
  lemma ResultsLostIff(s: Space, slot: nat, required: string, cs: CallS, t: Space, next: nat, name: string)
    requires Consistent(s) && slot < |s.calltable| && slot !in s.numlookup
    requires Allocates(s, required, cs, t, next, name)
    ensures next == slot <==> FirstDue(s, slot) || (NoneDue(s) && NextInLine(s, slot))
    ensures !s.calltable[slot].gc ==> !FirstDue(s, slot)
    ensures next == slot && cs.prepared ==> slot < |t.calltable| && t.calltable[slot].retvals == cs.retvals
    ensures next != slot ==> slot < |t.calltable| && t.calltable[slot].retvals == s.calltable[slot].retvals
  {
    hide InstanceOf, Grown, Tagged, Inverse, Labelled, Nth;
    ConsistentIsSized(s);
    TableAfter(s, required, cs, t, next, name);
    var stop: nat, k: nat, table: seq<CallS> :| AllocatesBy(s, required, cs, t, next, name, stop, k, table);
    FirstIsNotDue(s);
    if NextInLine(s, slot) {
      var j: nat :| Nth(s.globseq, j) == slot && SettlesAfter(s.numlookup, s.globseq, j);
      SettlesOnce(s.numlookup, s.globseq, k, j);
    }
    NothingDueIff(s, stop);
    if next == slot && cs.prepared {
      HandedOutPrepared(s, required, cs, t, next, name);
    }
  }

  /** The entry of slot 0 is never released. */
  lemma FirstIsNotDue(s: Space)
    requires Consistent(s)
    ensures !Due(s.calltable[0])
  {
  }

  lemma NothingDueIff(s: Space, stop: nat)
    requires s.globseq < |s.calltable| && !Due(s.calltable[0]) && SweepsTo(s, stop)
    ensures NoneDue(s) <==> !(0 < stop < s.globseq)
    ensures forall slot: nat :: FirstDue(s, slot) <==> stop == slot && 0 < stop < s.globseq
  {
  }

  lemma HandedOutPrepared(s: Space, required: string, cs: CallS, t: Space, slot: nat, name: string)
    requires Allocates(s, required, cs, t, slot, name) && cs.prepared
    ensures slot < |t.calltable| && t.calltable[slot].retvals == cs.retvals
  {
    hide Grown, Nth, Tagged;
    var stop: nat, k: nat, table: seq<CallS> :| AllocatesBy(s, required, cs, t, slot, name, stop, k, table);
  }

  // ---------------------------------------------------------------- whose slot a call believes it has

  /** The move gives the name out, or drops it. */
  ghost predicate Renames(sys: System, e: Event, name: string) {
    match e
    case Allocate(_, _, _, given) => given == name
    case Exit(slot, _) => slot in sys.started && sys.started[slot].fs == name
    case _ => false
  }

  /**
    Exactly when a call that starts believes itself in its own slot: when since it was given its
    slot nobody has been given the same name, and no call of that name has ended.
   */
  lemma {:induction false} BelievesOwnIff(states: seq<System>, events: seq<Event>, i: nat, j: nat)
    requires IsOwnedRun(states, events) && i < j < |states| && events[i].Allocate?
    requires forall k :: i < k < j ==> !(events[k].Exit? && events[k].slot == events[i].slot)
    ensures var (s, slot, name) := (states[j].space, events[i].slot, events[i].name);
      && slot in states[j].live && slot < |s.calltable|
      && (StandsFor(s, name, slot) <==> forall k :: i < k < j ==> !Renames(states[k], events[k], name))
      && (s.calltable[slot].fs == name ==> (Believed(s, slot) == slot <==> StandsFor(s, name, slot)))
    decreases j
  {
    hide Safe, May, Next, Initial, Owned, StandsFor, Renames, Believed;
    RunStaysSafe(states, events, j - 1);
    RunStaysSafe(states, events, j);
    if j == i + 1 {
      GivenStands(states[i], events[i], states[j]);
    } else {
      BelievesOwnIff(states, events, i, j - 1);
      StandsAfter(states[j - 1], events[j - 1], states[j], events[i].slot, events[i].name);
    }
    BeliefOf(states[j], events[i].slot, events[i].name);
  }

  /** The name is looked up to the slot. */
  ghost predicate StandsFor(s: Space, name: string, slot: nat) { name in s.fnlookup && s.fnlookup[name] == slot }

  lemma GivenStands(sys: System, e: Event, after: System)
    requires Safe(sys) && Next(sys, e, after) && e.Allocate?
    ensures e.slot in after.live && StandsFor(after.space, e.name, e.slot)
  {
    hide Consistent, Allocates;
    SafeIsConsistent(sys);
    HandsOutFree(sys.space, e.required, e.cs, after.space, e.slot, e.name);
  }

  lemma StandsAfter(sys: System, e: Event, after: System, slot: nat, name: string)
    requires Safe(sys) && Next(sys, e, after) && slot in sys.live && !(e.Exit? && e.slot == slot)
    ensures slot in after.live
    ensures StandsFor(after.space, name, slot) <==> StandsFor(sys.space, name, slot) && !Renames(sys, e, name)
  {
    hide Consistent, Allocates;
    SafeIsConsistent(sys);
    if e.Allocate? {
      HandsOutFree(sys.space, e.required, e.cs, after.space, e.slot, e.name);
    }
  }

  lemma BeliefOf(sys: System, slot: nat, name: string)
    requires Safe(sys) && slot in sys.live
    ensures slot < |sys.space.calltable|
    ensures sys.space.calltable[slot].fs == name ==>
      (Believed(sys.space, slot) == slot <==> StandsFor(sys.space, name, slot))
  {
    hide Inverse, Labelled, ReleasedUnregistered;
  }

  // ---------------------------------------------------------------- runs from start-up

  function Prepared(): CallS { EMPTY.(prepared := true) }

  /** The system once the cursor has come to a slot and a prepared call has been given it. */
  function Given(sys: System, slot: nat, name: string): System
    requires slot < |sys.space.calltable|
  {
    System(Space(slot, sys.space.calltable[slot := Prepared().(fs := name)],
                 sys.space.numlookup[slot := name], sys.space.fnlookup[name := slot]),
           sys.live + {slot}, sys.started - {slot})
  }

  /** From a state whose cursor is about to find this slot free, with no entry due. */
  lemma Takes(sys: System, required: string, slot: nat)
    requires |required| > 0 && |sys.space.calltable| == CALL_CAP && 2 <= slot < 10 && slot !in sys.space.numlookup
    requires sys.space.globseq == 0 || 2 <= sys.space.globseq <= slot
    requires sys.space.globseq == 0 ==> slot == 2 && 0 in sys.space.numlookup && 1 in sys.space.numlookup
    requires forall e :: 2 <= sys.space.globseq <= e < slot ==> e in sys.space.numlookup
    ensures Next(sys, Allocate(required, Prepared(), slot, Tagged(required, slot)),
                 Given(sys, slot, Tagged(required, slot)))
  {
    hide Tagged, Nth;
    var s, t := sys.space, Given(sys, slot, Tagged(required, slot)).space;
    var k: nat := slot - s.globseq;
    forall j | 0 <= j <= k
      ensures Nth(s.globseq, j) == s.globseq + j
    {
      NthStraight(s.globseq, j);
    }
    assert SettlesAfter(s.numlookup, s.globseq, k);
    assert AllocatesBy(s, required, Prepared(), t, slot, Tagged(required, slot), s.globseq, k, s.calltable);
  }

  /** The system once the call in a slot has started, believing another or the same slot its own. */
  function Begun(sys: System, slot: nat, fs: string, ifs: nat): System {
    sys.(started := sys.started[slot := Belief(fs, ifs)])
  }

  /**
    From start-up: a call gets slot 2, runs and ends, leaving its results; before its caller has
    marked the slot another call is given it, and the results are gone.
   */
  lemma ResultsLostFromStartUp(start: System, results: int) returns (states: seq<System>, events: seq<Event>)
    requires Initial(start)
    ensures |events| == 4 && |states| == 5 && IsOwnedRun(states, events)
    ensures events[2] == Exit(2, Some(results))
    ensures |states[3].space.calltable| > 2 && states[3].space.calltable[2].retvals == Some(results)
    ensures events[3].Allocate? && events[3].slot == 2 && |states[4].space.calltable| > 2
    ensures states[4].space.calltable[2].retvals == None
  {
    hide Allocates, Tagged, Digits, InstanceOf, Consistent;
    var name, other := Tagged("f@", 2), Tagged("g@", 2);
    Takes(start, "f@", 2);
    var held := Given(start, 2, name);
    var begun := Begun(held, 2, name, 2);
    var left := System(Exited(begun.space, name, 2, Some(results)), begun.live - {2}, begun.started - {2});
    assert left.space.numlookup == start.space.numlookup;
    Takes(left, "g@", 2);
    states := [start, held, begun, left, Given(left, 2, other)];
    events := [Allocate("f@", Prepared(), 2, name), Start(2), Exit(2, Some(results)),
               Allocate("g@", Prepared(), 2, other)];
  }

  /**
    From start-up: two calls are given slots under one plain name before either starts. The first
    then believes itself in the slot of the second, drops that as it ends, and the slot is given to
    a third call while the second still runs there.
   */
  lemma PlainNameFreesAnother(start: System) returns (states: seq<System>, events: seq<Event>)
    requires Initial(start)
    ensures |events| == 6 && |states| == 7 && IsRun(states, events)
    ensures events[2] == Start(2) && 2 in states[3].started && states[3].started[2].ifs == 3
    ensures !Owned(states[2], events[2]) && (forall k :: 0 <= k < 6 && k != 2 ==> Owned(states[k], events[k]))
    ensures events[3] == Start(3) && events[5].Allocate? && events[5].slot == 3 && 3 in states[5].started
  {
    hide Allocates, Digits, InstanceOf, Consistent;
    var other := Tagged("g@", 3);
    PlainName("m");
    Takes(start, "m", 2);
    var first := Given(start, 2, "m");
    Takes(first, "m", 3);
    var second := Given(first, 3, "m");
    var third := Begun(second, 2, "m", 3);
    var fourth := Begun(third, 3, "m", 3);
    var fifth := System(Exited(fourth.space, "m", 3, None), fourth.live - {2}, fourth.started - {2});
    Takes(fifth, "g@", 3);
    states := [start, first, second, third, fourth, fifth, Given(fifth, 3, other)];
    events := [Allocate("m", Prepared(), 2, "m"), Allocate("m", Prepared(), 3, "m"), Start(2), Start(3), Exit(2, None),
               Allocate("g@", Prepared(), 3, other)];
  }

  // ---------------------------------------------------------------- plain names

  /**
    Asking twice for a plain name, as a redefinition does, leaves the first slot under a name looked up to
    the second.
   */
  lemma PlainNamesDiverge(s: Space, first: nat, required: string, cs: CallS, t: Space, slot: nat, name: string)
    requires Consistent(s) && first in s.numlookup && s.numlookup[first] == required
    requires Allocates(s, required, cs, t, slot, name) && required[|required| - 1] != '@'
    ensures first in t.numlookup && t.numlookup[first] == required && t.fnlookup[required] == slot != first
  {
    hide Allocates, Consistent;
    HandsOutFree(s, required, cs, t, slot, name);
  }

  /** The two lookups are inverse at a name. */
  ghost predicate InverseAt(s: Space, name: string) {
    && (forall slot :: slot in s.numlookup && s.numlookup[slot] == name ==>
          name in s.fnlookup && s.fnlookup[name] == slot)
    && (name in s.fnlookup ==> s.fnlookup[name] in s.numlookup && s.numlookup[s.fnlookup[name]] == name)
  }

  /** Exactly when giving out a plain name leaves the lookups inverse at it: no slot holds the name yet. */
  lemma PlainNameKeepsInverseIff(s: Space, required: string, cs: CallS, t: Space, slot: nat, name: string)
    requires Consistent(s) && Allocates(s, required, cs, t, slot, name) && required[|required| - 1] != '@'
    ensures InverseAt(t, required) <==> forall held :: held in s.numlookup ==> s.numlookup[held] != required
  {
    hide Allocates, Consistent;
    HandsOutFree(s, required, cs, t, slot, name);
    forall held | held in s.numlookup
      ensures held in t.numlookup && t.numlookup[held] == s.numlookup[held]
    {
      assert held != slot;
    }
  }

  /** An allocation has one outcome. */
  lemma AllocateIsDetermined(s: Space, required: string, cs: CallS, t: Space, slot: nat, name: string,
                             u: Space, other: nat, called: string)
    requires Allocates(s, required, cs, t, slot, name) && Allocates(s, required, cs, u, other, called)
    ensures t == u && slot == other && name == called
  {
    hide Nth, Grown, Tagged;
    var stop: nat, k: nat, table: seq<CallS> :| AllocatesBy(s, required, cs, t, slot, name, stop, k, table);
    var stop': nat, k': nat, table': seq<CallS> :| AllocatesBy(s, required, cs, u, other, called, stop', k', table');
    assert k == k' by {
      hide AllocatesBy;
      SettlesOnce(s.numlookup, s.globseq, k, k');
    }
    assert stop == stop';
    assert table == table';
  }

  lemma SettlesOnce(numlookup: map<nat, string>, g: nat, k: nat, j: nat)
    requires SettlesAfter(numlookup, g, k) && SettlesAfter(numlookup, g, j)
    ensures k == j
  {
    hide Nth;
  }
}
