/**
  The space that running calls live in: a table of call entries, the number of the last slot
  found free, and two lookups between slots and names. Its moves are relations on values,
  so that they can be put in any order.
 */
module CallSpace {
  import opened Phrases

  const GNFS_MODULUS := 48000
  const DISPOSAL_FREQ := 64
  const CALL_CAP := 200

  datatype CallS = CallS(fs: string, gc: bool, disposable: bool, gcShyness: nat, prepared: bool, retvals: Option<int>)

  const EMPTY := CallS("", false, false, 0, false, None)

  datatype Space = Space(globseq: nat, calltable: seq<CallS>, numlookup: map<nat, string>, fnlookup: map<string, nat>)

  // ---------------------------------------------------------------- names

  function Digits(n: nat): (s: string)
    ensures |s| > 0 && forall c :: c in s ==> '0' <= c <= '9'
  {
    var last := [('0' as int + n % 10) as char];
    if n < 10 then last else Digits(n / 10) + last
  }

  lemma {:induction false} DigitsInjective(m: nat, n: nat)
    requires Digits(m) == Digits(n)
    ensures m == n
    decreases m + n
  {
    var dm, dn := Digits(m), Digits(n);
    assert dm[|dm| - 1] == ('0' as int + m % 10) as char;
    assert dn[|dn| - 1] == ('0' as int + n % 10) as char;
    if m >= 10 && n >= 10 {
      assert dm[..|dm| - 1] == Digits(m / 10) && dn[..|dn| - 1] == Digits(n / 10);
      DigitsInjective(m / 10, n / 10);
    }
  }

  /** What a run of decimal digits reads as. */
  function Decimal(s: string): nat
    requires forall i :: 0 <= i < |s| ==> '0' <= s[i] <= '9'
  {
    if s == [] then 0 else Decimal(s[..|s| - 1]) * 10 + (s[|s| - 1] as int - '0' as int)
  }

  /** s is n in decimal, without leading zeros. */
  predicate Numeral(s: string, n: nat) {
    && |s| > 0 && (forall i :: 0 <= i < |s| ==> '0' <= s[i] <= '9') && Decimal(s) == n
    && (|s| > 1 ==> s[0] != '0')
  }

  lemma {:induction false} DigitsRead(n: nat)
    ensures Numeral(Digits(n), n) && (n > 0 ==> Digits(n)[0] != '0')
    decreases n
  {
    var d := Digits(n);
    assert d[|d| - 1] == ('0' as int + n % 10) as char;
    if n >= 10 {
      DigitsRead(n / 10);
      assert d[..|d| - 1] == Digits(n / 10);
      assert d[0] == Digits(n / 10)[0];
    } else {
      assert d[..|d| - 1] == [];
    }
  }

  /** A name given for a name asked for: the same, or if that ends in @ with the slot's number behind it. */
  predicate NamedFor(name: string, required: string, slot: nat) {
    && required <= name
    && if |required| > 0 && required[|required| - 1] == '@' then Numeral(name[|required|..], slot) else name == required
  }

  lemma TaggedIsNamedFor(required: string, slot: nat)
    requires |required| > 0
    ensures NamedFor(Tagged(required, slot), required, slot)
  {
    DigitsRead(slot);
    assert (required + Digits(slot))[|required|..] == Digits(slot);
  }

  /** A name ending in @ is tagged with the slot it is given. */
  function Tagged(required: string, slot: nat): string
    requires |required| > 0
  {
    if required[|required| - 1] == '@' then required + Digits(slot) else required
  }

  /** The name is some base, an @ and the slot's number. */
  predicate InstanceOf(name: string, slot: nat) {
    var tag := Digits(slot);
    |name| > |tag| && name[|name| - |tag| - 1] == '@' && name[|name| - |tag|..] == tag
  }

  lemma TaggedIsInstance(required: string, slot: nat)
    requires |required| > 0 && required[|required| - 1] == '@'
    ensures InstanceOf(Tagged(required, slot), slot)
  {
    var name, tag := required + Digits(slot), Digits(slot);
    assert name[|required|..] == tag;
    assert name[|required| - 1] == required[|required| - 1];
  }

  lemma TagHasNoAt(name: string, slot: nat, i: nat)
    requires InstanceOf(name, slot) && |name| - |Digits(slot)| <= i < |name|
    ensures name[i] != '@'
  {
    var tag := Digits(slot);
    assert name[i] == tag[i - (|name| - |tag|)];
    assert name[i] in tag;
  }

  /** A name says one slot only: what follows its last @ cannot be read two ways. */
  lemma InstanceOfOne(name: string, a: nat, b: nat)
    requires InstanceOf(name, a) && InstanceOf(name, b)
    ensures a == b
  {
    hide Digits;
    var m, n := |name| - |Digits(a)|, |name| - |Digits(b)|;
    if m <= n - 1 {
      TagHasNoAt(name, a, n - 1);
    }
    if n <= m - 1 {
      TagHasNoAt(name, b, m - 1);
    }
    DigitsInjective(a, b);
  }

  /** A name callers may ask for: tagged on demand, or nothing like a tagged one. */
  ghost predicate Askable(required: string) {
    |required| > 0 && (required[|required| - 1] != '@' ==> forall slot :: !InstanceOf(required, slot))
  }

  // ---------------------------------------------------------------- delayed reuse

  /** An entry marked and released whose patience runs out at this look. */
  predicate Due(c: CallS) { c.gc && c.disposable && c.gcShyness <= 1 }

  function Tick(c: CallS): CallS {
    if c.gc && c.disposable && c.gcShyness > 0 then c.(gcShyness := c.gcShyness - 1) else c
  }

  /** stop is the first due entry below globseq, or globseq if there is none or it is no time to look. */
  ghost predicate SweepsTo(s: Space, stop: nat)
    requires s.globseq <= |s.calltable|
  {
    if s.globseq % DISPOSAL_FREQ != 0 then stop == s.globseq
    else
      && stop <= s.globseq
      && (forall e :: 0 <= e < stop ==> !Due(s.calltable[e]))
      && (stop < s.globseq ==> Due(s.calltable[stop]))
  }

  /** The table after the look: every entry looked at has waited one turn more. */
  ghost predicate Swept(s: Space, stop: nat, table: seq<CallS>)
    requires s.globseq <= |s.calltable|
  {
    |table| == |s.calltable| &&
    forall e :: 0 <= e < |table| ==>
      table[e] ==
        if s.globseq % DISPOSAL_FREQ == 0 && e <= stop && e < s.globseq then Tick(s.calltable[e]) else s.calltable[e]
  }

  // ---------------------------------------------------------------- the free-slot search

  function Advance(g: nat): nat { if (g + 1) % GNFS_MODULUS == 0 then 2 else (g + 1) % GNFS_MODULUS }

  /** The slot the search looks at after k moves from g. */
  function Nth(g: nat, k: nat): nat { if k == 0 then g else Advance(Nth(g, k - 1)) }

  /** The search from g settles after k moves: the first slot it meets that has no name. */
  ghost predicate SettlesAfter(numlookup: map<nat, string>, g: nat, k: nat) {
    Nth(g, k) !in numlookup && forall j :: 0 <= j < k ==> Nth(g, j) in numlookup
  }

  predicate HasFree(numlookup: map<nat, string>) { exists t :: 2 <= t < GNFS_MODULUS && t !in numlookup }

  lemma {:induction false} NthStraight(g: nat, k: nat)
    requires g + k < GNFS_MODULUS
    ensures Nth(g, k) == g + k
    decreases k
  {
    if k > 0 {
      NthStraight(g, k - 1);
    }
  }

  lemma {:induction false} NthAdds(g: nat, a: nat, b: nat)
    ensures Nth(g, a + b) == Nth(Nth(g, a), b)
    decreases b
  {
    if b > 0 {
      NthAdds(g, a, b - 1);
    }
  }

  lemma {:induction false} NthInRange(g: nat, k: nat)
    requires g < GNFS_MODULUS
    ensures Nth(g, k) < GNFS_MODULUS && (k > 0 ==> Nth(g, k) >= 1) && (Nth(g, k) < 2 ==> g < 2 && k < 2)
    decreases k
  {
    if k > 0 {
      NthInRange(g, k - 1);
    }
  }

  /** From anywhere the search comes past every slot from 2 up, within two turns of the table. */
  lemma NthReaches(g: nat, t: nat) returns (k: nat)
    requires g < GNFS_MODULUS && 2 <= t < GNFS_MODULUS
    ensures Nth(g, k) == t
  {
    if g <= t {
      k := t - g;
      NthStraight(g, k);
    } else {
      var turn := GNFS_MODULUS - g;
      NthStraight(g, turn - 1);
      assert Nth(g, turn) == 2;
      k := turn + (t - 2);
      NthAdds(g, turn, t - 2);
      NthStraight(2, t - 2);
    }
  }

  lemma {:induction false} FirstFree(numlookup: map<nat, string>, g: nat, k: nat) returns (first: nat)
    requires Nth(g, k) !in numlookup
    ensures first <= k && SettlesAfter(numlookup, g, first)
  {
    first := 0;
    while Nth(g, first) in numlookup
      invariant first <= k
      invariant forall j :: 0 <= j < first ==> Nth(g, j) in numlookup
      decreases k - first
    {
      if first == k {
        assert false;
      }
      first := first + 1;
    }
  }

  /** The search ends exactly when some slot from 2 up is free, whatever slot it starts from. */
  lemma SearchEndsIffFree(numlookup: map<nat, string>, g: nat)
    requires g < GNFS_MODULUS && 0 in numlookup && 1 in numlookup
    ensures (exists k :: SettlesAfter(numlookup, g, k)) <==> HasFree(numlookup)
  {
    hide Nth, Advance;
    if HasFree(numlookup) {
      var t :| 2 <= t < GNFS_MODULUS && t !in numlookup;
      var k := NthReaches(g, t);
      var first := FirstFree(numlookup, g, k);
    }
    if k :| SettlesAfter(numlookup, g, k) {
      NthInRange(g, k);
    }
  }

  // ---------------------------------------------------------------- growth

  /** The table doubled until it has a slot of the given number. */
  function Grown(table: seq<CallS>, slot: nat): (r: seq<CallS>)
    requires |table| > 0
    ensures |r| > slot && table <= r
    ensures slot < |table| ==> r == table
    ensures slot >= |table| ==> |r| <= 2 * slot
    ensures forall e :: |table| <= e < |r| ==> r[e] == EMPTY
    decreases slot - |table|
  {
    if slot < |table| then table else Grown(table + seq(|table|, _ => EMPTY), slot)
  }

  /** What Grown promises, for proofs that hide it. */
  lemma GrownKeeps(table: seq<CallS>, slot: nat)
    requires |table| > 0
    ensures var r := Grown(table, slot);
      && |r| > slot && |r| >= |table| && (slot < |table| ==> r == table) && (slot >= |table| ==> |r| <= 2 * slot)
      && (forall e :: 0 <= e < |table| ==> r[e] == table[e])
      && (forall e :: |table| <= e < |r| ==> r[e] == EMPTY)
  {
  }

  // ---------------------------------------------------------------- the moves

  /** What is written into the slot handed out. */
  function Entry(was: CallS, name: string, cs: CallS): CallS {
    if cs.prepared then cs.(fs := name, disposable := false) else was.(gc := false, disposable := false, gcShyness := 0)
  }

  /** GetNextFnSpace: from s to t, handing out slot under name. */
  ghost predicate Allocates(s: Space, required: string, cs: CallS, t: Space, slot: nat, name: string) {
    exists stop, k, table :: AllocatesBy(s, required, cs, t, slot, name, stop, k, table)
  }

  ghost predicate AllocatesBy(s: Space, required: string, cs: CallS, t: Space, slot: nat, name: string,
                              stop: nat, k: nat, table: seq<CallS>)
  {
    && |required| > 0 && s.globseq < |s.calltable|
    && SweepsTo(s, stop) && Swept(s, stop, table) && SettlesAfter(s.numlookup, s.globseq, k)
    && var g := Nth(s.globseq, k);
       && slot == (if 0 < stop < s.globseq then stop else g)
       && name == Tagged(required, slot)
       && slot < |Grown(table, g)|
       && t == Space(g, Grown(table, g)[slot := Entry(Grown(table, g)[slot], name, cs)],
                     s.numlookup[slot := name], s.fnlookup[name := slot])
  }

  /** The slot a call believes it runs in: the one its entry's name is looked up to as it starts. */
  function Believed(s: Space, slot: nat): nat
    requires slot < |s.calltable|
  {
    var fs := s.calltable[slot].fs;
    if fs in s.fnlookup then s.fnlookup[fs] else 0
  }

  /** The end of a call that took its name and its slot to be these: its results are left there and both are dropped. */
  function Exited(s: Space, fs: string, ifs: nat, results: Option<int>): Space
    requires ifs < |s.calltable|
  {
    var c := s.calltable[ifs];
    s.(calltable := s.calltable[ifs := c.(retvals := if results.Some? then results else c.retvals, disposable := true)],
       numlookup := s.numlookup - {ifs},
       fnlookup := s.fnlookup - {fs})
  }

  /** The caller has its results: the entry may be used again once others have had their turn. */
  function Marked(s: Space, slot: nat, gc: bool, shyness: nat): Space
    requires slot < |s.calltable|
  {
    s.(calltable := s.calltable[slot := s.calltable[slot].(gc := gc, gcShyness := shyness)])
  }

  /** The entry of a slot handed out unprepared is filled in by the caller. */
  function Installed(s: Space, slot: nat): Space
    requires slot < |s.calltable| && slot in s.numlookup
  {
    s.(calltable := s.calltable[slot := EMPTY.(fs := s.numlookup[slot])])
  }

  // ---------------------------------------------------------------- the invariant

  /** Every released entry is unregistered, so what is registered is never due for reuse. */
  ghost predicate ReleasedUnregistered(s: Space) {
    forall e :: 0 <= e < |s.calltable| && s.calltable[e].disposable ==> e !in s.numlookup
  }

  /** On instance names the two lookups are inverse. */
  ghost predicate Inverse(s: Space) {
    && (forall slot, name :: InstanceOf(name, slot) && slot in s.numlookup && s.numlookup[slot] == name
          ==> name in s.fnlookup && s.fnlookup[name] == slot)
    && (forall slot, name :: InstanceOf(name, slot) && name in s.fnlookup
          ==> s.fnlookup[name] == slot && slot in s.numlookup && s.numlookup[slot] == name)
  }

  /** An instance name is only ever held by the slot it names, and that slot's entry carries it. */
  ghost predicate Labelled(s: Space) {
    forall slot, tag :: slot in s.numlookup && InstanceOf(s.numlookup[slot], tag)
      ==> tag == slot && slot < |s.calltable| && s.calltable[slot].fs == s.numlookup[slot]
  }

  ghost predicate Sized(s: Space) {
    && s.globseq < GNFS_MODULUS && s.globseq < |s.calltable| && CALL_CAP <= |s.calltable| <= 2 * GNFS_MODULUS
    && 0 in s.numlookup && 1 in s.numlookup
    && forall slot :: slot in s.numlookup ==> slot < |s.calltable|
  }

  ghost predicate Consistent(s: Space) { Sized(s) && ReleasedUnregistered(s) && Inverse(s) && Labelled(s) }
}
