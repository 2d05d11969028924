/** The allocator as it runs: two concurrent maps, a table that grows, and a cursor. */
module Allocator {
  import opened Phrases
  import opened CallSpace

  /** From slots to names. */
  class Nmap {
    var m: map<nat, string>

    constructor ()
      ensures m == map[]
    {
      m := map[];
    }

    method Exists(k: nat) returns (found: bool)
      ensures found <==> k in m
    {
      found := k in m;
    }

    method Set(k: nat, v: string)
      modifies this
      ensures m == old(m)[k := v]
    {
      m := m[k := v];
    }

    method Get(k: nat) returns (v: string, found: bool)
      ensures found <==> k in m
      ensures v == if k in m then m[k] else ""
    {
      if k in m {
        return m[k], true;
      }
      return "", false;
    }

    method Delete(k: nat) returns (loaded: bool)
      modifies this
      ensures m == old(m) - {k} && (loaded <==> k in old(m))
    {
      loaded := k in m;
      m := m - {k};
    }
  }

  /** From names to slots. */
  class Lmap {
    var m: map<string, nat>

    constructor ()
      ensures m == map[]
    {
      m := map[];
    }

    method Exists(k: string) returns (found: bool)
      ensures found <==> k in m
    {
      found := k in m;
    }

    method Set(k: string, v: nat)
      modifies this
      ensures m == old(m)[k := v]
    {
      m := m[k := v];
    }

    method Get(k: string) returns (v: nat, found: bool)
      ensures found <==> k in m
      ensures v == if k in m then m[k] else 0
    {
      if k in m {
        return m[k], true;
      }
      return 0, false;
    }

    method Delete(k: string) returns (loaded: bool)
      modifies this
      ensures m == old(m) - {k} && (loaded <==> k in old(m))
    {
      loaded := k in m;
      m := m - {k};
    }
  }

  class FnSpaces {
    var globseq: nat
    var calltable: array<CallS>
    const numlookup: Nmap
    const fnlookup: Lmap

    constructor ()
      ensures Valid() && fresh(numlookup) && fresh(fnlookup) && fresh(calltable)
      ensures State() ==
        Space(0, seq(CALL_CAP, _ => EMPTY), map[0 := "global", 1 := "main"], map["global" := 0, "main" := 1])
    {
      globseq := 0;
      calltable := new CallS[CALL_CAP](_ => EMPTY);
      numlookup := new Nmap();
      fnlookup := new Lmap();
      new;
      fnlookup.Set("global", 0);
      fnlookup.Set("main", 1);
      numlookup.Set(0, "global");
      numlookup.Set(1, "main");
    }

    ghost function State(): Space
      reads this, calltable, numlookup, fnlookup
    {
      Space(globseq, calltable[..], numlookup.m, fnlookup.m)
    }

    ghost predicate Valid()
      reads this, calltable, numlookup, fnlookup
    {
      Sized(State())
    }

    /** Looks for an entry to use again, now and then; every one it looks at waits a turn less. */
    method Reusable() returns (reuse: nat, ghost stop: nat)
      requires Valid()
      modifies calltable
      ensures SweepsTo(old(State()), stop) && Swept(old(State()), stop, calltable[..])
      ensures reuse == if stop < globseq then stop else 0
    {
      reuse, stop := 0, globseq;
      if globseq % DISPOSAL_FREQ == 0 {
        ghost var was := old(State());
        var e := 0;
        while e < globseq
          invariant e <= globseq
          invariant forall k :: 0 <= k < e ==> !Due(was.calltable[k]) && calltable[k] == Tick(was.calltable[k])
          invariant forall k :: e <= k < calltable.Length ==> calltable[k] == was.calltable[k]
        {
          if calltable[e].gc && calltable[e].disposable {
            if calltable[e].gcShyness > 0 {
              calltable[e] := calltable[e].(gcShyness := calltable[e].gcShyness - 1);
            }
            if calltable[e].gcShyness == 0 {
              reuse, stop := e, e;
              break;
            }
          }
          e := e + 1;
        }
      }
    }

    /**
      Moves the cursor to the first slot with no name. With every slot named the source would go
      round for ever.
     */
    method FindReservation() returns (ghost moves: nat)
      requires globseq < GNFS_MODULUS && 0 in numlookup.m && 1 in numlookup.m && HasFree(numlookup.m)
      modifies this`globseq
      ensures SettlesAfter(numlookup.m, old(globseq), moves) && globseq == Nth(old(globseq), moves)
    {
      moves := 0;
      SearchEndsIffFree(numlookup.m, globseq);
      ghost var last: nat :| SettlesAfter(numlookup.m, globseq, last);
      var taken := numlookup.Exists(globseq);
      while taken
        invariant globseq == Nth(old(globseq), moves) && moves <= last
        invariant taken <==> globseq in numlookup.m
        invariant forall j :: 0 <= j < moves ==> Nth(old(globseq), j) in numlookup.m
        decreases last - moves
      {
        globseq := (globseq + 1) % GNFS_MODULUS;
        if globseq == 0 {
          globseq := 2;
        }
        moves := moves + 1;
        taken := numlookup.Exists(globseq);
      }
    }

    /** Doubles the table until it covers the cursor; it can never need to outgrow the modulus. */
    method Resize()
      requires globseq < GNFS_MODULUS && calltable.Length > 0
      modifies this`calltable
      ensures calltable[..] == Grown(old(calltable[..]), globseq)
      ensures fresh(calltable) || calltable == old(calltable)
    {
      ghost var goal := Grown(calltable[..], globseq);
      while globseq >= calltable.Length
        invariant calltable.Length > 0 && (fresh(calltable) || calltable == old(calltable))
        invariant Grown(calltable[..], globseq) == goal
        decreases globseq - calltable.Length
      {
        if calltable.Length >= GNFS_MODULUS {
          // "call table overgrown"
          assert false;
        }
        var n, was := calltable.Length, calltable;
        var ncs := new CallS[2 * n](i requires 0 <= i reads was => if i < was.Length then was[i] else EMPTY);
        assert ncs[..] == was[..] + seq(n, _ => EMPTY);
        calltable := ncs;
      }
    }

    /** A slot for a call, a module or a definition, and the name it is registered under. */
    method GetNextFnSpace(requiredName: string, cs: CallS) returns (slot: nat, newName: string)
      requires Valid() && |requiredName| > 0 && HasFree(numlookup.m)
      modifies this, calltable, numlookup, fnlookup
      ensures Allocates(old(State()), requiredName, cs, State(), slot, newName)
      ensures NamedFor(newName, requiredName, slot)
      ensures Valid() && (fresh(calltable) || calltable == old(calltable))
    {
      hide Nth, Grown, Tagged, NamedFor, Entry, SweepsTo, Swept, SettlesAfter;
      ghost var was := State();
      var reuse: nat;
      ghost var stop: nat, k: nat;
      reuse, stop := Reusable();
      ghost var table := calltable[..];
      k := FindReservation();
      GrownKeeps(table, globseq);
      NthInRange(was.globseq, k);
      Resize();
      slot := reuse;
      if slot == 0 {
        slot := globseq;
      }
      newName := Register(slot, requiredName, cs);
      assert AllocatesBy(was, requiredName, cs, State(), slot, newName, stop, k, table);
    }

    /** Writes the entry of the slot handed out and names it in both lookups. */
    method Register(slot: nat, requiredName: string, cs: CallS) returns (newName: string)
      requires slot < calltable.Length && |requiredName| > 0
      modifies calltable, numlookup, fnlookup
      ensures newName == Tagged(requiredName, slot) && NamedFor(newName, requiredName, slot)
      ensures State() == Space(globseq, old(calltable[..])[slot := Entry(old(calltable[slot]), newName, cs)],
                               old(numlookup.m)[slot := newName], old(fnlookup.m)[newName := slot])
    {
      TaggedIsNamedFor(requiredName, slot);
      newName := requiredName;
      if newName[|newName| - 1] == '@' {
        newName := newName + Digits(slot);
      }
      calltable[slot] := calltable[slot].(gc := false, disposable := false, gcShyness := 0);
      numlookup.Set(slot, newName);
      fnlookup.Set(newName, slot);
      if cs.prepared {
        calltable[slot] := cs.(fs := newName, disposable := false);
      }
    }

    /** The start of a call: the name in its entry, and the slot that name is looked up to. */
    method Start(csloc: nat) returns (fs: string, ifs: nat)
      requires csloc < calltable.Length
      ensures fs == State().calltable[csloc].fs && ifs == Believed(State(), csloc)
    {
      fs := calltable[csloc].fs;
      var there;
      ifs, there := fnlookup.Get(fs);
    }

    /**
      The end of a call: results into the entry of the slot it took for its own, which is released, and its
      names dropped.
     */
    method Exit(fs: string, ifs: nat, retvalues: Option<int>)
      requires ifs < calltable.Length
      modifies calltable, numlookup, fnlookup
      ensures State() == Exited(old(State()), fs, ifs, retvalues)
    {
      if retvalues.Some? {
        calltable[ifs] := calltable[ifs].(retvals := retvalues);
      }
      calltable[ifs] := calltable[ifs].(disposable := true);
      var _ := fnlookup.Delete(fs);
      var _ := numlookup.Delete(ifs);
      assert calltable[..] == Exited(old(State()), fs, ifs, retvalues).calltable;
    }

    /** The caller takes the results of a finished call and lets its entry go after a while. */
    method TakeResults(loc: nat) returns (res: Option<int>)
      requires loc < calltable.Length
      modifies calltable
      ensures res == old(State()).calltable[loc].retvals
      ensures State() == Marked(old(State()), loc, true, 100)
    {
      res := calltable[loc].retvals;
      calltable[loc] := calltable[loc].(gcShyness := 100);
      calltable[loc] := calltable[loc].(gc := true);
    }
  }
}
