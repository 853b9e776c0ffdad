/** The event blocks and process lists of the AES: signalling, waiting, cancelling and dispatching.

  Event masks are sets of events. Process and event block numbers stand for their addresses. A state
  machine over these operations describes every run of the system.
 */
module AesKernel {
  import opened Basics

  datatype Event = Keybd | Button | M1 | M2 | M3 | Mesag | Timer | Sdmsg | Mutex

  /** The events of a multiple wait; there are as many event blocks per process. */
  const MULTI: set<Event> := {Keybd, Button, M1, M2, M3, Mesag, Timer}
  const EVBS_PER_PD := 7

  /** An event block: its owner, its event, and whether it is complete. */
  datatype Evb = Evb(pd: nat, mask: Event, complete: bool)

  /** What a process is doing: nothing with events, asking for them one by one, or in a wait for them. */
  datatype Phase = User | Asking(asked: set<Event>) | InWait(mask: set<Event>)

  datatype Pd = Pd(evwait: set<Event>, evflg: set<Event>, waitin: bool, evlist: seq<nat>, phase: Phase)

  /** The ready list (its head is the current process unless the dispatcher is running), the list of
      processes on the way to it, the not-ready list and the free event blocks. */
  datatype State = State(rlr: seq<nat>, drl: seq<nat>, nrl: seq<nat>, eul: seq<nat>, pds: seq<Pd>, evbs: seq<Evb>, dispatching: bool)

  lemma PushKeeps(s: seq<nat>, x: nat)
    requires NoDups(s) && x !in s
    ensures NoDups([x] + s) && NoDups(s + [x])
  {
  }

  // ---------- Invariants

  ghost function Masks(evbs: seq<Evb>, list: seq<nat>): (m: set<Event>)
    requires forall e :: e in list ==> e < |evbs|
  {
    set e | e in list :: evbs[e].mask
  }

  ghost function Completed(evbs: seq<Evb>, list: seq<nat>): (m: set<Event>)
    requires forall e :: e in list ==> e < |evbs|
  {
    set e | e in list && evbs[e].complete :: evbs[e].mask
  }

  /** Every event block is either free or on the list of its owner. */
  ghost predicate EvbsOk(s: State) {
    && NoDups(s.eul) && (forall e :: e in s.eul ==> e < |s.evbs|)
    && (forall p :: 0 <= p < |s.pds| ==> NoDups(s.pds[p].evlist))
    && (forall p, e {:trigger e in s.pds[p].evlist} :: 0 <= p < |s.pds| && e in s.pds[p].evlist ==>
          e < |s.evbs| && e !in s.eul && s.evbs[e].pd == p)
    && (forall e :: 0 <= e < |s.evbs| && e !in s.eul ==> s.evbs[e].pd < |s.pds| && e in s.pds[s.evbs[e].pd].evlist)
  }

  /** The events a process may have asked for at the same time. */
  ghost predicate Askable(asked: set<Event>) { asked <= MULTI || |asked| <= 1 }

  /** The flags of a process are the events that are complete, and it has blocks for just the events it
      has asked for, one each. */
  ghost predicate FlagsOk(evbs: seq<Evb>, pd: Pd) {
    && (forall e :: e in pd.evlist ==> e < |evbs|)
    && pd.evflg == Completed(evbs, pd.evlist)
    && (forall e, g :: e in pd.evlist && g in pd.evlist && evbs[e].mask == evbs[g].mask ==> e == g)
    && (match pd.phase
        case User => pd.evlist == []
        case Asking(asked) => Masks(evbs, pd.evlist) == asked && Askable(asked)
        case InWait(mask) => Masks(evbs, pd.evlist) == mask && Askable(mask) && pd.evwait == mask)
  }

  /** Every process is on exactly one of the three lists. */
  ghost predicate Partition(rlr: seq<nat>, drl: seq<nat>, nrl: seq<nat>, n: nat) {
    && NoDups(rlr) && NoDups(drl) && NoDups(nrl)
    && (forall p :: p in rlr ==> p !in drl && p !in nrl)
    && (forall p :: p in drl ==> p !in nrl)
    && (forall p :: 0 <= p < n <==> p in rlr || p in drl || p in nrl)
  }

  ghost predicate ListsOk(s: State) { Partition(s.rlr, s.drl, s.nrl, |s.pds|) }

  lemma WakeKeeps(rlr: seq<nat>, drl: seq<nat>, nrl: seq<nat>, n: nat, p: nat)
    requires Partition(rlr, drl, nrl, n) && p in nrl
    ensures Partition(rlr, [p] + drl, Remove(nrl, p), n)
    ensures forall q :: q in Remove(nrl, p) <==> q in nrl && q != p
  {
    RemoveKeeps(nrl, p);
    PushKeeps(drl, p);
    assert forall q :: q in [p] + drl <==> q == p || q in drl;
  }

  /** A process sleeps exactly if it waits for events none of which has happened. */
  ghost predicate Asleep(pd: Pd) { pd.phase.InWait? && pd.evwait !! pd.evflg }

  ghost predicate SleepOk(s: State) {
    && (forall p :: 0 <= p < |s.pds| ==> (p in s.nrl <==> Asleep(s.pds[p])))
    && (forall p :: 0 <= p < |s.pds| ==> (s.pds[p].waitin <==> p in s.nrl))
  }

  ghost predicate Ok(s: State) {
    && EvbsOk(s) && ListsOk(s) && SleepOk(s)
    && (forall p :: 0 <= p < |s.pds| ==> FlagsOk(s.evbs, s.pds[p]))
    && (s.dispatching || s.rlr != [])
  }

  // ---------- Completing an event

  /** azombie and signal: event block `e` is complete; its owner wakes up if it sleeps and waits for it. */
  function Zombie(s: State, e: nat): (s': State)
    requires e < |s.evbs| && s.evbs[e].pd < |s.pds|
  {
    var p := s.evbs[e].pd;
    var pd := s.pds[p].(evflg := s.pds[p].evflg + {s.evbs[e].mask});
    var wakes := p in s.nrl && pd.evflg * pd.evwait != {};
    s.(evbs := s.evbs[e := s.evbs[e].(complete := true)],
       pds := s.pds[p := if wakes then pd.(waitin := false) else pd],
       nrl := if wakes then Remove(s.nrl, p) else s.nrl,
       drl := if wakes then [p] + s.drl else s.drl)
  }

  lemma CompletedMore(evbs: seq<Evb>, list: seq<nat>, e: nat)
    requires (forall x :: x in list ==> x < |evbs|) && e in list
    ensures Completed(evbs[e := evbs[e].(complete := true)], list) == Completed(evbs, list) + {evbs[e].mask}
    ensures Masks(evbs[e := evbs[e].(complete := true)], list) == Masks(evbs, list)
  {
    var evbs' := evbs[e := evbs[e].(complete := true)];
    assert forall x :: x in list ==> evbs'[x].mask == evbs[x].mask;
    assert evbs'[e].complete;
    forall m
      ensures m in Completed(evbs', list) <==> m in Completed(evbs, list) + {evbs[e].mask}
    {
      if m in Completed(evbs, list) {
        var x :| x in list && evbs[x].complete && evbs[x].mask == m;
        assert evbs'[x].complete && evbs'[x].mask == m;
      }
    }
    forall m
      ensures m in Masks(evbs', list) <==> m in Masks(evbs, list)
    {
      if m in Masks(evbs, list) {
        var x :| x in list && evbs[x].mask == m;
        assert evbs'[x].mask == m;
      }
    }
  }

  lemma ZombieFlags(s: State, e: nat, q: nat)
    requires Ok(s) && e < |s.evbs| && e !in s.eul && q < |s.pds|
    ensures FlagsOk(Zombie(s, e).evbs, Zombie(s, e).pds[q])
  {
    var p, s' := s.evbs[e].pd, Zombie(s, e);
    assert FlagsOk(s.evbs, s.pds[q]);
    if q == p {
      CompletedMore(s.evbs, s.pds[p].evlist, e);
    } else {
      assert e !in s.pds[q].evlist;
      SameEvbs(s.evbs, s'.evbs, s.pds[q]);
    }
  }

  /** Blocks on other lists do not concern a process. */
  lemma SameEvbs(evbs: seq<Evb>, evbs': seq<Evb>, pd: Pd)
    requires FlagsOk(evbs, pd) && |evbs| == |evbs'| && forall e :: e in pd.evlist ==> evbs'[e] == evbs[e]
    ensures FlagsOk(evbs', pd)
  {
    assert Completed(evbs', pd.evlist) == Completed(evbs, pd.evlist) by {
      assert forall e :: e in pd.evlist ==> evbs'[e] == evbs[e];
    }
    assert Masks(evbs', pd.evlist) == Masks(evbs, pd.evlist);
  }

  lemma WakesIff(pd: Pd, m: Event)
    ensures var pd' := pd.(evflg := pd.evflg + {m});
            && (pd'.evflg * pd'.evwait == {} <==> pd'.evwait !! pd'.evflg)
            && (Asleep(pd') ==> Asleep(pd))
  {
    var pd' := pd.(evflg := pd.evflg + {m});
    assert forall x :: x in pd'.evflg * pd'.evwait <==> x in pd'.evflg && x in pd'.evwait;
    assert forall x :: x in pd.evflg ==> x in pd'.evflg;
    assert pd'.evflg * pd'.evwait == {} <==> pd'.evwait !! pd'.evflg;
  }

  lemma ZombieLists(s: State, e: nat)
    requires Ok(s) && e < |s.evbs| && e !in s.eul
    ensures ListsOk(Zombie(s, e)) && SleepOk(Zombie(s, e))
  {
    hide Partition, Remove, FlagsOk;
    var p, s' := s.evbs[e].pd, Zombie(s, e);
    if p in s.nrl { WakeKeeps(s.rlr, s.drl, s.nrl, |s.pds|, p); }
    WakesIff(s.pds[p], s.evbs[e].mask);
    assert forall q :: 0 <= q < |s.pds| && q != p ==> s'.pds[q] == s.pds[q];
    assert p in s.nrl <==> Asleep(s.pds[p]);
  }

  lemma ZombieKeeps(s: State, e: nat)
    requires Ok(s) && e < |s.evbs| && e !in s.eul
    ensures Ok(Zombie(s, e))
  {
    ZombieLists(s, e);
    forall q | 0 <= q < |s.pds|
      ensures FlagsOk(Zombie(s, e).evbs, Zombie(s, e).pds[q])
    {
      ZombieFlags(s, e, q);
    }
  }

  // ---------- Asking for an event

  /** The current process may ask for one more event: the first one, or another one of a multiple wait. */
  predicate MayAsk(s: State, ev: Event) {
    && !s.dispatching && s.rlr != [] && s.rlr[0] < |s.pds|
    && match s.pds[s.rlr[0]].phase
       case User => true
       case Asking(asked) => asked <= MULTI && ev in MULTI && ev !in asked
       case InWait(_) => false
  }

  function Asked(ph: Phase): (m: set<Event>) {
    match ph case User => {} case Asking(asked) => asked case InWait(mask) => mask
  }

  /** iasync: a free block becomes the first of the current process's list. */
  function Ask(s: State, ev: Event): (s': State)
    requires s.rlr != [] && s.rlr[0] < |s.pds| && s.eul != [] && s.eul[0] < |s.evbs|
  {
    var p, e := s.rlr[0], s.eul[0];
    var pd := s.pds[p];
    s.(eul := s.eul[1..],
       evbs := s.evbs[e := Evb(p, ev, false)],
       pds := s.pds[p := pd.(evlist := [e] + pd.evlist, phase := Asking(Asked(pd.phase) + {ev}))])
  }

  lemma AskMasks(evbs: seq<Evb>, list: seq<nat>, e: nat, p: nat, ev: Event)
    requires (forall x :: x in list ==> x < |evbs|) && e < |evbs| && e !in list
    ensures var evbs', list' := evbs[e := Evb(p, ev, false)], [e] + list;
            && (forall x :: x in list' ==> x < |evbs'|)
            && Completed(evbs', list') == Completed(evbs, list) && Masks(evbs', list') == Masks(evbs, list) + {ev}
  {
    var evbs', list' := evbs[e := Evb(p, ev, false)], [e] + list;
    assert forall x :: x in list' <==> x == e || x in list;
    assert forall x :: x in list ==> evbs'[x] == evbs[x];
    assert Completed(evbs', list') == Completed(evbs, list);
    forall m
      ensures m in Masks(evbs', list') <==> m in Masks(evbs, list) + {ev}
    {
      if m in Masks(evbs, list) {
        var x :| x in list && evbs[x].mask == m;
        assert evbs'[x].mask == m && x in list';
      }
      assert evbs'[e].mask == ev && e in list';
    }
  }

  lemma AskFlags(evbs: seq<Evb>, pd: Pd, e: nat, p: nat, ev: Event)
    requires FlagsOk(evbs, pd) && e < |evbs| && e !in pd.evlist && ev !in Asked(pd.phase) && !pd.phase.InWait?
    requires Askable(Asked(pd.phase) + {ev})
    ensures FlagsOk(evbs[e := Evb(p, ev, false)], pd.(evlist := [e] + pd.evlist, phase := Asking(Asked(pd.phase) + {ev})))
  {
    hide Completed;
    var evbs', list' := evbs[e := Evb(p, ev, false)], [e] + pd.evlist;
    AskMasks(evbs, pd.evlist, e, p, ev);
    assert Masks(evbs, pd.evlist) == Asked(pd.phase);
    assert forall x :: x in list' <==> x == e || x in pd.evlist;
    forall x | x in pd.evlist
      ensures evbs'[x] == evbs[x] && evbs'[x].mask != ev
    {
      assert evbs[x].mask in Masks(evbs, pd.evlist);
    }
  }

  lemma AskEvbs(s: State, ev: Event)
    requires Ok(s) && s.rlr != [] && s.rlr[0] < |s.pds| && s.eul != [] && s.eul[0] < |s.evbs|
    ensures EvbsOk(Ask(s, ev))
  {
    var p, e, s' := s.rlr[0], s.eul[0], Ask(s, ev);
    TailNoDups(s.eul);
    assert forall x :: x in s'.pds[p].evlist <==> x == e || x in s.pds[p].evlist;
    PushKeeps(s.pds[p].evlist, e);
  }

  lemma TailNoDups(s: seq<nat>)
    requires NoDups(s) && s != []
    ensures NoDups(s[1..]) && s[0] !in s[1..] && forall x :: x in s <==> x == s[0] || x in s[1..]
  {
    var t := s[1..];
    assert forall i :: 0 <= i < |t| ==> t[i] == s[i + 1];
  }

  lemma AskKeeps(s: State, ev: Event)
    requires Ok(s) && MayAsk(s, ev) && s.eul != [] && s.eul[0] < |s.evbs|
    ensures Ok(Ask(s, ev))
  {
    hide ListsOk, SleepOk, Completed, Masks, NoDups;
    var p, e, s' := s.rlr[0], s.eul[0], Ask(s, ev);
    AskEvbs(s, ev);
    assert FlagsOk(s.evbs, s.pds[p]);
    AskFlags(s.evbs, s.pds[p], e, p, ev);
    forall q | 0 <= q < |s.pds| && q != p
      ensures FlagsOk(s'.evbs, s'.pds[q])
    {
      assert FlagsOk(s.evbs, s.pds[q]) && e !in s.pds[q].evlist;
      SameEvbs(s.evbs, s'.evbs, s.pds[q]);
    }
    AskSleep(s, ev);
  }

  lemma AskSleep(s: State, ev: Event)
    requires Ok(s) && MayAsk(s, ev) && s.eul != [] && s.eul[0] < |s.evbs|
    ensures ListsOk(Ask(s, ev)) && SleepOk(Ask(s, ev))
  {
    hide FlagsOk, EvbsOk;
  }

  // ---------- There is always a free event block

  ghost function Used(pds: seq<Pd>): (n: nat) {
    if pds == [] then 0 else Used(pds[..|pds| - 1]) + |pds[|pds| - 1].evlist|
  }

  /** The blocks on the lists of the first `k` processes. */
  ghost function OnLists(pds: seq<Pd>, k: nat): (s: set<nat>)
    requires k <= |pds|
  {
    if k == 0 then {} else OnLists(pds, k - 1) + Elems(pds[k - 1].evlist)
  }

  lemma {:induction false} CountLists(pds: seq<Pd>, k: nat)
    requires k <= |pds|
    ensures |OnLists(pds, k)| <= Used(pds[..k])
  {
    if k > 0 {
      CountLists(pds, k - 1);
      assert pds[..k][..k - 1] == pds[..k - 1];
      SetOfSeq(pds[k - 1].evlist);
      var a, b := OnLists(pds, k - 1), Elems(pds[k - 1].evlist);
      assert |a + b| == |a| + |b| - |a * b|;
    }
  }

  lemma {:induction false} ListedIn(pds: seq<Pd>, k: nat, p: nat, e: nat)
    requires p < k <= |pds| && e in pds[p].evlist
    ensures e in OnLists(pds, k)
    decreases k
  {
    if p < k - 1 { ListedIn(pds, k - 1, p, e); }
  }

  ghost function Elems(s: seq<nat>): (r: set<nat>) { set e | e in s }

  lemma {:induction false} SetOfSeq(s: seq<nat>)
    ensures |Elems(s)| <= |s|
  {
    if s != [] {
      SetOfSeq(s[1..]);
      assert Elems(s) == {s[0]} + Elems(s[1..]);
    }
  }

  lemma {:induction false} UsedBound(pds: seq<Pd>, cur: nat, c: nat)
    requires cur < |pds| && |pds[cur].evlist| <= c && forall p :: 0 <= p < |pds| ==> |pds[p].evlist| <= EVBS_PER_PD
    ensures Used(pds) <= EVBS_PER_PD * (|pds| - 1) + c
    decreases |pds|
  {
    var n := |pds| - 1;
    if cur < n {
      UsedBound(pds[..n], cur, c);
    } else {
      UsedAll(pds[..n]);
    }
  }

  lemma {:induction false} UsedAll(pds: seq<Pd>)
    requires forall p :: 0 <= p < |pds| ==> |pds[p].evlist| <= EVBS_PER_PD
    ensures Used(pds) <= EVBS_PER_PD * |pds|
    decreases |pds|
  {
    if pds != [] { UsedAll(pds[..|pds| - 1]); }
  }

  lemma {:induction false} MasksSize(evbs: seq<Evb>, list: seq<nat>)
    requires (forall e :: e in list ==> e < |evbs|) && NoDups(list)
    requires forall e, g :: e in list && g in list && evbs[e].mask == evbs[g].mask ==> e == g
    ensures |Masks(evbs, list)| == |list|
  {
    if list != [] {
      var t := list[1..];
      TailNoDups(list);
      MasksSize(evbs, t);
      assert Masks(evbs, list) == Masks(evbs, t) + {evbs[list[0]].mask};
      assert evbs[list[0]].mask !in Masks(evbs, t);
    }
  }

  lemma SubsetSize(a: set<Event>, b: set<Event>)
    requires a <= b
    ensures |a| <= |b| && (a != b ==> |a| < |b|)
  {
    assert b == a + (b - a);
  }

  lemma MultiSize()
    ensures |MULTI| == EVBS_PER_PD
  {
  }

  /** A process has never more blocks than events in a multiple wait, and fewer while it may still ask. */
  lemma ListSize(s: State, p: nat)
    requires Ok(s) && p < |s.pds|
    ensures |s.pds[p].evlist| <= EVBS_PER_PD
    ensures forall ev :: MayAsk(s, ev) && p == s.rlr[0] ==> |s.pds[p].evlist| < EVBS_PER_PD
  {
    var pd := s.pds[p];
    assert FlagsOk(s.evbs, pd);
    MasksSize(s.evbs, pd.evlist);
    MultiSize();
    var m := Masks(s.evbs, pd.evlist);
    if m <= MULTI { SubsetSize(m, MULTI); }
  }

  /** So the panic for want of an event block cannot happen. */
  lemma NoPanic(s: State, ev: Event, processes: nat)
    requires Ok(s) && MayAsk(s, ev) && |s.pds| <= processes && |s.evbs| == EVBS_PER_PD * processes
    ensures s.eul != []
  {
    hide FlagsOk, ListsOk, SleepOk;
    var n := |s.pds|;
    forall p | 0 <= p < n
      ensures |s.pds[p].evlist| <= EVBS_PER_PD
    {
      ListSize(s, p);
    }
    ListSize(s, s.rlr[0]);
    UsedBound(s.pds, s.rlr[0], EVBS_PER_PD - 1);
    CountLists(s.pds, n);
    assert s.pds[..n] == s.pds;
    AllListed(s);
  }

  lemma AllListed(s: State)
    requires EvbsOk(s)
    ensures s.eul == [] ==> |s.evbs| <= |OnLists(s.pds, |s.pds|)|
  {
    if s.eul == [] {
      var all, listed := UpTo(|s.evbs|), OnLists(s.pds, |s.pds|);
      UpToIs(|s.evbs|);
      forall e | e in all
        ensures e in listed
      {
        ListedIn(s.pds, |s.pds|, s.evbs[e].pd, e);
      }
      SubsetCard(all, listed);
    }
  }

  // ---------- Waiting and dispatching

  /** mwait, with the first part of disp: the current process waits for what it has asked for; if none
      of it has happened it goes to the not-ready list and the dispatcher takes over. */
  function Wait(s: State): (s': State)
    requires s.rlr != [] && s.rlr[0] < |s.pds|
  {
    var p := s.rlr[0];
    var mask := Asked(s.pds[p].phase);
    var pd := s.pds[p].(evwait := mask, phase := InWait(mask));
    if mask !! pd.evflg then
      s.(pds := s.pds[p := pd.(waitin := true)], rlr := s.rlr[1..], nrl := [p] + s.nrl, dispatching := true)
    else s.(pds := s.pds[p := pd])
  }

  /** A call of the dispatcher by a process that does not wait: it goes to the end of the ready list. */
  function Yield(s: State): (s': State)
    requires s.rlr != []
  {
    s.(rlr := s.rlr[1..] + [s.rlr[0]], dispatching := true)
  }

  /** schedule: the processes that have woken up are appended to the ready list. */
  function Schedule(s: State): (s': State) { s.(rlr := s.rlr + s.drl, drl := []) }

  /** The end of disp: the head of the ready list runs. */
  function Switch(s: State): (s': State) { s.(dispatching := false) }

  lemma SleepKeeps(rlr: seq<nat>, drl: seq<nat>, nrl: seq<nat>, n: nat)
    requires Partition(rlr, drl, nrl, n) && rlr != []
    ensures Partition(rlr[1..], drl, [rlr[0]] + nrl, n)
    ensures forall q :: q in [rlr[0]] + nrl <==> q == rlr[0] || q in nrl
  {
    TailNoDups(rlr);
    PushKeeps(nrl, rlr[0]);
  }

  lemma WaitLists(s: State)
    requires Ok(s) && s.rlr != [] && s.rlr[0] < |s.pds| && !s.pds[s.rlr[0]].phase.InWait?
    ensures ListsOk(Wait(s)) && SleepOk(Wait(s))
  {
    hide Partition, FlagsOk, EvbsOk;
    SleepKeeps(s.rlr, s.drl, s.nrl, |s.pds|);
    assert s.rlr[0] in s.rlr;
    HeadAwake(s);
  }

  lemma HeadAwake(s: State)
    requires ListsOk(s) && s.rlr != []
    ensures s.rlr[0] !in s.nrl && s.rlr[0] < |s.pds|
  {
    assert s.rlr[0] in s.rlr;
  }

  lemma WaitKeeps(s: State)
    requires Ok(s) && s.rlr != [] && s.rlr[0] < |s.pds| && !s.pds[s.rlr[0]].phase.InWait?
    ensures Ok(Wait(s))
  {
    hide ListsOk, SleepOk;
    WaitLists(s);
    var p := s.rlr[0];
    assert FlagsOk(s.evbs, s.pds[p]);
    assert Masks(s.evbs, s.pds[p].evlist) == Asked(s.pds[p].phase);
  }

  lemma RotateKeeps(rlr: seq<nat>, drl: seq<nat>, nrl: seq<nat>, n: nat)
    requires Partition(rlr, drl, nrl, n) && rlr != []
    ensures Partition(rlr[1..] + [rlr[0]], drl, nrl, n)
  {
    TailNoDups(rlr);
    PushKeeps(rlr[1..], rlr[0]);
    var r := rlr[1..] + [rlr[0]];
    assert forall q :: q in r <==> q == rlr[0] || q in rlr[1..];
  }

  lemma YieldKeeps(s: State)
    requires Ok(s) && s.rlr != []
    ensures Ok(Yield(s))
  {
    hide Partition, FlagsOk, EvbsOk, SleepOk;
    RotateKeeps(s.rlr, s.drl, s.nrl, |s.pds|);
    assert SleepOk(Yield(s)) by { SameSleep(s, Yield(s)); }
    assert EvbsOk(Yield(s)) by { SameBlocks(s, Yield(s)); }
  }

  lemma SameSleep(s: State, s': State)
    requires SleepOk(s) && s'.pds == s.pds && s'.nrl == s.nrl
    ensures SleepOk(s')
  {
  }

  lemma SameBlocks(s: State, s': State)
    requires EvbsOk(s) && s'.pds == s.pds && s'.evbs == s.evbs && s'.eul == s.eul
    ensures EvbsOk(s')
  {
  }

  lemma AppendKeeps(rlr: seq<nat>, drl: seq<nat>, nrl: seq<nat>, n: nat)
    requires Partition(rlr, drl, nrl, n)
    ensures Partition(rlr + drl, [], nrl, n)
  {
    var r := rlr + drl;
    assert forall q :: q in r <==> q in rlr || q in drl;
    forall i, j | 0 <= i < j < |r|
      ensures r[i] != r[j]
    {
      if i < |rlr| <= j { assert rlr[i] in rlr && drl[j - |rlr|] in drl; }
    }
  }

  lemma ScheduleKeeps(s: State)
    requires Ok(s)
    ensures Ok(Schedule(s))
  {
    hide Partition, FlagsOk, EvbsOk, SleepOk;
    AppendKeeps(s.rlr, s.drl, s.nrl, |s.pds|);
    SameSleep(s, Schedule(s));
    SameBlocks(s, Schedule(s));
  }

  lemma SwitchKeeps(s: State)
    requires Ok(s) && s.rlr != []
    ensures Ok(Switch(s))
  {
    hide Partition, FlagsOk, EvbsOk, SleepOk;
    SameSleep(s, Switch(s));
    SameBlocks(s, Switch(s));
  }

  /** pstart: a new process, on the list of those on the way to the ready list. */
  function Start(s: State): (s': State) {
    s.(pds := s.pds + [Pd({}, {}, false, [], User)], drl := [|s.pds|] + s.drl)
  }

  lemma StartKeeps(s: State)
    requires Ok(s)
    ensures Ok(Start(s))
  {
    var n, s' := |s.pds|, Start(s);
    PushKeeps(s.drl, n);
    assert forall q :: q in s'.drl <==> q == n || q in s.drl;
    forall p | 0 <= p < n
      ensures FlagsOk(s.evbs, s'.pds[p])
    {
      assert s'.pds[p] == s.pds[p] && FlagsOk(s.evbs, s.pds[p]);
    }
    assert FlagsOk(s.evbs, s'.pds[n]);
  }

  // ---------- Cancelling and collecting

  /** Block `e` goes from the list of process `p` to the free blocks. */
  function Free(s: State, p: nat, e: nat): (s': State)
    requires p < |s.pds|
  {
    s.(eul := [e] + s.eul, pds := s.pds[p := s.pds[p].(evlist := Remove(s.pds[p].evlist, e))])
  }

  lemma FreeEvbs(s: State, p: nat, e: nat)
    requires EvbsOk(s) && p < |s.pds| && e in s.pds[p].evlist
    ensures EvbsOk(Free(s, p, e))
  {
    var s' := Free(s, p, e);
    RemoveKeeps(s.pds[p].evlist, e);
    PushKeeps(s.eul, e);
    assert forall x :: x in s'.eul <==> x == e || x in s.eul;
    forall q, x | 0 <= q < |s'.pds| && x in s'.pds[q].evlist
      ensures x < |s.evbs| && x !in s'.eul && s.evbs[x].pd == q
    {
      assert x in s.pds[q].evlist;
      assert x < |s.evbs| && e < |s.evbs|;
      assert s.evbs[x].pd == q && s.evbs[e].pd == p;
    }
    assert forall q :: 0 <= q < |s.pds| && q != p ==> s'.pds[q].evlist == s.pds[q].evlist;
    forall x | 0 <= x < |s.evbs| && x !in s'.eul
      ensures s.evbs[x].pd < |s.pds| && x in s'.pds[s.evbs[x].pd].evlist
    {
      assert x in s.pds[s.evbs[x].pd].evlist;
    }
  }

  /** The blocks of a process while it collects them. */
  ghost predicate Owns(evbs: seq<Evb>, pd: Pd) {
    && NoDups(pd.evlist) && (forall e :: e in pd.evlist ==> e < |evbs|) && pd.evflg == Completed(evbs, pd.evlist)
    && (forall e, g :: e in pd.evlist && g in pd.evlist && evbs[e].mask == evbs[g].mask ==> e == g)
  }

  lemma FreeOwns(evbs: seq<Evb>, pd: Pd, e: nat)
    requires Owns(evbs, pd) && e in pd.evlist
    ensures var flg := if evbs[e].complete then pd.evflg - {evbs[e].mask} else pd.evflg;
            Owns(evbs, pd.(evlist := Remove(pd.evlist, e), evflg := flg))
  {
    var r := Remove(pd.evlist, e);
    RemoveKeeps(pd.evlist, e);
    forall m
      ensures m in Completed(evbs, r) <==> m in Completed(evbs, pd.evlist) && !(evbs[e].complete && m == evbs[e].mask)
    {
      if m in Completed(evbs, pd.evlist) {
        var x :| x in pd.evlist && evbs[x].complete && evbs[x].mask == m;
        if x != e { assert x in r; }
      }
    }
  }

  /** acancel, for the blocks of `list`: those for events of `m` that are not complete are freed. */
  function Cancel(s: State, p: nat, list: seq<nat>, m: set<Event>): (s': State)
    requires p < |s.pds| && forall e :: e in list ==> e < |s.evbs|
    ensures s'.evbs == s.evbs && |s'.pds| == |s.pds| && forall e :: e in s'.pds[p].evlist ==> e in s.pds[p].evlist
    decreases |list|
  {
    if list == [] then s else
      var e := list[0];
      assert e in list && forall x :: x in list[1..] ==> x in list;
      var s1 := if s.evbs[e].mask in m && !s.evbs[e].complete then
                  var s2 := Free(s, p, e);
                  s2.(pds := s2.pds[p := s2.pds[p].(evwait := s2.pds[p].evwait - {s.evbs[e].mask})])
                else s;
      Cancel(s1, p, list[1..], m)
  }

  /** Everything but the blocks, flags and wait mask of process `p` is as before. */
  ghost predicate OnlyCollects(s: State, s': State, p: nat) {
    && s'.rlr == s.rlr && s'.drl == s.drl && s'.nrl == s.nrl && s'.evbs == s.evbs && s'.dispatching == s.dispatching
    && |s'.pds| == |s.pds| && (forall q :: 0 <= q < |s.pds| && q != p ==> s'.pds[q] == s.pds[q])
    && (p < |s.pds| ==> s'.pds[p].phase == s.pds[p].phase && s'.pds[p].waitin == s.pds[p].waitin)
  }

  lemma FreeStep(s: State, p: nat, e: nat, s': State)
    requires EvbsOk(s) && p < |s.pds| && Owns(s.evbs, s.pds[p]) && e in s.pds[p].evlist
    requires var s1 := Free(s, p, e);
             && s'.eul == s1.eul && s'.evbs == s1.evbs && |s'.pds| == |s1.pds|
             && (forall q :: 0 <= q < |s1.pds| ==> s'.pds[q].evlist == s1.pds[q].evlist)
             && s'.pds[p].evflg == if s.evbs[e].complete then s.pds[p].evflg - {s.evbs[e].mask} else s.pds[p].evflg
    ensures EvbsOk(s') && Owns(s'.evbs, s'.pds[p])
    ensures forall x :: x in s'.pds[p].evlist <==> x in s.pds[p].evlist && x != e
  {
    var s1 := Free(s, p, e);
    FreeEvbs(s, p, e);
    FreeOwns(s.evbs, s.pds[p], e);
    RemoveKeeps(s.pds[p].evlist, e);
    SameEvLists(s1, s');
  }

  lemma SameEvLists(s: State, s': State)
    requires EvbsOk(s) && s'.eul == s.eul && s'.evbs == s.evbs && |s'.pds| == |s.pds|
    requires forall q :: 0 <= q < |s.pds| ==> s'.pds[q].evlist == s.pds[q].evlist
    ensures EvbsOk(s')
  {
  }

  lemma {:induction false} CancelKeeps(s: State, p: nat, list: seq<nat>, m: set<Event>)
    requires EvbsOk(s) && p < |s.pds| && Owns(s.evbs, s.pds[p])
    requires NoDups(list) && forall e :: e in list ==> e in s.pds[p].evlist && e < |s.evbs|
    ensures var s' := Cancel(s, p, list, m);
            && EvbsOk(s') && Owns(s.evbs, s'.pds[p]) && OnlyCollects(s, s', p) && s'.pds[p].evflg == s.pds[p].evflg
            && forall x :: x in s'.pds[p].evlist <==>
                 x in s.pds[p].evlist && !(x in list && s.evbs[x].mask in m && !s.evbs[x].complete)
    decreases |list|
  {
    if list != [] {
      var e := list[0];
      TailNoDups(list);
      if s.evbs[e].mask in m && !s.evbs[e].complete {
        var s2 := Free(s, p, e);
        var s1 := s2.(pds := s2.pds[p := s2.pds[p].(evwait := s2.pds[p].evwait - {s.evbs[e].mask})]);
        FreeStep(s, p, e, s1);
        CancelKeeps(s1, p, list[1..], m);
      } else {
        CancelKeeps(s, p, list[1..], m);
      }
    }
  }

  /** The first block of a list for an event, or the length of the list. */
  function FindMask(evbs: seq<Evb>, list: seq<nat>, ev: Event): (i: nat)
    requires forall e :: e in list ==> e < |evbs|
    ensures i <= |list| && (i < |list| ==> list[i] in list && evbs[list[i]].mask == ev)
    ensures forall j :: 0 <= j < i ==> list[j] in list && evbs[list[j]].mask != ev
  {
    if list == [] then 0 else
      assert list[0] in list && forall x :: x in list[1..] ==> x in list;
      if evbs[list[0]].mask == ev then 0 else 1 + FindMask(evbs, list[1..], ev)
  }

  /** apret: the block of the event is freed and the event taken out of flags and wait mask. */
  function Apret(s: State, p: nat, ev: Event): (s': State)
    requires p < |s.pds| && forall e :: e in s.pds[p].evlist ==> e < |s.evbs|
    ensures s'.evbs == s.evbs && |s'.pds| == |s.pds| && forall e :: e in s'.pds[p].evlist ==> e in s.pds[p].evlist
  {
    var pd := s.pds[p];
    var i := FindMask(s.evbs, pd.evlist, ev);
    if i == |pd.evlist| then s else
      var s1 := Free(s, p, pd.evlist[i]);
      s1.(pds := s1.pds[p := s1.pds[p].(evwait := pd.evwait - {ev}, evflg := pd.evflg - {ev})])
  }

  lemma ApretKeeps(s: State, p: nat, ev: Event)
    requires EvbsOk(s) && p < |s.pds| && Owns(s.evbs, s.pds[p])
    requires forall e :: e in s.pds[p].evlist ==> s.evbs[e].complete
    ensures var s' := Apret(s, p, ev);
            && EvbsOk(s') && Owns(s.evbs, s'.pds[p]) && OnlyCollects(s, s', p) && s'.pds[p].evflg == s.pds[p].evflg - {ev}
            && (forall e :: e in s'.pds[p].evlist ==> s.evbs[e].complete)
  {
    hide EvbsOk, NoDups, Remove;
    var pd, i := s.pds[p], FindMask(s.evbs, s.pds[p].evlist, ev);
    if i < |pd.evlist| {
      FreeStep(s, p, pd.evlist[i], Apret(s, p, ev));
    } else {
      assert forall e :: e in pd.evlist ==> s.evbs[e].mask != ev;
      assert ev !in Completed(s.evbs, pd.evlist);
    }
  }

  /** The order in which a multiple wait collects its events; a wait for a single event fits in. */
  const ORDER: seq<Event> := [Keybd, Button, M1, M2, M3, Mesag, Timer, Sdmsg, Mutex]

  /** Collect those of the events `evs` that are in `which`. */
  function Collected(s: State, p: nat, evs: seq<Event>, which: set<Event>): (s': State)
    requires p < |s.pds| && forall e :: e in s.pds[p].evlist ==> e < |s.evbs|
    ensures s'.evbs == s.evbs && |s'.pds| == |s.pds|
    decreases |evs|
  {
    if evs == [] then s
    else Collected(if evs[0] in which then Apret(s, p, evs[0]) else s, p, evs[1..], which)
  }

  lemma {:induction false} CollectedKeeps(s: State, p: nat, evs: seq<Event>, which: set<Event>)
    requires EvbsOk(s) && p < |s.pds| && Owns(s.evbs, s.pds[p])
    requires forall e :: e in s.pds[p].evlist ==> s.evbs[e].complete
    ensures var s' := Collected(s, p, evs, which);
            && EvbsOk(s') && Owns(s.evbs, s'.pds[p]) && OnlyCollects(s, s', p)
            && (forall e :: e in s'.pds[p].evlist ==> s.evbs[e].complete)
            && forall ev :: ev in s'.pds[p].evflg <==> ev in s.pds[p].evflg && !(ev in evs && ev in which)
    decreases |evs|
  {
    hide EvbsOk, NoDups, Apret;
    if evs != [] {
      assert forall ev :: ev in evs <==> ev == evs[0] || ev in evs[1..];
      if evs[0] in which {
        ApretKeeps(s, p, evs[0]);
        CollectedKeeps(Apret(s, p, evs[0]), p, evs[1..], which);
      } else {
        CollectedKeeps(s, p, evs[1..], which);
      }
    }
  }

  /** The end of a wait: outstanding events are cancelled, those that have happened are collected. */
  function Finish(s: State): (s': State)
    requires s.rlr != [] && s.rlr[0] < |s.pds| && forall e :: e in s.pds[s.rlr[0]].evlist ==> e < |s.evbs|
  {
    var p := s.rlr[0];
    var s1 := Cancel(s, p, s.pds[p].evlist, Asked(s.pds[p].phase));
    var s2 := Collected(s1, p, ORDER, s.pds[p].evflg);
    s2.(pds := s2.pds[p := s2.pds[p].(phase := User)])
  }

  lemma OrderHasAll(ev: Event)
    ensures ev in ORDER
  {
    assert ORDER[0] == Keybd && ORDER[1] == Button && ORDER[2] == M1 && ORDER[3] == M2 && ORDER[4] == M3;
    assert ORDER[5] == Mesag && ORDER[6] == Timer && ORDER[7] == Sdmsg && ORDER[8] == Mutex;
  }

  /** After the end of a wait no event is outstanding and no flag is left. */
  lemma FinishBlocks(s: State)
    requires Ok(s) && s.rlr != [] && s.rlr[0] < |s.pds| && s.pds[s.rlr[0]].phase.InWait?
    requires forall e :: e in s.pds[s.rlr[0]].evlist ==> e < |s.evbs|
    ensures var p, s' := s.rlr[0], Finish(s);
            && EvbsOk(s') && s'.rlr == s.rlr && s'.drl == s.drl && s'.nrl == s.nrl && s'.evbs == s.evbs && s'.dispatching == s.dispatching
            && |s'.pds| == |s.pds| && (forall q :: 0 <= q < |s.pds| && q != p ==> s'.pds[q] == s.pds[q])
            && s'.pds[p].waitin == s.pds[p].waitin && s'.pds[p].evlist == [] && s'.pds[p].evflg == {} && s'.pds[p].phase == User
  {
    hide ListsOk, SleepOk, Cancel, Collected, EvbsOk;
    var p := s.rlr[0];
    var pd := s.pds[p];
    assert FlagsOk(s.evbs, pd) && EvbsOk(s);
    assert NoDups(pd.evlist) by { ListNoDups(s, p); }
    CancelKeeps(s, p, pd.evlist, Asked(pd.phase));
    var s1 := Cancel(s, p, pd.evlist, Asked(pd.phase));
    forall e | e in s1.pds[p].evlist
      ensures s.evbs[e].complete
    {
      assert s.evbs[e].mask in Masks(s.evbs, pd.evlist);
    }
    CollectedKeeps(s1, p, ORDER, pd.evflg);
    var s2 := Collected(s1, p, ORDER, pd.evflg);
    forall ev
      ensures ev !in s2.pds[p].evflg
    {
      OrderHasAll(ev);
    }
    if s2.pds[p].evlist != [] {
      SomeFlag(s.evbs, s2.pds[p]);
      assert false;
    }
    var s' := Finish(s);
    assert s'.pds[p].evlist == [] && s'.evbs == s2.evbs && s'.eul == s2.eul;
    SameEvLists(s2, s');
  }

  lemma SomeFlag(evbs: seq<Evb>, pd: Pd)
    requires Owns(evbs, pd) && pd.evlist != [] && (forall e :: e in pd.evlist ==> evbs[e].complete)
    ensures pd.evlist[0] < |evbs| && evbs[pd.evlist[0]].mask in pd.evflg
  {
    assert pd.evlist[0] in pd.evlist;
  }

  lemma ListNoDups(s: State, p: nat)
    requires EvbsOk(s) && p < |s.pds|
    ensures NoDups(s.pds[p].evlist)
  {
  }

  lemma FinishKeeps(s: State)
    requires Ok(s) && s.rlr != [] && s.rlr[0] < |s.pds| && s.pds[s.rlr[0]].phase.InWait?
    requires forall e :: e in s.pds[s.rlr[0]].evlist ==> e < |s.evbs|
    ensures Ok(Finish(s)) && Finish(s).evbs == s.evbs && |Finish(s).pds| == |s.pds|
    ensures Finish(s).pds[s.rlr[0]].evlist == [] && Finish(s).pds[s.rlr[0]].phase == User
  {
    hide EvbsOk, Finish, Partition;
    var p, s' := s.rlr[0], Finish(s);
    FinishBlocks(s);
    HeadAwake(s);
    forall q | 0 <= q < |s.pds|
      ensures FlagsOk(s'.evbs, s'.pds[q])
    {
      assert FlagsOk(s.evbs, s.pds[q]);
      if q == p { assert Completed(s.evbs, []) == {}; }
    }
  }

  // ---------- Runs

  datatype Step = DoStart | DoAsk(ev: Event) | DoComplete(e: nat) | DoWait | DoFinish | DoYield | DoSchedule | DoSwitch

  predicate CurrentIn(s: State, waiting: bool) {
    !s.dispatching && s.rlr != [] && s.rlr[0] < |s.pds| && s.pds[s.rlr[0]].phase.InWait? == waiting
  }

  /** What can happen next, in a system for `processes` processes. Events may complete at any time. */
  predicate Enabled(s: State, step: Step, processes: nat) {
    match step
    case DoStart => |s.pds| < processes
    case DoAsk(ev) => MayAsk(s, ev)
    case DoComplete(e) => e < |s.evbs| && e !in s.eul && !s.evbs[e].complete
    case DoWait => CurrentIn(s, false)
    case DoFinish => CurrentIn(s, true)
    case DoYield => CurrentIn(s, false)
    case DoSchedule => s.dispatching
    case DoSwitch => s.dispatching && s.rlr != []
  }

  ghost predicate Steps(s: State, step: Step, s': State) {
    match step
    case DoStart => s' == Start(s)
    case DoAsk(ev) => s.rlr != [] && s.rlr[0] < |s.pds| && s.eul != [] && s.eul[0] < |s.evbs| && s' == Ask(s, ev)
    case DoComplete(e) => e < |s.evbs| && s.evbs[e].pd < |s.pds| && s' == Zombie(s, e)
    case DoWait => s.rlr != [] && s.rlr[0] < |s.pds| && s' == Wait(s)
    case DoFinish =>
      && s.rlr != [] && s.rlr[0] < |s.pds| && (forall e :: e in s.pds[s.rlr[0]].evlist ==> e < |s.evbs|) && s' == Finish(s)
    case DoYield => s.rlr != [] && s' == Yield(s)
    case DoSchedule => s' == Schedule(s)
    case DoSwitch => s' == Switch(s)
  }

  ghost predicate SystemOk(s: State, processes: nat) {
    Ok(s) && |s.pds| <= processes && |s.evbs| == EVBS_PER_PD * processes
  }

  /** Every operation that is enabled can be carried out, and keeps everything in order. */
  lemma StepKeeps(s: State, step: Step, s': State, processes: nat)
    requires SystemOk(s, processes) && Enabled(s, step, processes) && Steps(s, step, s')
    ensures SystemOk(s', processes)
  {
    hide Ok, Finish, Cancel, Collected;
    match step {
      case DoStart => StartKeeps(s);
      case DoAsk(ev) => AskKeeps(s, ev);
      case DoComplete(e) => ZombieKeeps(s, e);
      case DoWait => WaitKeeps(s);
      case DoFinish => FinishKeeps(s);
      case DoYield => YieldKeeps(s);
      case DoSchedule => ScheduleKeeps(s);
      case DoSwitch => SwitchKeeps(s);
    }
  }

  /** The state after a step. */
  function Next(s: State, step: Step): (s': State) {
    match step
    case DoStart => Start(s)
    case DoAsk(ev) =>
      if s.rlr != [] && s.rlr[0] < |s.pds| && s.eul != [] && s.eul[0] < |s.evbs| then Ask(s, ev) else s
    case DoComplete(e) => if e < |s.evbs| && s.evbs[e].pd < |s.pds| then Zombie(s, e) else s
    case DoWait => if s.rlr != [] && s.rlr[0] < |s.pds| then Wait(s) else s
    case DoFinish =>
      if s.rlr != [] && s.rlr[0] < |s.pds| && (forall e :: e in s.pds[s.rlr[0]].evlist ==> e < |s.evbs|) then Finish(s) else s
    case DoYield => if s.rlr != [] then Yield(s) else s
    case DoSchedule => Schedule(s)
    case DoSwitch => Switch(s)
  }

  /** No operation that is enabled gets stuck: in particular asking for an event never panics. */
  lemma StepPossible(s: State, step: Step, processes: nat)
    requires SystemOk(s, processes) && Enabled(s, step, processes)
    ensures Steps(s, step, Next(s, step))
  {
    if step.DoAsk? {
      NoPanic(s, step.ev, processes);
      assert s.eul[0] in s.eul;
    } else if step.DoFinish? {
      assert FlagsOk(s.evbs, s.pds[s.rlr[0]]);
    }
  }

  /** Process `p` runs. */
  predicate Runs(s: State, p: nat) { !s.dispatching && s.rlr != [] && s.rlr[0] == p }

  /** As long as a process that is in a wait does not run, it stays in that wait. */
  lemma StepStays(s: State, step: Step, s': State, processes: nat, p: nat)
    requires SystemOk(s, processes) && Enabled(s, step, processes) && Steps(s, step, s')
    requires p < |s.pds| && s.pds[p].phase.InWait? && !Runs(s, p)
    ensures p < |s'.pds| && s'.pds[p].phase == s.pds[p].phase
  {
    hide Ok, Finish, Remove;
    if step.DoFinish? {
      FinishBlocks(s);
    }
  }

  ghost predicate IsRun(ss: seq<State>, steps: seq<Step>, processes: nat) {
    && |ss| == |steps| + 1
    && forall i :: 0 <= i < |steps| ==> Enabled(ss[i], steps[i], processes) && Steps(ss[i], steps[i], ss[i + 1])
  }

  lemma {:induction false} RunKeeps(ss: seq<State>, steps: seq<Step>, processes: nat)
    requires IsRun(ss, steps, processes) && SystemOk(ss[0], processes)
    ensures forall i :: 0 <= i < |ss| ==> SystemOk(ss[i], processes)
    decreases |steps|
  {
    hide SystemOk, Enabled, Steps;
    if steps != [] {
      var n := |steps| - 1;
      RunKeeps(ss[..n + 1], steps[..n], processes);
      assert SystemOk(ss[..n + 1][n], processes);
      StepKeeps(ss[n], steps[n], ss[n + 1], processes);
      forall i | 0 <= i < |ss|
        ensures SystemOk(ss[i], processes)
      {
        if i <= n { assert ss[..n + 1][i] == ss[i]; }
      }
    }
  }

  /** In every state of every run: each process is on one list, each event block on one list, no sleeping
      process has an awaited event that is complete, and the process that runs does not sleep. */
  lemma RunIsSafe(ss: seq<State>, steps: seq<Step>, processes: nat, i: nat)
    requires IsRun(ss, steps, processes) && SystemOk(ss[0], processes) && i < |ss|
    ensures Partition(ss[i].rlr, ss[i].drl, ss[i].nrl, |ss[i].pds|) && EvbsOk(ss[i])
    ensures forall p, e :: p in ss[i].nrl && e in ss[i].pds[p].evlist && ss[i].evbs[e].complete ==>
              ss[i].evbs[e].mask !in ss[i].pds[p].evwait
    ensures !ss[i].dispatching ==> ss[i].rlr != [] && ss[i].rlr[0] < |ss[i].pds| && !Asleep(ss[i].pds[ss[i].rlr[0]])
  {
    RunKeeps(ss, steps, processes);
    var s := ss[i];
    assert SystemOk(s, processes);
    if !s.dispatching { HeadAwake(s); }
    forall p, e | p in s.nrl && e in s.pds[p].evlist && s.evbs[e].complete
      ensures s.evbs[e].mask !in s.pds[p].evwait
    {
      assert FlagsOk(s.evbs, s.pds[p]) && Asleep(s.pds[p]);
      assert s.evbs[e].mask in Completed(s.evbs, s.pds[p].evlist);
    }
  }

  /** The system at the start: one process, every event block free. */
  lemma StartsOk(processes: nat, eul: seq<nat>, evbs: seq<Evb>)
    requires processes > 0 && |evbs| == EVBS_PER_PD * processes && NoDups(eul)
    requires forall e :: 0 <= e < |evbs| <==> e in eul
    ensures SystemOk(State([0], [], [], eul, [Pd({}, {}, false, [], User)], evbs, false), processes)
  {
    var s := State([0], [], [], eul, [Pd({}, {}, false, [], User)], evbs, false);
    assert Completed(evbs, []) == {};
    assert FlagsOk(evbs, s.pds[0]);
  }

  // ---------- The operations on the kernel's own data

  lemma Peel(list: seq<nat>, i: nat)
    requires 0 < i < |list|
    ensures var t := list[1..]; [list[0]] + (t[..i - 1] + t[i..]) == list[..i] + list[i + 1..]
  {
  }

  lemma ZombieIs(s: State, e: nat)
    requires e < |s.evbs| && s.evbs[e].pd < |s.pds|
    ensures var p := s.evbs[e].pd;
            var pd := s.pds[p].(evflg := s.pds[p].evflg + {s.evbs[e].mask});
            var t := s.(evbs := s.evbs[e := s.evbs[e].(complete := true)]);
            Zombie(s, e) ==
            if p in s.nrl && pd.evflg * pd.evwait != {} then
              t.(pds := s.pds[p := pd.(waitin := false)], nrl := Remove(s.nrl, p), drl := [p] + s.drl)
            else t.(pds := s.pds[p := pd])
  {
  }

  lemma FoundAt(list: seq<nat>, i: nat, p: nat)
    requires i <= |list| && (forall j :: 0 <= j < i ==> list[j] != p) && (i < |list| ==> list[i] == p)
    ensures p in list <==> i < |list|
  {
  }

  lemma {:induction false} RemoveAt(list: seq<nat>, i: nat)
    requires i < |list| && forall j :: 0 <= j < i ==> list[j] != list[i]
    ensures Remove(list, list[i]) == list[..i] + list[i + 1..]
  {
    if i > 0 {
      var t := list[1..];
      assert list[0] != list[i] && t[i - 1] == list[i];
      assert forall j :: 0 <= j < i - 1 ==> t[j] == list[j + 1];
      RemoveAt(t, i - 1);
      Peel(list, i);
    }
  }

  lemma {:induction false} FindMaskIs(evbs: seq<Evb>, list: seq<nat>, ev: Event, i: nat)
    requires (forall e :: e in list ==> e < |evbs|) && i <= |list| && forall j :: 0 <= j < |list| ==> list[j] < |evbs|
    requires (forall j :: 0 <= j < i ==> evbs[list[j]].mask != ev) && (i < |list| ==> evbs[list[i]].mask == ev)
    ensures FindMask(evbs, list, ev) == i
  {
  }

  lemma AllBelow(list: seq<nat>, n: nat)
    requires forall e :: e in list ==> e < n
    ensures forall j :: 0 <= j < |list| ==> list[j] < n
  {
    forall j | 0 <= j < |list|
      ensures list[j] < n
    {
      assert list[j] in list;
    }
  }

  lemma ApretNone(s: State, p: nat, ev: Event)
    requires p < |s.pds| && (forall e :: e in s.pds[p].evlist ==> e < |s.evbs|)
    requires FindMask(s.evbs, s.pds[p].evlist, ev) == |s.pds[p].evlist|
    ensures Apret(s, p, ev) == s
  {
  }

  lemma ApretIs(s: State, p: nat, ev: Event, i: nat)
    requires p < |s.pds| && (forall e :: e in s.pds[p].evlist ==> e < |s.evbs|)
    requires i < |s.pds[p].evlist| && FindMask(s.evbs, s.pds[p].evlist, ev) == i
    ensures var pd, list := s.pds[p], s.pds[p].evlist;
            Apret(s, p, ev) ==
            s.(eul := [list[i]] + s.eul,
               pds := s.pds[p := pd.(evlist := list[..i] + list[i + 1..], evwait := pd.evwait - {ev}, evflg := pd.evflg - {ev})])
  {
    var pd, list := s.pds[p], s.pds[p].evlist;
    RemoveAt(list, i);
    var r := list[..i] + list[i + 1..];
    var s1 := Free(s, p, list[i]);
    assert s1.pds[p] == pd.(evlist := r);
    assert s1.pds[p := s1.pds[p].(evwait := pd.evwait - {ev}, evflg := pd.evflg - {ev})]
        == s.pds[p := pd.(evlist := r, evwait := pd.evwait - {ev}, evflg := pd.evflg - {ev})];
  }

  /** One more block looked at by acancel. */
  lemma CancelOne(s: State, p: nat, list: seq<nat>, m: set<Event>, s': State)
    requires p < |s.pds| && list != [] && (forall e :: e in list ==> e < |s.evbs|) && list[0] < |s.evbs|
    requires var e, pd := list[0], s.pds[p];
             s' == if s.evbs[e].mask in m && !s.evbs[e].complete then
                     s.(eul := [e] + s.eul,
                        pds := s.pds[p := pd.(evlist := Remove(pd.evlist, e), evwait := pd.evwait - {s.evbs[e].mask})])
                   else s
    ensures (forall e :: e in list[1..] ==> e < |s.evbs|) && Cancel(s', p, list[1..], m) == Cancel(s, p, list, m)
  {
    assert list[0] in list && forall x :: x in list[1..] ==> x in list;
    var e, pd := list[0], s.pds[p];
    if s.evbs[e].mask in m && !s.evbs[e].complete {
      var s2 := Free(s, p, e);
      assert s2.pds[p := s2.pds[p].(evwait := s2.pds[p].evwait - {s.evbs[e].mask})] == s'.pds;
    }
  }

  predicate Completable(s: State, e: nat) { e < |s.evbs| && e !in s.eul && !s.evbs[e].complete }

  /** Events complete one after the other; entries for blocks that do not wait do nothing. */
  function Forked(s: State, es: seq<nat>): (s': State)
    decreases |es|
  {
    if es == [] then s
    else Forked(if Completable(s, es[0]) && s.evbs[es[0]].pd < |s.pds| then Zombie(s, es[0]) else s, es[1..])
  }

  /** Rounds of the dispatcher: run the fork ring, then make ready who has woken up. */
  function Rounds(s: State, rounds: seq<seq<nat>>): (s': State)
    decreases |rounds|
  {
    if rounds == [] then s else Rounds(Schedule(Forked(s, rounds[0])), rounds[1..])
  }

  lemma RoundsStep(s: State, rounds: seq<seq<nat>>)
    requires rounds != []
    ensures Rounds(s, rounds) == Rounds(Schedule(Forked(s, rounds[0])), rounds[1..])
  {
  }

  lemma QuietRound(s: State)
    ensures Rounds(s, [[]]) == Schedule(s)
  {
    RoundsStep(s, [[]]);
    RoundsEnd(Schedule(s));
  }

  lemma RoundsEnd(s: State)
    ensures Rounds(s, []) == s
  {
  }

  // ---------- What a process learns from a wait

  /** What the rest of the system does by `script` while process `p` does not run; steps that cannot happen do nothing. */
  function Others(s: State, script: seq<Step>, p: nat, processes: nat): (s': State)
    decreases |script|
  {
    if script == [] || Runs(s, p) then s
    else Others(if Enabled(s, script[0], processes) then Next(s, script[0]) else s, script[1..], p, processes)
  }

  /** The step completes an event of process `p`. */
  predicate Completes(s: State, step: Step, processes: nat, p: nat, ev: Event) {
    && step.DoComplete? && Enabled(s, step, processes) && step.e < |s.evbs|
    && s.evbs[step.e].pd == p && s.evbs[step.e].mask == ev
  }

  /** The events of process `p` that complete in that time. */
  function Arrivals(s: State, script: seq<Step>, p: nat, processes: nat): (m: set<Event>)
    decreases |script|
  {
    if script == [] || Runs(s, p) then {}
    else
      (set ev: Event | Completes(s, script[0], processes, p, ev))
      + Arrivals(if Enabled(s, script[0], processes) then Next(s, script[0]) else s, script[1..], p, processes)
  }

  /** Step i of the script, the process still not running, completes the event. */
  predicate ArrivesAt(s: State, script: seq<Step>, p: nat, processes: nat, ev: Event, i: nat)
    requires i < |script|
  {
    var t := Others(s, script[..i], p, processes);
    !Runs(t, p) && Completes(t, script[i], processes, p, ev)
  }

  /** Those are exactly the events that some step of the script completes. */
  lemma {:induction false} ArrivalsIff(s: State, script: seq<Step>, p: nat, processes: nat, ev: Event)
    ensures ev in Arrivals(s, script, p, processes) <==> exists i :: 0 <= i < |script| && ArrivesAt(s, script, p, processes, ev, i)
    decreases |script|
  {
    hide Next, Enabled, Completes;
    if script != [] && !Runs(s, p) {
      var next := if Enabled(s, script[0], processes) then Next(s, script[0]) else s;
      ArrivalsIff(next, script[1..], p, processes, ev);
      assert Others(s, script[..0], p, processes) == s;
      assert ArrivesAt(s, script, p, processes, ev, 0) <==> Completes(s, script[0], processes, p, ev);
      forall i, j | 0 < i < |script| && j == i - 1
        ensures ArrivesAt(s, script, p, processes, ev, i) <==> ArrivesAt(next, script[1..], p, processes, ev, j)
      {
        assert script[..i][1..] == script[1..][..j] && script[..i][0] == script[0];
      }
      if ev in Arrivals(next, script[1..], p, processes) {
        var j :| 0 <= j < |script[1..]| && ArrivesAt(next, script[1..], p, processes, ev, j);
        assert ArrivesAt(s, script, p, processes, ev, j + 1);
      }
      if i :| 0 <= i < |script| && ArrivesAt(s, script, p, processes, ev, i) {
        if i > 0 { assert ArrivesAt(next, script[1..], p, processes, ev, i - 1); }
      }
    } else if Runs(s, p) {
      forall i | 0 <= i < |script|
        ensures !ArrivesAt(s, script, p, processes, ev, i)
      {
        assert Others(s, script[..i], p, processes) == s;
      }
    }
  }

  /** A step does to the flags of a waiting process what it completes. */
  lemma StepFlags(s: State, step: Step, processes: nat, p: nat)
    requires SystemOk(s, processes) && Enabled(s, step, processes) && p < |s.pds| && s.pds[p].phase.InWait? && !Runs(s, p)
    ensures p < |Next(s, step).pds|
    ensures Next(s, step).pds[p].evflg == s.pds[p].evflg + set ev: Event | Completes(s, step, processes, p, ev)
  {
    hide Ok, Finish, Remove;
    StepPossible(s, step, processes);
    if step.DoFinish? {
      FinishBlocks(s);
    }
    if step.DoComplete? {
      OwnerOf(s, step.e);
      OnlyMask(s, step, processes, p);
    }
  }

  lemma OnlyMask(s: State, step: Step, processes: nat, p: nat)
    requires step.DoComplete? && Enabled(s, step, processes)
    ensures (set ev: Event | Completes(s, step, processes, p, ev))
         == if s.evbs[step.e].pd == p then {s.evbs[step.e].mask} else {}
  {
    var ev := s.evbs[step.e].mask;
  }

  /** While a process waits its flags grow by just the events that arrive. */
  lemma {:induction false} OthersFlags(s: State, script: seq<Step>, p: nat, processes: nat)
    requires SystemOk(s, processes) && p < |s.pds| && s.pds[p].phase.InWait?
    ensures var t := Others(s, script, p, processes);
            && SystemOk(t, processes) && p < |t.pds| && t.pds[p].phase == s.pds[p].phase
            && t.pds[p].evflg == s.pds[p].evflg + Arrivals(s, script, p, processes)
    decreases |script|
  {
    hide SystemOk, Next, Enabled, Steps, Completes;
    if script != [] && !Runs(s, p) {
      if Enabled(s, script[0], processes) {
        StepPossible(s, script[0], processes);
        StepKeeps(s, script[0], Next(s, script[0]), processes);
        StepStays(s, script[0], Next(s, script[0]), processes, p);
        StepFlags(s, script[0], processes, p);
        OthersFlags(Next(s, script[0]), script[1..], p, processes);
      } else {
        NoArrival(s, script[0], processes, p);
        OthersFlags(s, script[1..], p, processes);
      }
    }
  }

  lemma NoArrival(s: State, step: Step, processes: nat, p: nat)
    requires !Enabled(s, step, processes)
    ensures (set ev: Event | Completes(s, step, processes, p, ev)) == {}
  {
  }

  /** The state after asking for those of the events `evs` that are in `flags`, some of which have happened already. */
  function AskedAll(s: State, evs: seq<Event>, flags: set<Event>, happened: set<Event>): (s': State)
    ensures s'.rlr == s.rlr && |s'.pds| == |s.pds|
    decreases |evs|
  {
    if evs == [] then s
    else if evs[0] !in flags || !(s.rlr != [] && s.rlr[0] < |s.pds| && s.eul != [] && s.eul[0] < |s.evbs|)
    then AskedAll(s, evs[1..], flags, happened)
    else
      var t := Ask(s, evs[0]);
      AskedAll(if evs[0] in happened then Next(t, DoComplete(s.eul[0])) else t, evs[1..], flags, happened)
  }

  predicate AskedOne(s: State, ev: Event, happened: bool, s': State) {
    && s.rlr != [] && s.rlr[0] < |s.pds| && s.eul != [] && s.eul[0] < |s.evbs|
    && s' == (if happened then Next(Ask(s, ev), DoComplete(s.eul[0])) else Ask(s, ev))
  }

  lemma AskedNext(s: State, evs: seq<Event>, i: nat, i1: nat, flags: set<Event>, happened: set<Event>, s': State)
    requires i < |evs| && i1 == i + 1
    requires if evs[i] in flags then AskedOne(s, evs[i], evs[i] in happened, s') else s' == s
    ensures AskedAll(s, evs[i..], flags, happened) == AskedAll(s', evs[i1..], flags, happened)
  {
    hide Ask, Next;
    assert evs[i..][1..] == evs[i1..] && evs[i..][0] == evs[i];
  }

  lemma AskedEnd(s: State, evs: seq<Event>, flags: set<Event>, happened: set<Event>)
    ensures AskedAll(s, evs[|evs|..], flags, happened) == s
  {
  }

  /** What a process has of an event it asks for: the flag, if it has happened. */
  lemma AskedFlags(s: State, ev: Event, happened: bool, s': State)
    requires s.rlr != [] && s.rlr[0] < |s.pds| && s.eul != [] && s.eul[0] < |s.evbs|
    requires s' == if happened then Zombie(Ask(s, ev), s.eul[0]) else Ask(s, ev)
    ensures s.rlr[0] < |s'.pds| && s'.pds[s.rlr[0]].evflg == s.pds[s.rlr[0]].evflg + if happened then {ev} else {}
    ensures happened ==> s' == Next(Ask(s, ev), DoComplete(s.eul[0]))
  {
  }

  lemma UserFlags(s: State, processes: nat, p: nat)
    requires SystemOk(s, processes) && p < |s.pds| && s.pds[p].phase == User
    ensures s.pds[p].evflg == {}
  {
    assert FlagsOk(s.evbs, s.pds[p]);
    NoneCompleted(s.evbs);
  }

  /** The state once the current process waits for what it has asked for and the others may run. */
  function Waiting(s: State): (s': State)
    requires s.rlr != [] && s.rlr[0] < |s.pds|
  {
    if Asked(s.pds[s.rlr[0]].phase) !! s.pds[s.rlr[0]].evflg then
      var t := Schedule(Wait(s));
      if t.rlr != [] then Switch(t) else t
    else Wait(s)
  }

  /** The state once the current process waits for any of `flags`. */
  function MultiWaiting(s: State, flags: set<Event>, happened: set<Event>): (s': State)
    requires s.rlr != [] && s.rlr[0] < |s.pds|
  {
    Waiting(AskedAll(s, ORDER, flags, happened))
  }

  /** The same for one event. */
  function SingleWaiting(s: State, ev: Event, happened: bool): (s': State)
    requires s.rlr != [] && s.rlr[0] < |s.pds|
  {
    Waiting(AskedAll(s, [ev], {ev}, if happened then {ev} else {}))
  }

  lemma AskedSingle(s: State, ev: Event, happened: bool, s': State)
    requires AskedOne(s, ev, happened, s') && s'.rlr == s.rlr && |s'.pds| == |s.pds|
    ensures Waiting(s') == SingleWaiting(s, ev, happened)
  {
    hide AskedOne, Waiting;
    var flags := if happened then {ev} else {};
    AskedNext(s, [ev], 0, 1, {ev}, flags, s');
    AskedEnd(s', [ev], {ev}, flags);
    assert [ev][0..] == [ev];
  }

  lemma MayAskFirst(s: State, ev: Event)
    requires CurrentIn(s, false) && s.pds[s.rlr[0]].phase == User
    ensures MayAsk(s, ev)
  {
  }

  /** The first i events of the order have been asked for, as far as they are wanted. */
  ghost predicate AskSofar(s0: State, s: State, i: nat, asked: set<Event>, flags: set<Event>, happened: set<Event>, processes: nat) {
    && i <= |ORDER| && flags <= MULTI && SystemOk(s, processes) && CurrentIn(s, false) && s.rlr == s0.rlr
    && s.pds[s.rlr[0]].phase == (if asked == {} then User else Asking(asked))
    && (forall ev :: ev in asked <==> ev in flags && ev in ORDER[..i])
    && s.pds[s.rlr[0]].evflg == happened * asked
    && AskedAll(s, ORDER[i..], flags, happened) == AskedAll(s0, ORDER, flags, happened)
  }

  lemma AskStart(s: State, flags: set<Event>, happened: set<Event>, processes: nat)
    requires SystemOk(s, processes) && CurrentIn(s, false) && s.pds[s.rlr[0]].phase == User && flags <= MULTI
    ensures AskSofar(s, s, 0, {}, flags, happened, processes)
  {
    hide SystemOk, AskedAll;
    UserFlags(s, processes, s.rlr[0]);
    assert ORDER[0..] == ORDER && ORDER[..0] == [];
  }

  lemma AskReady(s0: State, s: State, i: nat, asked: set<Event>, flags: set<Event>, happened: set<Event>, processes: nat)
    requires AskSofar(s0, s, i, asked, flags, happened, processes) && i < |ORDER| && ORDER[i] in flags
    ensures SystemOk(s, processes) && CurrentIn(s, false) && MayAsk(s, ORDER[i])
    ensures s.pds[s.rlr[0]].phase == if asked == {} then User else Asking(asked)
  {
    hide SystemOk, AskedAll;
    OrderNext(i);
  }

  lemma AskMore(s0: State, s: State, i: nat, i1: nat, asked: set<Event>, flags: set<Event>, happened: set<Event>, processes: nat, s': State)
    requires AskSofar(s0, s, i, asked, flags, happened, processes) && i < |ORDER| && i1 == i + 1 && ORDER[i] in flags
    requires SystemOk(s', processes) && CurrentIn(s', false) && s'.rlr == s.rlr && AskedOne(s, ORDER[i], ORDER[i] in happened, s')
    requires s.rlr != [] && s.rlr[0] < |s.pds|
    requires s'.pds[s.rlr[0]].phase == Asking(asked + {ORDER[i]})
    requires s'.pds[s.rlr[0]].evflg == s.pds[s.rlr[0]].evflg + if ORDER[i] in happened then {ORDER[i]} else {}
    ensures AskSofar(s0, s', i1, asked + {ORDER[i]}, flags, happened, processes)
  {
    hide SystemOk, AskedAll, AskedOne;
    OrderNext(i);
    AskedNext(s, ORDER, i, i1, flags, happened, s');
    assert happened * (asked + {ORDER[i]}) == happened * asked + if ORDER[i] in happened then {ORDER[i]} else {};
  }

  lemma AskNot(s0: State, s: State, i: nat, i1: nat, asked: set<Event>, flags: set<Event>, happened: set<Event>, processes: nat)
    requires AskSofar(s0, s, i, asked, flags, happened, processes) && i < |ORDER| && i1 == i + 1 && ORDER[i] !in flags
    ensures AskSofar(s0, s, i1, asked, flags, happened, processes)
  {
    hide SystemOk, AskedAll;
    OrderNext(i);
    AskedNext(s, ORDER, i, i1, flags, happened, s);
  }

  lemma AskDone(s0: State, s: State, asked: set<Event>, flags: set<Event>, happened: set<Event>, processes: nat)
    requires AskSofar(s0, s, |ORDER|, asked, flags, happened, processes)
    ensures SystemOk(s, processes) && CurrentIn(s, false) && s.rlr == s0.rlr && Asked(s.pds[s.rlr[0]].phase) == flags
    ensures s == AskedAll(s0, ORDER, flags, happened) && s.pds[s.rlr[0]].evflg == happened * flags
  {
    hide SystemOk, AskedAll;
    forall ev | ev in flags
      ensures ev in asked
    {
      OrderHasAll(ev);
      assert ORDER[..|ORDER|] == ORDER;
    }
    assert asked == flags;
    AskedEnd(s, ORDER, flags, happened);
  }

  lemma WaitingFlags(s: State)
    requires s.rlr != [] && s.rlr[0] < |s.pds|
    ensures |Waiting(s).pds| == |s.pds| && Waiting(s).pds[s.rlr[0]].evflg == s.pds[s.rlr[0]].evflg
  {
  }

  // ---------- Who runs next

  /** A process gives up the processor, and the dispatcher runs for the given rounds. */
  function Turn(s: State, rounds: seq<seq<nat>>): (s': State)
    requires s.rlr != []
  {
    Switch(Rounds(Yield(s), rounds))
  }

  function Turns(s: State, turns: seq<seq<seq<nat>>>): (s': State)
    decreases |turns|
  {
    if turns == [] || s.rlr == [] then s else Turns(Turn(s, turns[0]), turns[1..])
  }

  lemma {:induction false} ForkedReady(s: State, es: seq<nat>)
    ensures Forked(s, es).rlr == s.rlr
    decreases |es|
  {
    if es != [] {
      ForkedReady(if Completable(s, es[0]) && s.evbs[es[0]].pd < |s.pds| then Zombie(s, es[0]) else s, es[1..]);
    }
  }

  /** Whoever wakes up gets in line behind those that are ready. */
  lemma {:induction false} RoundsReady(s: State, rounds: seq<seq<nat>>)
    ensures s.rlr <= Rounds(s, rounds).rlr
    decreases |rounds|
  {
    hide Forked;
    if rounds != [] {
      ForkedReady(s, rounds[0]);
      RoundsReady(Schedule(Forked(s, rounds[0])), rounds[1..]);
    }
  }

  /** The last one to wake up is the first of them. */
  lemma WokenOrder(s: State, e: nat)
    requires Ok(s) && e < |s.evbs| && e !in s.eul && s.evbs[e].pd in s.nrl && s.evbs[e].mask in s.pds[s.evbs[e].pd].evwait
    ensures Schedule(Zombie(s, e)).rlr == s.rlr + [s.evbs[e].pd] + s.drl && Schedule(Zombie(s, e)).drl == []
    ensures s.evbs[e].pd !in Zombie(s, e).nrl
  {
    hide FlagsOk, SleepOk;
    var p := s.evbs[e].pd;
    OwnerOf(s, e);
    assert s.evbs[e].mask in (s.pds[p].evflg + {s.evbs[e].mask}) * s.pds[p].evwait;
    RemoveKeeps(s.nrl, p);
    assert s.rlr + ([p] + s.drl) == s.rlr + [p] + s.drl;
  }

  /** A ready process runs once as many processes as were before it have given up the processor, whatever happens meanwhile. */
  lemma {:induction false} TurnComes(s: State, turns: seq<seq<seq<nat>>>)
    requires |turns| < |s.rlr|
    ensures var t := Turns(s, turns); t.rlr != [] && t.rlr[0] == s.rlr[|turns|]
    ensures s.rlr[|turns|..] <= Turns(s, turns).rlr
    decreases |turns|
  {
    hide Rounds;
    if turns != [] {
      var t := Turn(s, turns[0]);
      RoundsReady(Yield(s), turns[0]);
      assert s.rlr[1..] <= Yield(s).rlr <= t.rlr;
      assert t.rlr[|turns| - 1] == s.rlr[|turns|];
      TurnComes(t, turns[1..]);
      assert t.rlr[|turns| - 1..][..|s.rlr| - |turns|] == s.rlr[|turns|..];
    }
  }

  class Kernel {
    var rlr: seq<nat>
    var drl: seq<nat>
    var nrl: seq<nat>
    var eul: seq<nat>
    var pds: seq<Pd>
    var evbs: seq<Evb>
    var dispatching: bool

    function S(): (s: State)
      reads this
    {
      State(rlr, drl, nrl, eul, pds, evbs, dispatching)
    }

    /** Complete an event: set the owner's flag and, if it sleeps on the event, move it off the not-ready list. */
    method Azombie(e: nat)
      requires Ok(S()) && e < |evbs| && e !in eul
      modifies this
      ensures S() == Zombie(old(S()), e) && Ok(S()) && dispatching == old(dispatching)
    {
      hide Ok, Zombie, Remove;
      OwnerOf(S(), e);
      ZombieKeeps(S(), e);
      ZombieIs(S(), e);
      var p := evbs[e].pd;
      evbs := evbs[e := evbs[e].(complete := true)];
      var pd := pds[p].(evflg := pds[p].evflg + {evbs[e].mask});
      var i: nat := 0;
      while i < |nrl| && nrl[i] != p
        invariant i <= |nrl| && forall j :: 0 <= j < i ==> nrl[j] != p
      {
        i := i + 1;
      }
      FoundAt(nrl, i, p);
      if pd.evflg * pd.evwait != {} {
        if i < |nrl| {
          pd := pd.(waitin := false);
          RemoveAt(nrl, i);
          nrl := nrl[..i] + nrl[i + 1..];
          drl := [p] + drl;
        }
      }
      pds := pds[p := pd];
    }

    /** Ask for an event; the block goes on a wait list unless the event has happened already. */
    method Iasync(ev: Event, happened: bool, ghost processes: nat)
      requires SystemOk(S(), processes) && MayAsk(S(), ev)
      modifies this
      ensures old(eul) != [] && old(eul)[0] < |old(evbs)| && old(rlr)[0] < |old(pds)|
      ensures var s := Ask(old(S()), ev);
              && SystemOk(S(), processes) && s.evbs[old(eul)[0]].pd < |s.pds|
              && S() == if happened then Zombie(s, old(eul)[0]) else s
    {
      hide Ok;
      NoPanic(S(), ev, processes);
      FreeIsBlock(S());
      AskKeeps(S(), ev);
      var e, p := eul[0], rlr[0];
      eul := eul[1..];
      evbs := evbs[e := Evb(p, ev, false)];
      pds := pds[p := pds[p].(evlist := [e] + pds[p].evlist, phase := Asking(Asked(pds[p].phase) + {ev}))];
      assert S() == Ask(old(S()), ev);
      TakenBlock(old(S()), ev);
      if happened {
        Azombie(e);
      }
    }

    /** Cancel what is outstanding of the events `m`; the result is what could not be cancelled. */
    method Acancel(m: set<Event>) returns (m1: set<Event>)
      requires rlr != [] && rlr[0] < |pds| && forall e :: e in pds[rlr[0]].evlist ==> e < |evbs|
      modifies this
      ensures S() == Cancel(old(S()), old(rlr[0]), old(pds[rlr[0]].evlist), m)
      ensures m1 == Completed(old(evbs), old(pds[rlr[0]].evlist)) * m
    {
      hide Ok, Cancel, Completed, Remove;
      var p: nat, rest: seq<nat> := rlr[0], pds[rlr[0]].evlist;
      ghost var list: seq<nat>, done: seq<nat> := rest, [];
      m1 := {};
      NoneCompleted(evbs);
      while rest != []
        invariant evbs == old(evbs) && |pds| == |old(pds)| && list == done + rest
        invariant (forall e :: e in rest ==> e < |evbs|) && (forall e :: e in done ==> e < |evbs|)
        invariant Cancel(S(), p, rest, m) == Cancel(old(S()), p, list, m)
        invariant m1 == Completed(evbs, done) * m
        decreases |rest|
      {
        var e := rest[0];
        assert e in rest;
        ghost var before := S();
        MoreCompleted(evbs, done, e);
        if evbs[e].mask in m {
          if evbs[e].complete {
            m1 := m1 + {evbs[e].mask};
          } else {
            eul := [e] + eul;
            pds := pds[p := pds[p].(evlist := Remove(pds[p].evlist, e), evwait := pds[p].evwait - {evbs[e].mask})];
          }
        }
        CancelOne(before, p, rest, m, S());
        assert done + rest == (done + [e]) + rest[1..];
        done, rest := done + [e], rest[1..];
      }
      CancelNone(S(), p, m);
      assert done + [] == done;
    }

    /** Take the block of an event that has happened off the current process's list. */
    method ApretEvent(ev: Event)
      requires rlr != [] && rlr[0] < |pds| && forall e :: e in pds[rlr[0]].evlist ==> e < |evbs|
      modifies this
      ensures S() == Apret(old(S()), old(rlr[0]), ev)
    {
      hide Ok, Apret;
      var p: nat, i: nat := rlr[0], 0;
      var list := pds[p].evlist;
      AllBelow(list, |evbs|);
      while i < |list| && evbs[list[i]].mask != ev
        invariant i <= |list| && forall j :: 0 <= j < i ==> evbs[list[j]].mask != ev
      {
        i := i + 1;
      }
      FindMaskIs(evbs, list, ev, i);
      if i == |list| {
        ApretNone(S(), p, ev);
        return;
      }
      ApretIs(S(), p, ev, i);
      pds := pds[p := pds[p].(evlist := list[..i] + list[i + 1..], evwait := pds[p].evwait - {ev}, evflg := pds[p].evflg - {ev})];
      eul := [list[i]] + eul;
    }

    /** Move the processes that have woken up to the end of the ready list, one by one. */
    method ScheduleAll()
      requires Ok(S())
      modifies this`rlr, this`drl
      ensures S() == Schedule(old(S())) && Ok(S())
    {
      hide Ok;
      ScheduleKeeps(S());
      while drl != []
        invariant rlr + drl == old(rlr) + old(drl)
        decreases |drl|
      {
        var p := drl[0];
        drl := drl[1..];
        rlr := rlr + [p];
      }
      assert rlr + [] == rlr;
    }

    /** Run the entries of the fork ring: each completes an event. */
    method Forker(es: seq<nat>)
      requires Ok(S())
      modifies this
      ensures S() == Forked(old(S()), es) && Ok(S()) && dispatching == old(dispatching)
    {
      hide Ok, Zombie;
      var rest := es;
      while rest != []
        invariant Ok(S()) && Forked(S(), rest) == Forked(old(S()), es) && dispatching == old(dispatching)
        decreases |rest|
      {
        if Completable(S(), rest[0]) {
          OwnerOf(S(), rest[0]);
          Azombie(rest[0]);
        }
        rest := rest[1..];
      }
    }

    /** The dispatcher: the current process goes to sleep or to the end of the ready list; then, round by
        round, the fork ring is run (`rounds` says what has happened by each of them, perhaps nothing) and the
        processes that have woken up become ready; at the end, if any process is ready, the first one runs. */
    method Disp(waits: bool, rounds: seq<seq<nat>>)
      requires Ok(S()) && rlr != [] && rlr[0] < |pds| && rounds != []
      requires waits ==> CurrentIn(S(), false) && Asked(pds[rlr[0]].phase) !! pds[rlr[0]].evflg
      modifies this
      ensures Ok(S())
      ensures var s := Rounds(if waits then Wait(old(S())) else Yield(old(S())), rounds);
              S() == if s.rlr != [] then Switch(s) else s
      ensures !dispatching ==> rlr != [] && rlr[0] < |pds| && !Asleep(pds[rlr[0]])
      ensures |old(rlr)| > 1 ==> !dispatching && rlr[0] == old(rlr)[1] != old(rlr)[0]
    {
      hide Ok, Forked, Rounds;
      var p := rlr[0];
      if |rlr| > 1 { ReadyDiffer(S()); }
      if waits {
        WaitKeeps(S());
        pds := pds[p := pds[p].(evwait := Asked(pds[p].phase), phase := InWait(Asked(pds[p].phase)), waitin := true)];
        rlr := rlr[1..];
        nrl := [p] + nrl;
      } else {
        YieldKeeps(S());
        rlr := rlr[1..] + [p];
      }
      dispatching := true;
      ghost var first := S();
      var rest := rounds;
      while rest != []
        invariant Ok(S()) && Rounds(S(), rest) == Rounds(first, rounds) && dispatching
        decreases |rest|
      {
        RoundsStep(S(), rest);
        Forker(rest[0]);
        ScheduleAll();
        rest := rest[1..];
      }
      RoundsEnd(S());
      RoundsReady(first, rounds);
      if rlr != [] {
        SwitchKeeps(S());
        dispatching := false;
        ReadyIsAwake(S());
      }
    }

    /** Everything else that happens while process `p` waits, as told by `script`; true when `p` runs again. */
    method OthersRun(p: nat, script: seq<Step>, processes: nat) returns (back: bool)
      requires SystemOk(S(), processes) && p < |pds| && pds[p].phase.InWait?
      modifies this
      ensures SystemOk(S(), processes) && p < |pds| && pds[p].phase == old(pds[p].phase)
      ensures S() == Others(old(S()), script, p, processes) && back == Runs(S(), p)
    {
      hide SystemOk, Next, Enabled, Steps;
      var i: nat := 0;
      while i < |script| && !Runs(S(), p)
        invariant SystemOk(S(), processes) && p < |pds| && pds[p].phase == old(pds[p].phase) && i <= |script|
        invariant Others(S(), script[i..], p, processes) == Others(old(S()), script, p, processes)
      {
        assert script[i..][1..] == script[i + 1..];
        if Enabled(S(), script[i], processes) {
          var s := Next(S(), script[i]);
          StepPossible(S(), script[i], processes);
          StepKeeps(S(), script[i], s, processes);
          StepStays(S(), script[i], s, processes, p);
          rlr, drl, nrl, eul, pds, evbs, dispatching := s.rlr, s.drl, s.nrl, s.eul, s.pds, s.evbs, s.dispatching;
        }
        i := i + 1;
      }
      back := Runs(S(), p);
    }

    /** Wait for what has been asked for: at once if some of it has happened, otherwise through the dispatcher. */
    method Mwait(script: seq<Step>, processes: nat) returns (back: bool)
      requires SystemOk(S(), processes) && CurrentIn(S(), false)
      modifies this
      ensures var p, mask := old(rlr)[0], Asked(old(pds)[old(rlr)[0]].phase);
              && SystemOk(S(), processes) && p < |pds| && pds[p].phase == InWait(mask)
              && S() == Others(Waiting(old(S())), script, p, processes) && back == Runs(S(), p)
              && pds[p].evflg == old(pds)[p].evflg + Arrivals(Waiting(old(S())), script, p, processes)
    {
      hide SystemOk, Asleep, Others, Arrivals;
      WaitingFlags(S());
      var p := rlr[0];
      InOrder(S(), processes);
      WaitKeeps(S());
      if Asked(pds[p].phase) !! pds[p].evflg {
        DispWaits(S(), processes);
        QuietRound(Wait(S()));
        Disp(true, [[]]);
      } else {
        StepKeeps(S(), DoWait, Wait(S()), processes);
        pds := pds[p := pds[p].(evwait := Asked(pds[p].phase), phase := InWait(Asked(pds[p].phase)))];
      }
      assert S() == Waiting(old(S()));
      OthersFlags(S(), script, p, processes);
      back := OthersRun(p, script, processes);
    }

    /** Ask for one more event. */
    method AskFor(ev: Event, happened: bool, ghost asked: set<Event>, ghost processes: nat)
      requires SystemOk(S(), processes) && CurrentIn(S(), false) && MayAsk(S(), ev)
      requires pds[rlr[0]].phase == if asked == {} then User else Asking(asked)
      modifies this
      ensures SystemOk(S(), processes) && CurrentIn(S(), false) && rlr == old(rlr) && pds[rlr[0]].phase == Asking(asked + {ev})
      ensures AskedOne(old(S()), ev, happened, S())
      ensures pds[rlr[0]].evflg == old(pds)[rlr[0]].evflg + if happened then {ev} else {}
    {
      hide SystemOk, Zombie, Ask, Next, MayAsk;
      Iasync(ev, happened, processes);
      AskedNow(old(S()), ev, happened, S());
      AskedFlags(old(S()), ev, happened, S());
    }

    /** Wait for one event: ask, wait, collect. Nothing is left outstanding when the process goes on. */
    method EvBlock(ev: Event, happened: bool, script: seq<Step>, processes: nat) returns (back: bool)
      requires SystemOk(S(), processes) && CurrentIn(S(), false) && pds[rlr[0]].phase == User
      modifies this
      ensures SystemOk(S(), processes) && old(rlr)[0] < |pds|
      ensures var pd := pds[old(rlr)[0]];
              if back then Runs(S(), old(rlr)[0]) && pd.phase == User && pd.evlist == [] && pd.evflg == {} else pd.phase == InWait({ev})
      ensures var s := SingleWaiting(old(S()), ev, happened);
              && back == Runs(Others(s, script, old(rlr)[0], processes), old(rlr)[0])
              && (back ==> happened || ev in Arrivals(s, script, old(rlr)[0], processes))
    {
      hide SystemOk, Finish, Apret, Others, Arrivals, AskedAll, Waiting, SingleWaiting, MayAsk;
      var p := rlr[0];
      UserFlags(S(), processes, p);
      MayAskFirst(S(), ev);
      AskFor(ev, happened, {}, processes);
      AskedSingle(old(S()), ev, happened, S());
      back := Mwait(script, processes);
      if back {
        EndSingle(ev, processes);
      }
    }

    /** The end of a wait for one event. */
    method EndSingle(ev: Event, ghost processes: nat)
      requires SystemOk(S(), processes) && rlr != [] && rlr[0] < |pds| && Runs(S(), rlr[0]) && pds[rlr[0]].phase == InWait({ev})
      modifies this
      ensures old(pds)[old(rlr)[0]].evflg == {ev}
      ensures SystemOk(S(), processes) && rlr == old(rlr) && !dispatching && rlr[0] < |pds|
      ensures var pd := pds[rlr[0]]; pd.phase == User && pd.evlist == [] && pd.evflg == {}
    {
      hide SystemOk, Finish, Apret;
      var p := rlr[0];
      ghost var s := S();
      SingleDone(s, ev, processes);
      ApretEvent(ev);
      pds := pds[p := pds[p].(phase := User)];
      StepKeeps(s, DoFinish, S(), processes);
    }

    /** Ask for each of the events `flags`, in the order of the original. */
    method AskAll(flags: set<Event>, happened: set<Event>, ghost processes: nat)
      requires SystemOk(S(), processes) && CurrentIn(S(), false) && pds[rlr[0]].phase == User && flags <= MULTI
      modifies this
      ensures SystemOk(S(), processes) && CurrentIn(S(), false) && rlr == old(rlr) && Asked(pds[rlr[0]].phase) == flags
      ensures S() == AskedAll(old(S()), ORDER, flags, happened) && pds[rlr[0]].evflg == happened * flags
    {
      hide SystemOk, AskedAll, AskedOne, AskSofar, MayAsk;
      var i: nat := 0;
      ghost var asked: set<Event> := {};
      AskStart(S(), flags, happened, processes);
      while i < |ORDER|
        invariant i <= |ORDER| && AskSofar(old(S()), S(), i, asked, flags, happened, processes)
      {
        var ev := ORDER[i];
        ghost var before := S();
        if ev in flags {
          AskReady(old(S()), S(), i, asked, flags, happened, processes);
          AskFor(ev, ev in happened, asked, processes);
          AskMore(old(S()), before, i, i + 1, asked, flags, happened, processes, S());
          asked := asked + {ev};
        } else {
          AskNot(old(S()), S(), i, i + 1, asked, flags, happened, processes);
        }
        i := i + 1;
      }
      AskDone(old(S()), S(), asked, flags, happened, processes);
    }

    /** Collect those of the events `evs` that are in `which`, in order. */
    method CollectAll(evs: seq<Event>, which: set<Event>)
      requires rlr != [] && rlr[0] < |pds| && forall e :: e in pds[rlr[0]].evlist ==> e < |evbs|
      modifies this
      ensures S() == Collected(old(S()), old(rlr)[0], evs, which)
    {
      hide Apret, Collected;
      var p, rest := rlr[0], evs;
      while rest != []
        invariant rlr == old(rlr) && p < |pds| && forall e :: e in pds[p].evlist ==> e < |evbs|
        invariant Collected(S(), p, rest, which) == Collected(old(S()), p, evs, which)
        decreases |rest|
      {
        CollectedNext(S(), p, rest, which);
        if rest[0] in which {
          ApretBelow(S(), p, rest[0]);
          ApretEvent(rest[0]);
        }
        rest := rest[1..];
      }
      CollectedEnd(S(), p, which);
    }

    /** Wait for any of several events: ask for all, wait, cancel what is outstanding, collect what has
        happened. Nothing is left outstanding when the process goes on. */
    method EvMulti(flags: set<Event>, happened: set<Event>, script: seq<Step>, processes: nat)
      returns (back: bool, what: set<Event>)
      requires SystemOk(S(), processes) && CurrentIn(S(), false) && pds[rlr[0]].phase == User && flags <= MULTI
      modifies this
      ensures SystemOk(S(), processes) && old(rlr)[0] < |pds|
      ensures var pd := pds[old(rlr)[0]];
              if back then Runs(S(), old(rlr)[0]) && pd.phase == User && pd.evlist == [] && pd.evflg == {} else pd.phase == InWait(flags)
      ensures var s := MultiWaiting(old(S()), flags, happened);
              && back == Runs(Others(s, script, old(rlr)[0], processes), old(rlr)[0])
              && (back ==> what == happened * flags + Arrivals(s, script, old(rlr)[0], processes))
      ensures back ==> what != {} && what <= flags
    {
      hide SystemOk, Finish, Cancel, Collected, Others, Arrivals, AskedAll;
      var p := rlr[0];
      what := {};
      AskAll(flags, happened, processes);
      back := Mwait(script, processes);
      if back {
        ghost var s := S();
        MultiDone(s, flags, processes);
        what := pds[p].evflg;
        CancelRest(s, p, pds[p].evlist, flags);
        var m1 := Acancel(flags);
        what := what + m1;
        assert what == s.pds[p].evflg;
        CollectAll(ORDER, what);
        FinishIs(s, flags);
        pds := pds[p := pds[p].(phase := User)];
        StepKeeps(s, DoFinish, S(), processes);
      }
    }
  }

  lemma OrderNext(i: nat)
    requires i < |ORDER|
    ensures ORDER[i] !in ORDER[..i] && forall ev :: ev in ORDER[..i + 1] <==> ev in ORDER[..i] || ev == ORDER[i]
  {
    assert ORDER[..i + 1] == ORDER[..i] + [ORDER[i]];
  }

  lemma {:induction false} CancelRest(s: State, p: nat, list: seq<nat>, m: set<Event>)
    requires p < |s.pds| && forall e :: e in list ==> e < |s.evbs|
    ensures var s' := Cancel(s, p, list, m); s'.rlr == s.rlr && s'.dispatching == s.dispatching && s'.evbs == s.evbs && |s'.pds| == |s.pds|
    ensures forall e :: e in Cancel(s, p, list, m).pds[p].evlist ==> e in s.pds[p].evlist
    decreases |list|
  {
    if list != [] {
      var e := list[0];
      assert e in list && forall x :: x in list[1..] ==> x in list;
      if s.evbs[e].mask in m && !s.evbs[e].complete {
        var s2 := Free(s, p, e);
        CancelRest(s2.(pds := s2.pds[p := s2.pds[p].(evwait := s2.pds[p].evwait - {s.evbs[e].mask})]), p, list[1..], m);
      } else {
        CancelRest(s, p, list[1..], m);
      }
    }
  }

  lemma FinishIs(s: State, mask: set<Event>)
    requires s.rlr != [] && s.rlr[0] < |s.pds| && (forall e :: e in s.pds[s.rlr[0]].evlist ==> e < |s.evbs|)
    requires s.pds[s.rlr[0]].phase == InWait(mask)
    ensures var p := s.rlr[0]; var s2 := Collected(Cancel(s, p, s.pds[p].evlist, mask), p, ORDER, s.pds[p].evflg);
            Finish(s) == s2.(pds := s2.pds[p := s2.pds[p].(phase := User)])
  {
  }

  /** A process that runs again after a wait: what has happened is something it waited for, and
      finishing the wait leaves it nothing. */
  lemma MultiDone(s: State, mask: set<Event>, processes: nat)
    requires SystemOk(s, processes) && s.rlr != [] && Runs(s, s.rlr[0]) && s.rlr[0] < |s.pds| && s.pds[s.rlr[0]].phase == InWait(mask)
    ensures forall e :: e in s.pds[s.rlr[0]].evlist ==> e < |s.evbs|
    ensures var pd := s.pds[s.rlr[0]]; pd.evflg != {} && pd.evflg <= mask && pd.evflg == Completed(s.evbs, pd.evlist)
    ensures var pd := Finish(s).pds[s.rlr[0]]; pd.evlist == [] && pd.evflg == {} && pd.phase == User
    ensures Finish(s).rlr == s.rlr && !Finish(s).dispatching && |Finish(s).pds| == |s.pds|
  {
    hide ListsOk, SleepOk, EvbsOk, Finish;
    var pd := s.pds[s.rlr[0]];
    assert FlagsOk(s.evbs, pd);
    ReadyIsAwake(s);
    FinishBlocks(s);
    forall ev | ev in pd.evflg
      ensures ev in mask
    {
      var e :| e in pd.evlist && s.evbs[e].complete && s.evbs[e].mask == ev;
      assert s.evbs[e].mask in Masks(s.evbs, pd.evlist);
    }
  }

  lemma InOrder(s: State, processes: nat)
    requires SystemOk(s, processes)
    ensures Ok(s)
  {
  }

  /** Going to sleep through the dispatcher is a wait, a schedule and perhaps a switch. */
  lemma DispWaits(s: State, processes: nat)
    requires SystemOk(s, processes) && CurrentIn(s, false) && Asked(s.pds[s.rlr[0]].phase) !! s.pds[s.rlr[0]].evflg
    ensures var t := Schedule(Wait(s));
            SystemOk(t, processes) && (t.rlr != [] ==> SystemOk(Switch(t), processes))
  {
    hide Ok;
    StepKeeps(s, DoWait, Wait(s), processes);
    StepKeeps(Wait(s), DoSchedule, Schedule(Wait(s)), processes);
    var t := Schedule(Wait(s));
    if t.rlr != [] {
      StepKeeps(t, DoSwitch, Switch(t), processes);
    }
  }

  /** What asking for an event leaves of the current process. */
  lemma AskedNow(s: State, ev: Event, happened: bool, s': State)
    requires s.rlr != [] && s.rlr[0] < |s.pds| && s.eul != [] && s.eul[0] < |s.evbs| && !s.dispatching
    requires s' == if happened then Zombie(Ask(s, ev), s.eul[0]) else Ask(s, ev)
    ensures s'.rlr == s.rlr && !s'.dispatching && |s'.pds| == |s.pds|
    ensures s'.pds[s.rlr[0]].phase == Asking(Asked(s.pds[s.rlr[0]].phase) + {ev})
  {
  }

  lemma {:induction false} CancelComplete(s: State, p: nat, list: seq<nat>, m: set<Event>)
    requires p < |s.pds| && forall e :: e in list ==> e < |s.evbs| && s.evbs[e].complete
    ensures Cancel(s, p, list, m) == s
    decreases |list|
  {
    if list != [] {
      assert list[0] in list && forall x :: x in list[1..] ==> x in list;
      CancelComplete(s, p, list[1..], m);
    }
  }

  lemma {:induction false} CollectedNone(s: State, p: nat, evs: seq<Event>, which: set<Event>)
    requires p < |s.pds| && (forall e :: e in s.pds[p].evlist ==> e < |s.evbs|) && forall ev :: ev in evs ==> ev !in which
    ensures Collected(s, p, evs, which) == s
    decreases |evs|
  {
    if evs != [] {
      assert evs[0] in evs && forall x :: x in evs[1..] ==> x in evs;
      CollectedNone(s, p, evs[1..], which);
    }
  }

  lemma {:induction false} CollectedSingle(s: State, p: nat, evs: seq<Event>, ev: Event)
    requires p < |s.pds| && (forall e :: e in s.pds[p].evlist ==> e < |s.evbs|)
    requires ev in evs && forall i, j :: 0 <= i < j < |evs| ==> evs[i] != evs[j]
    ensures Collected(s, p, evs, {ev}) == Apret(s, p, ev)
    decreases |evs|
  {
    hide Apret;
    var t := evs[1..];
    assert evs == [evs[0]] + t && forall i :: 0 <= i < |t| ==> t[i] == evs[i + 1];
    if evs[0] == ev {
      ApretBelow(s, p, ev);
      CollectedNone(Apret(s, p, ev), p, t, {ev});
    } else {
      CollectedSingle(s, p, t, ev);
    }
  }

  lemma CollectedNext(s: State, p: nat, evs: seq<Event>, which: set<Event>)
    requires p < |s.pds| && (forall e :: e in s.pds[p].evlist ==> e < |s.evbs|) && evs != []
    ensures var s' := if evs[0] in which then Apret(s, p, evs[0]) else s;
            && p < |s'.pds| && (forall e :: e in s'.pds[p].evlist ==> e < |s'.evbs|)
            && Collected(s, p, evs, which) == Collected(s', p, evs[1..], which)
  {
    hide Apret;
    ApretBelow(s, p, evs[0]);
  }

  lemma CollectedEnd(s: State, p: nat, which: set<Event>)
    requires p < |s.pds| && forall e :: e in s.pds[p].evlist ==> e < |s.evbs|
    ensures Collected(s, p, [], which) == s
  {
  }

  lemma ApretBelow(s: State, p: nat, ev: Event)
    requires p < |s.pds| && forall e :: e in s.pds[p].evlist ==> e < |s.evbs|
    ensures var s' := Apret(s, p, ev); s'.rlr == s.rlr && p < |s'.pds| && forall e :: e in s'.pds[p].evlist ==> e < |s'.evbs|
  {
  }

  /** A process that runs again after a wait for one event: collecting it is all there is to do. */
  lemma SingleDone(s: State, ev: Event, processes: nat)
    requires SystemOk(s, processes) && s.rlr != [] && Runs(s, s.rlr[0]) && s.rlr[0] < |s.pds| && s.pds[s.rlr[0]].phase == InWait({ev})
    ensures forall e :: e in s.pds[s.rlr[0]].evlist ==> e < |s.evbs|
    ensures var p, t := s.rlr[0], Apret(s, s.rlr[0], ev);
            Finish(s) == t.(pds := t.pds[p := t.pds[p].(phase := User)])
    ensures var pd := Finish(s).pds[s.rlr[0]]; pd.evlist == [] && pd.evflg == {} && pd.phase == User
    ensures Finish(s).rlr == s.rlr && !Finish(s).dispatching && |Finish(s).pds| == |s.pds|
    ensures s.pds[s.rlr[0]].evflg == {ev}
  {
    hide ListsOk, SleepOk, EvbsOk, Cancel, Collected, Apret;
    var p, pd := s.rlr[0], s.pds[s.rlr[0]];
    ReadyIsAwake(s);
    SingleComplete(s, ev);
    CancelComplete(s, p, pd.evlist, {ev});
    assert ev in ORDER by { OrderHasAll(ev); }
    CollectedSingle(s, p, ORDER, ev);
    FinishBlocks(s);
  }

  lemma SingleComplete(s: State, ev: Event)
    requires Ok(s) && s.rlr != [] && s.rlr[0] < |s.pds| && s.pds[s.rlr[0]].phase == InWait({ev}) && !Asleep(s.pds[s.rlr[0]])
    ensures s.pds[s.rlr[0]].evflg == {ev}
    ensures forall e :: e in s.pds[s.rlr[0]].evlist ==> e < |s.evbs| && s.evbs[e].complete
  {
    hide ListsOk, SleepOk, EvbsOk;
    var pd := s.pds[s.rlr[0]];
    assert FlagsOk(s.evbs, pd);
    forall e | e in pd.evlist
      ensures s.evbs[e].mask == ev
    {
      assert s.evbs[e].mask in Masks(s.evbs, pd.evlist);
    }
  }

  lemma ReadyDiffer(s: State)
    requires Ok(s) && |s.rlr| > 1
    ensures s.rlr[0] != s.rlr[1]
  {
  }

  lemma OwnerOf(s: State, e: nat)
    requires Ok(s) && e < |s.evbs| && e !in s.eul
    ensures s.evbs[e].pd < |s.pds|
  {
  }

  lemma FreeIsBlock(s: State)
    requires Ok(s) && s.eul != []
    ensures s.eul[0] < |s.evbs|
  {
    assert s.eul[0] in s.eul;
  }

  lemma TakenBlock(s: State, ev: Event)
    requires Ok(s) && s.rlr != [] && s.rlr[0] < |s.pds| && s.eul != [] && s.eul[0] < |s.evbs|
    ensures s.eul[0] !in Ask(s, ev).eul
  {
    TailNoDups(s.eul);
  }

  lemma CancelNone(s: State, p: nat, m: set<Event>)
    requires p < |s.pds|
    ensures Cancel(s, p, [], m) == s
  {
  }

  lemma NoneCompleted(evbs: seq<Evb>)
    ensures Completed(evbs, []) == {}
  {
  }

  lemma MoreCompleted(evbs: seq<Evb>, list: seq<nat>, e: nat)
    requires (forall x :: x in list ==> x < |evbs|) && e < |evbs|
    ensures forall x :: x in list + [e] ==> x < |evbs|
    ensures Completed(evbs, list + [e]) == Completed(evbs, list) + if evbs[e].complete then {evbs[e].mask} else {}
  {
    var l := list + [e];
    assert forall x :: x in l <==> x in list || x == e;
  }

  lemma ReadyIsAwake(s: State)
    requires Ok(s) && s.rlr != []
    ensures s.rlr[0] < |s.pds| && !Asleep(s.pds[s.rlr[0]])
  {
    HeadAwake(s);
  }
}
