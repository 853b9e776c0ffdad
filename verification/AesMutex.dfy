/** The window update lock: a counting mutex its owner may take again, with a list of waiters. */
module AesMutex {
  import opened Basics

  datatype Owner = Nobody | By(pid: nat)

  /** The synchronisation block: nesting count, owner, and the processes waiting, next one first. */
  datatype Spb = Spb(tas: int, owner: Owner, wait: seq<nat>)

  /** The lock and, for each process, how many times it has been let in and not yet left. */
  datatype State = State(spb: Spb, inside: seq<nat>)

  // ---- Operations on values

  /** Count up; count back down when someone else has it. */
  function Take(y: Spb, p: nat): (r: Spb) {
    if y.owner != By(p) && y.tas + 1 != 1 then y else y.(tas := y.tas + 1, owner := By(p))
  }

  /** `wind_update(BEG_UPDATE)`: take the lock, or queue in front of the other waiters. */
  function Lock(s: State, p: nat): (r: State)
    requires p < |s.inside|
  {
    var y := Take(s.spb, p);
    if y.owner == By(p) then State(y, s.inside[p := s.inside[p] + 1])
    else s.(spb := y.(wait := [p] + y.wait))
  }

  /** Give the lock to the first waiter, if there is one. */
  function Pass(y: Spb): (r: Spb) {
    if y.wait == [] then y.(owner := Nobody) else Spb(1, By(y.wait[0]), y.wait[1..])
  }

  function Release(y: Spb): (r: Spb) {
    if y.tas <= 0 then y.(tas := 0)
    else if y.tas == 1 then Pass(y.(tas := 0))
    else y.(tas := y.tas - 1)
  }

  function Bump(inside: seq<nat>, p: nat): (r: seq<nat>) {
    if p < |inside| then inside[p := inside[p] + 1] else inside
  }

  /** `wind_update(END_UPDATE)` called by process q. */
  function Unlock(s: State, q: nat): (r: State)
    requires q < |s.inside|
  {
    var y := Release(s.spb);
    var left := s.inside[q := if s.inside[q] > 0 then s.inside[q] - 1 else 0];
    State(y, if s.spb.tas == 1 && s.spb.wait != [] then Bump(left, s.spb.wait[0]) else left)
  }

  // ---- What every step keeps

  /** The count is the owner's nesting depth, nobody else is inside, and only a held lock is waited for. */
  predicate Ok(s: State) {
    var y := s.spb;
    && y.tas >= 0
    && (y.tas == 0 <==> y.owner == Nobody)
    && (y.owner.By? ==> y.owner.pid < |s.inside| && s.inside[y.owner.pid] == y.tas && y.owner.pid !in y.wait)
    && (forall q :: 0 <= q < |s.inside| && By(q) != y.owner ==> s.inside[q] == 0)
    && (y.wait != [] ==> y.owner.By?)
    && NoDups(y.wait) && (forall i :: 0 <= i < |y.wait| ==> y.wait[i] < |s.inside|)
  }

  /** At most one process is inside. */
  lemma MutualExclusion(s: State, p: nat, q: nat)
    requires Ok(s) && p < |s.inside| && q < |s.inside| && s.inside[p] > 0 && s.inside[q] > 0
    ensures p == q && s.spb.owner == By(p)
  {
    assert By(p) == s.spb.owner;
  }

  lemma LockKeeps(s: State, p: nat)
    requires Ok(s) && p < |s.inside| && p !in s.spb.wait
    ensures Ok(Lock(s, p))
    ensures Lock(s, p).inside[p] > s.inside[p] <==> s.spb.owner == Nobody || s.spb.owner == By(p)
  {
    var t := Lock(s, p);
    if t.spb.wait != s.spb.wait {
      assert forall i :: 1 <= i < |t.spb.wait| ==> t.spb.wait[i] == s.spb.wait[i - 1] && t.spb.wait[i] in s.spb.wait;
    }
  }

  /** A release by the last holder lets the first waiter in, at depth one. */
  lemma HandOver(s: State)
    requires Ok(s) && s.spb.tas == 1 && s.spb.wait != []
    ensures var t := Unlock(s, s.spb.owner.pid); var w := s.spb.wait[0];
      && Ok(t) && t.spb.owner == By(w) && t.spb.tas == 1 && t.inside[w] == 1
      && t.inside[s.spb.owner.pid] == 0 && t.spb.wait == s.spb.wait[1..]
  {
    var o, w := s.spb.owner.pid, s.spb.wait[0];
    assert w in s.spb.wait && w != o;
    var t := Unlock(s, o);
    var rest := s.spb.wait[1..];
    assert forall i :: 0 <= i < |rest| ==> rest[i] == s.spb.wait[i + 1];
    assert w !in rest;
  }

  /** Leaving is in order exactly when it is the owner who leaves, or nobody is inside. */
  lemma UnlockKeepsIff(s: State, q: nat)
    requires Ok(s) && q < |s.inside|
    ensures Ok(Unlock(s, q)) <==> s.spb.owner == Nobody || s.spb.owner == By(q)
  {
    var y, t := s.spb, Unlock(s, q);
    if y.owner == By(q) {
      if y.tas == 1 && y.wait != [] {
        HandOver(s);
      }
    } else if y.owner.By? {
      var o := y.owner.pid;
      assert t.inside[o] >= s.inside[o] == y.tas;
      if y.tas == 1 && y.wait != [] {
        assert y.wait[0] in y.wait;
        assert t.spb.owner != By(o) && t.inside[o] > 0;
      }
    }
  }

  /** Someone else's `wind_update(END_UPDATE)` lets a second process in beside the owner. */
  lemma StrayUnlock()
    ensures var s := State(Spb(1, By(0), [1]), [1, 0, 0]);
      Ok(s) && Unlock(s, 2).inside == [1, 1, 0]
  {
  }

  /** Requests that are granted or waiting: one more with each lock, one less with each unlock. */
  function Outstanding(s: State): (r: int) { s.spb.tas + |s.spb.wait| }

  lemma LockAdds(s: State, p: nat)
    requires Ok(s) && p < |s.inside|
    ensures Outstanding(Lock(s, p)) == Outstanding(s) + 1
  {
  }

  lemma UnlockTakes(s: State, q: nat)
    requires Ok(s) && q < |s.inside| && s.spb.owner != Nobody
    ensures Outstanding(Unlock(s, q)) == Outstanding(s) - 1
  {
  }

  // ---- Runs

  datatype Op = DoLock(pid: nat) | DoUnlock(pid: nat)

  function Step(s: State, op: Op): (r: State) {
    if op.pid >= |s.inside| then s
    else if op.DoLock? then Lock(s, op.pid) else Unlock(s, op.pid)
  }

  /** A waiting process does nothing, and only the owner unlocks. */
  predicate Proper(s: State, op: Op) {
    && op.pid < |s.inside| && op.pid !in s.spb.wait
    && (op.DoUnlock? ==> s.spb.owner == By(op.pid))
  }

  predicate ProperRun(s: State, ops: seq<Op>)
    decreases |ops|
  {
    ops == [] || (Proper(s, ops[0]) && ProperRun(Step(s, ops[0]), ops[1..]))
  }

  function Run(s: State, ops: seq<Op>): (r: State)
    decreases |ops|
  {
    if ops == [] then s else Run(Step(s, ops[0]), ops[1..])
  }

  function Balance(ops: seq<Op>): (r: int)
    decreases |ops|
  {
    if ops == [] then 0 else (if ops[0].DoLock? then 1 else -1) + Balance(ops[1..])
  }

  /** Over every proper run the lock stays in order, and no request is lost or granted twice. */
  lemma {:induction false} RunKeeps(s: State, ops: seq<Op>)
    requires Ok(s) && ProperRun(s, ops)
    ensures Ok(Run(s, ops)) && Outstanding(Run(s, ops)) == Outstanding(s) + Balance(ops)
    decreases |ops|
  {
    hide Ok, Lock, Unlock;
    if ops != [] {
      var op := ops[0];
      if op.DoLock? {
        LockKeeps(s, op.pid);
        LockAdds(s, op.pid);
      } else {
        UnlockKeepsIff(s, op.pid);
        UnlockTakes(s, op.pid);
      }
      RunKeeps(Step(s, op), ops[1..]);
    }
  }

  /** The requests of one process that are granted or waiting. */
  function Requests(s: State, p: nat): (r: nat)
    requires p < |s.inside|
  {
    s.inside[p] + if p in s.spb.wait then 1 else 0
  }

  lemma LockRequests(s: State, q: nat, p: nat)
    requires Ok(s) && q < |s.inside| && p < |s.inside| && q !in s.spb.wait
    ensures Requests(Lock(s, q), p) == Requests(s, p) + if p == q then 1 else 0
  {
  }

  lemma UnlockRequests(s: State, q: nat, p: nat)
    requires Ok(s) && q < |s.inside| && p < |s.inside| && s.spb.owner == By(q)
    ensures Requests(Unlock(s, q), p) == Requests(s, p) - if p == q then 1 else 0
  {
    var y := s.spb;
    if y.tas == 1 && y.wait != [] {
      var w, rest := y.wait[0], y.wait[1..];
      assert forall i :: 0 <= i < |rest| ==> rest[i] == y.wait[i + 1];
      assert w in y.wait && w !in rest && (p in y.wait <==> p == w || p in rest);
    }
  }

  /** What the operations of one process add up to. */
  function BalanceOf(ops: seq<Op>, p: nat): (r: int)
    decreases |ops|
  {
    if ops == [] then 0
    else (if ops[0].pid != p then 0 else if ops[0].DoLock? then 1 else -1) + BalanceOf(ops[1..], p)
  }

  /** Over every proper run, process by process: what it has asked for and not given back is granted or waits. */
  lemma {:induction false} RunRequests(s: State, ops: seq<Op>, p: nat)
    requires Ok(s) && ProperRun(s, ops) && p < |s.inside|
    ensures |Run(s, ops).inside| == |s.inside| && Requests(Run(s, ops), p) == Requests(s, p) + BalanceOf(ops, p)
    decreases |ops|
  {
    hide Ok, Lock, Unlock, Requests;
    if ops != [] {
      var op := ops[0];
      if op.DoLock? {
        LockKeeps(s, op.pid);
        LockRequests(s, op.pid, p);
      } else {
        UnlockKeepsIff(s, op.pid);
        UnlockRequests(s, op.pid, p);
      }
      SameSize(s, op);
      RunRequests(Step(s, op), ops[1..], p);
    }
  }

  lemma SameSize(s: State, op: Op)
    ensures |Step(s, op).inside| == |s.inside|
  {
  }

  /** Unlocks by whoever is the owner, n times. */
  function Drained(s: State, n: nat): (r: State)
    decreases n
  {
    if n == 0 || s.spb.owner == Nobody || s.spb.owner.pid >= |s.inside| then s
    else Drained(Unlock(s, s.spb.owner.pid), n - 1)
  }

  /** As many unlocks as there are requests serve every waiter and free the lock. */
  lemma {:induction false} DrainFrees(s: State)
    requires Ok(s)
    ensures var t := Drained(s, Outstanding(s)); Ok(t) && t.spb == Spb(0, Nobody, [])
    decreases Outstanding(s)
  {
    hide Lock, Unlock;
    if s.spb.owner != Nobody {
      var o := s.spb.owner.pid;
      UnlockKeepsIff(s, o);
      UnlockTakes(s, o);
      DrainFrees(Unlock(s, o));
    }
  }

  // ---- The routines

  class Mutex {
    var tas: int
    var owner: Owner
    var wait: seq<nat>
    ghost var inside: seq<nat>

    ghost function S(): (r: State)
      reads this
    {
      State(Spb(tas, owner, wait), inside)
    }

    constructor (n: nat)
      ensures Ok(S()) && |inside| == n && S().spb == Spb(0, Nobody, [])
    {
      tas, owner, wait, inside := 0, Nobody, [], seq(n, i => 0);
    }

    /** Try to take the lock for the running process. */
    method TakFlag(p: nat) returns (got: bool)
      requires Ok(S())
      modifies this`tas, this`owner
      ensures S().spb == Take(old(S()).spb, p)
      ensures got == (old(owner) == Nobody || old(owner) == By(p)) && got == (owner == By(p))
    {
      tas := tas + 1;
      if owner != By(p) && tas != 1 {
        tas := tas - 1;
      } else {
        owner := By(p);
      }
      got := owner == By(p);
    }

    /** The waiting side of the lock: try once more, then join the list. */
    method Amutex(p: nat) returns (done: bool)
      requires Ok(S()) && p < |inside|
      modifies this
      ensures S() == Lock(old(S()), p)
      ensures done == (owner == By(p))
    {
      done := TakFlag(p);
      if done {
        inside := inside[p := inside[p] + 1];
      } else {
        wait := [p] + wait;
      }
    }

    /** Give the lock back on behalf of process q; `woken` is the process that gets it. */
    method Unsync(q: nat) returns (woken: Owner)
      requires Ok(S()) && q < |inside|
      modifies this
      ensures S() == Unlock(old(S()), q)
      ensures woken == if old(tas) == 1 && old(wait) != [] then By(old(wait)[0]) else Nobody
    {
      woken := Nobody;
      inside := inside[q := if inside[q] > 0 then inside[q] - 1 else 0];
      if tas <= 0 {
        tas := 0;
        return;
      }
      tas := tas - 1;
      if tas == 0 {
        if wait != [] {
          woken, owner := By(wait[0]), By(wait[0]);
          inside := Bump(inside, wait[0]);
          tas, wait := 1, wait[1..];
        } else {
          owner := Nobody;
        }
      }
    }

    /** `wind_update` for the running process; `waits` says that it has to stop until the lock is passed to it. */
    method WmUpdate(p: nat, begin: bool) returns (waits: bool)
      requires Ok(S()) && p < |inside| && p !in wait
      modifies this
      ensures Ok(S()) <==> begin || old(owner) == By(p) || old(owner) == Nobody
      ensures S() == if begin then Lock(old(S()), p) else Unlock(old(S()), p)
      ensures waits == (begin && old(owner) != Nobody && old(owner) != By(p)) && waits == (p in wait)
      ensures begin && !waits ==> owner == By(p) && inside[p] == old(inside)[p] + 1
    {
      waits := false;
      if begin {
        LockKeeps(S(), p);
        var got := TakFlag(p);
        if got {
          inside := inside[p := inside[p] + 1];
        } else {
          var done := Amutex(p);
          waits := !done;
          assert wait == [p] + old(wait);
        }
      } else {
        UnlockKeepsIff(S(), p);
        var woken := Unsync(p);
        assert wait == old(wait) || (old(wait) != [] && wait == old(wait)[1..]);
      }
    }
  }
}
