/** The delay list: timers kept as differences from the timer before them. */
module AesTimer {

  /** An event block on the delay list: `parm` is the wait beyond the block in front of it. */
  datatype Timer = Timer(id: nat, parm: int)

  function Ids(l: seq<Timer>): (r: set<nat>) {
    set i | 0 <= i < |l| :: l[i].id
  }

  /** No block is listed twice, and behind the first one no wait is negative. */
  predicate Ok(l: seq<Timer>) {
    && (forall i, j :: 0 <= i < j < |l| ==> l[i].id != l[j].id)
    && (forall i :: 0 < i < |l| ==> l[i].parm >= 0)
  }

  /** The time block `id` still has to wait: the sum of the waits up to and including its own. */
  function Due(l: seq<Timer>, id: nat): (r: int)
    requires id in Ids(l)
    decreases l
  {
    if l[0].id == id then l[0].parm
    else
      assert forall i :: 1 <= i < |l| ==> l[i] == l[1..][i - 1];
      l[0].parm + Due(l[1..], id)
  }

  // ---- Operations on values

  /** Insert with total wait c, after all shorter waits. */
  function Insert(l: seq<Timer>, id: nat, c: int): (r: seq<Timer>)
    decreases l
  {
    if l == [] then [Timer(id, c)]
    else if c <= l[0].parm then [Timer(id, c), l[0].(parm := l[0].parm - c)] + l[1..]
    else [l[0]] + Insert(l[1..], id, c - l[0].parm)
  }

  /** Take a block off, leaving its wait to the block behind it. */
  function Drop(l: seq<Timer>, i: nat): (r: seq<Timer>)
    requires i < |l|
  {
    if i + 1 < |l| then l[..i] + [l[i + 1].(parm := l[i + 1].parm + l[i].parm)] + l[i + 2..] else l[..i]
  }

  /** Let c ticks go by. */
  function Tick(l: seq<Timer>, c: int): (r: seq<Timer>)
    decreases l
  {
    if l == [] then []
    else if l[0].parm <= c then Tick(l[1..], c - l[0].parm)
    else [l[0].(parm := l[0].parm - c)] + l[1..]
  }

  // ---- What they do to the waiting times

  lemma IdsTail(l: seq<Timer>)
    requires l != []
    ensures Ids(l) == {l[0].id} + Ids(l[1..])
    ensures Ok(l) ==> Ok(l[1..]) && l[0].id !in Ids(l[1..])
  {
    assert forall i :: 1 <= i < |l| ==> l[i] == l[1..][i - 1];
  }

  lemma IdsHead(t: Timer, l: seq<Timer>)
    ensures Ids([t] + l) == {t.id} + Ids(l)
  {
    IdsTail([t] + l);
    assert ([t] + l)[1..] == l;
  }

  lemma DueHead(t: Timer, l: seq<Timer>, id: nat)
    requires id in Ids([t] + l)
    ensures id != t.id ==> id in Ids(l)
    ensures Due([t] + l, id) == if id == t.id then t.parm else t.parm + Due(l, id)
  {
    IdsHead(t, l);
    assert ([t] + l)[1..] == l;
  }

  lemma OkHead(t: Timer, l: seq<Timer>)
    requires Ok(l) && t.id !in Ids(l) && (l != [] ==> l[0].parm >= 0)
    ensures Ok([t] + l)
  {
    var r := [t] + l;
    assert forall i :: 1 <= i < |r| ==> r[i] == l[i - 1] && r[i].id in Ids(l);
  }

  /** The first timer is due first. */
  lemma {:induction false} DueLeast(l: seq<Timer>, id: nat)
    requires Ok(l) && id in Ids(l)
    ensures Due(l, id) >= l[0].parm
    decreases l
  {
    if l[0].id != id {
      IdsTail(l);
      DueLeast(l[1..], id);
      assert l[1].parm >= 0;
    }
  }

  /** Starting a timer sets its own wait and leaves every other wait alone. */
  lemma {:induction false} InsertDue(l: seq<Timer>, id: nat, c: int, k: nat)
    requires id !in Ids(l) && Ok(l)
    ensures Ids(Insert(l, id, c)) == Ids(l) + {id}
    ensures k == id ==> Due(Insert(l, id, c), k) == c
    ensures k in Ids(l) ==> Due(Insert(l, id, c), k) == Due(l, k)
    decreases l
  {
    hide Due, Ids, Ok;
    if l == [] {
      IdsHead(Timer(id, c), []);
      DueHead0(Timer(id, c));
      NoIds();
      assert [Timer(id, c)] == [Timer(id, c)] + [];
    } else {
      var h, t := l[0], l[1..];
      assert l == [h] + t;
      IdsHead(h, t);
      if k in Ids(l) {
        DueHead(h, t, k);
      }
      if c <= h.parm {
        var a, b := Timer(id, c), h.(parm := h.parm - c);
        assert Insert(l, id, c) == [a] + ([b] + t);
        IdsHead(a, [b] + t);
        IdsHead(b, t);
        if k in Ids(l) + {id} {
          DueHead(a, [b] + t, k);
          if k != id {
            DueHead(b, t, k);
          }
        }
      } else {
        IdsTail(l);
        InsertDue(t, id, c - h.parm, k);
        IdsHead(h, Insert(t, id, c - h.parm));
        if k in Ids(l) + {id} {
          DueHead(h, Insert(t, id, c - h.parm), k);
        }
      }
    }
  }

  lemma NoIds()
    ensures Ids([]) == {}
  {
  }

  lemma DueHead0(t: Timer)
    ensures t.id in Ids([t]) && Due([t], t.id) == t.parm
  {
    assert [t][0].id in Ids([t]);
  }

  lemma OkOne(t: Timer)
    ensures Ok([t])
  {
  }

  lemma OkNext(l: seq<Timer>)
    requires Ok(l) && l != []
    ensures l[1..] != [] ==> l[1..][0].parm >= 0
  {
  }

  lemma {:induction false} InsertOk(l: seq<Timer>, id: nat, c: int)
    requires id !in Ids(l) && Ok(l)
    ensures Ok(Insert(l, id, c))
    ensures l != [] && l[0].parm >= 0 && c >= 0 ==> Insert(l, id, c)[0].parm >= 0
    decreases l
  {
    hide Ids, Ok;
    if l == [] {
      OkOne(Timer(id, c));
    } else {
      var h, t := l[0], l[1..];
      IdsTail(l);
      OkNext(l);
      if c <= h.parm {
        var a, b := Timer(id, c), h.(parm := h.parm - c);
        assert Insert(l, id, c) == [a] + ([b] + t);
        OkHead(b, t);
        IdsHead(b, t);
        OkHead(a, [b] + t);
      } else {
        InsertOk(t, id, c - h.parm);
        InsertDue(t, id, c - h.parm, id);
        OkHead(h, Insert(t, id, c - h.parm));
      }
    }
  }

  lemma DropStep(l: seq<Timer>, i: nat)
    requires 0 < i < |l|
    ensures Drop(l, i) == [l[0]] + Drop(l[1..], i - 1) && l[1..][i - 1] == l[i]
  {
    var t := l[1..];
    assert [l[0]] + t[..i - 1] == l[..i];
    if i + 1 < |l| {
      assert t[i] == l[i + 1] && t[i + 1..] == l[i + 2..];
    }
  }

  /** Taking a timer off leaves every other wait alone. */
  lemma {:induction false} DropDue(l: seq<Timer>, i: nat, k: nat)
    requires Ok(l) && i < |l|
    ensures Ok(Drop(l, i)) && Ids(Drop(l, i)) == Ids(l) - {l[i].id}
    ensures k in Ids(l) && k != l[i].id ==> Due(Drop(l, i), k) == Due(l, k)
    decreases i
  {
    hide Due, Ids;
    var h, t := l[0], l[1..];
    assert l == [h] + t;
    IdsTail(l);
    if k in Ids(l) {
      DueHead(h, t, k);
    }
    if i > 0 {
      DropStep(l, i);
      DropDue(t, i - 1, k);
      DropFirst(t, i - 1);
      OkHead(h, Drop(t, i - 1));
      IdsHead(h, Drop(t, i - 1));
      AnId(t, i - 1);
      if k in Ids(l) && k != l[i].id {
        DueHead(h, Drop(t, i - 1), k);
      }
    } else if |l| > 1 {
      DropHeadDue(l, k);
    } else {
      NoIds();
      assert t == [] && Drop(l, 0) == [];
    }
  }

  lemma DropHeadDue(l: seq<Timer>, k: nat)
    requires Ok(l) && |l| > 1
    ensures Ok(Drop(l, 0)) && Ids(Drop(l, 0)) == Ids(l) - {l[0].id}
    ensures k in Ids(l) && k != l[0].id ==> Due(Drop(l, 0), k) == Due(l, k)
  {
    hide Due, Ids;
    var h, t := l[0], l[1..];
    assert l == [h] + t;
    IdsTail(l);
    if k in Ids(l) {
      DueHead(h, t, k);
    }
    var n, u := l[1], l[2..];
    assert t == [n] + u;
    var m := n.(parm := n.parm + h.parm);
    assert Drop(l, 0) == [m] + u;
    IdsTail(t);
    assert t[1..] == u;
    IdsHead(m, u);
    OkHead(m, u);
    if k in Ids(l) && k != h.id {
      DueHead(n, u, k);
      DueHead(m, u, k);
    }
  }

  lemma AnId(l: seq<Timer>, i: nat)
    requires i < |l|
    ensures l[i].id in Ids(l)
  {
  }

  /** Behind another block, what comes first after a removal still waits no negative time. */
  lemma DropFirst(l: seq<Timer>, i: nat)
    requires Ok(l) && i < |l|
    ensures Drop(l, i) != [] && l[0].parm >= 0 ==> Drop(l, i)[0].parm >= 0
  {
  }

  /** After c ticks exactly the timers due later are left, each due c sooner. */
  lemma {:induction false} TickDue(l: seq<Timer>, c: int, k: nat)
    requires Ok(l)
    ensures Ok(Tick(l, c))
    ensures k in Ids(Tick(l, c)) <==> k in Ids(l) && Due(l, k) > c
    ensures k in Ids(Tick(l, c)) ==> Due(Tick(l, c), k) == Due(l, k) - c
    decreases l
  {
    hide Due, Ids;
    if l == [] {
      NoIds();
    } else {
      var h, t := l[0], l[1..];
      assert l == [h] + t;
      IdsTail(l);
      if k in Ids(l) {
        DueHead(h, t, k);
        DueLeast(l, k);
      }
      if h.parm <= c {
        TickDue(t, c - h.parm, k);
      } else {
        var m := h.(parm := h.parm - c);
        IdsHead(m, t);
        if k in Ids(l) {
          DueHead(m, t, k);
        }
        if t != [] {
          assert t[0] == l[1];
        }
        OkHead(m, t);
      }
    }
  }

  /** Ticks may be reported in one go or in two. */
  lemma {:induction false} TickTick(l: seq<Timer>, a: int, b: int)
    requires b >= 0
    ensures Tick(Tick(l, a), b) == Tick(l, a + b)
    decreases l
  {
    if l != [] {
      if l[0].parm <= a {
        TickTick(l[1..], a - l[0].parm, b);
      } else {
        var m := [l[0].(parm := l[0].parm - a)] + l[1..];
        assert m[1..] == l[1..];
      }
    }
  }

  /** Where a timer with total wait c goes in. */
  function Place(l: seq<Timer>, c: int): (r: nat)
    decreases l
  {
    if l == [] || c <= l[0].parm then 0 else 1 + Place(l[1..], c - l[0].parm)
  }

  /** Starting a timer and taking it off again restores the list. */
  lemma {:induction false} InsertDrop(l: seq<Timer>, id: nat, c: int)
    ensures var n, i := Insert(l, id, c), Place(l, c); i < |n| && n[i].id == id && Drop(n, i) == l
    decreases l
  {
    hide Drop;
    var n := Insert(l, id, c);
    if l == [] || c <= l[0].parm {
      DropFront(n);
      if l != [] {
        assert n == [Timer(id, c), l[0].(parm := l[0].parm - c)] + l[1..];
        assert n[2..] == l[1..] && l[0] == n[1].(parm := n[1].parm + n[0].parm);
        assert l == [l[0]] + l[1..];
      }
    } else {
      var r := Insert(l[1..], id, c - l[0].parm);
      InsertDrop(l[1..], id, c - l[0].parm);
      assert n[1..] == r;
      DropStep(n, Place(l, c));
      assert l == [l[0]] + l[1..];
    }
  }

  lemma DropFront(n: seq<Timer>)
    requires n != []
    ensures Drop(n, 0) == if |n| == 1 then [] else [n[1].(parm := n[1].parm + n[0].parm)] + n[2..]
  {
  }

  // ---- Runs against a clock with absolute deadlines

  datatype Op = Start(id: nat, ticks: int) | Stop(id: nat) | Pass(ticks: int)

  /** The plain picture: what time it is, and when each waiting block is to be woken. */
  datatype Clock = Clock(now: int, deadline: map<nat, int>)

  function Find(l: seq<Timer>, id: nat): (i: nat)
    requires id in Ids(l)
    ensures i < |l| && l[i].id == id
    decreases l
  {
    if l[0].id == id then 0
    else
      assert forall i :: 1 <= i < |l| ==> l[i] == l[1..][i - 1];
      1 + Find(l[1..], id)
  }

  /** One operation on the list; starting a running timer or stopping one that is not does not happen. */
  function Step(l: seq<Timer>, op: Op): (r: seq<Timer>) {
    match op
    case Start(id, ticks) => if id in Ids(l) then l else Insert(l, id, if ticks == 0 then 1 else ticks)
    case Stop(id) => if id in Ids(l) then Drop(l, Find(l, id)) else l
    case Pass(ticks) => Tick(l, ticks)
  }

  function ClockStep(s: Clock, op: Op): (r: Clock) {
    match op
    case Start(id, ticks) =>
      if id in s.deadline then s else s.(deadline := s.deadline[id := s.now + if ticks == 0 then 1 else ticks])
    case Stop(id) => s.(deadline := s.deadline - {id})
    case Pass(ticks) =>
      Clock(s.now + ticks, map k | k in s.deadline && s.deadline[k] > s.now + ticks :: s.deadline[k])
  }

  ghost predicate Agrees(l: seq<Timer>, s: Clock) {
    Ids(l) == s.deadline.Keys && forall k :: k in Ids(l) ==> Due(l, k) == s.deadline[k] - s.now
  }

  lemma StepRefines(l: seq<Timer>, s: Clock, op: Op)
    requires Ok(l) && Agrees(l, s)
    ensures Ok(Step(l, op)) && Agrees(Step(l, op), ClockStep(s, op))
  {
    hide Ids, Due, Ok, Insert, Drop, Tick;
    var m, t := Step(l, op), ClockStep(s, op);
    match op
    case Start(id, ticks) =>
      if id !in Ids(l) {
        var c := if ticks == 0 then 1 else ticks;
        InsertOk(l, id, c);
        InsertDue(l, id, c, id);
        forall k | k in Ids(m)
          ensures Due(m, k) == t.deadline[k] - t.now
        {
          InsertDue(l, id, c, k);
        }
      }
    case Stop(id) =>
      if id in Ids(l) {
        var i := Find(l, id);
        DropDue(l, i, id);
        forall k | k in Ids(m)
          ensures Due(m, k) == t.deadline[k] - t.now
        {
          DropDue(l, i, k);
        }
      }
    case Pass(ticks) =>
      TickDue(l, ticks, 0);
      forall k
        ensures k in Ids(m) <==> k in t.deadline
        ensures k in Ids(m) ==> Due(m, k) == t.deadline[k] - t.now
      {
        TickDue(l, ticks, k);
      }
      assert Ids(m) == t.deadline.Keys;
  }

  function Run(l: seq<Timer>, ops: seq<Op>): (r: seq<Timer>)
    decreases |ops|
  {
    if ops == [] then l else Run(Step(l, ops[0]), ops[1..])
  }

  function ClockRun(s: Clock, ops: seq<Op>): (r: Clock)
    decreases |ops|
  {
    if ops == [] then s else ClockRun(ClockStep(s, ops[0]), ops[1..])
  }

  /** Over every run the differences say what the absolute deadlines say. */
  lemma {:induction false} RunRefines(l: seq<Timer>, s: Clock, ops: seq<Op>)
    requires Ok(l) && Agrees(l, s)
    ensures Ok(Run(l, ops)) && Agrees(Run(l, ops), ClockRun(s, ops))
    decreases |ops|
  {
    if ops != [] {
      StepRefines(l, s, ops[0]);
      RunRefines(Step(l, ops[0]), ClockStep(s, ops[0]), ops[1..]);
    }
  }

  // ---- Against real time

  /**
   * The delay list with the clock that drives it. `left` is the real time each block still should wait;
   * `early` is how many ticks had gone by unreported when it was started.
   */
  datatype Driven = Driven(l: seq<Timer>, cmp: int, num: int, left: map<nat, int>, early: map<nat, int>)

  function Less(m: map<nat, int>, ids: set<nat>, d: int): (r: map<nat, int>) {
    map k | k in m && k in ids :: m[k] - d
  }

  /** A tick of the clock, the fork ring having room and being run at once. */
  function Interrupt(s: Driven): (s': Driven) {
    if s.cmp == 0 then s.(left := Less(s.left, Ids(s.l), 1))
    else if s.cmp - 1 != 0 then s.(cmp := s.cmp - 1, num := s.num + 1, left := Less(s.left, Ids(s.l), 1))
    else
      var l := Tick(s.l, s.num + 1);
      Driven(l, if l != [] then l[0].parm else 0, if l != [] then 0 else s.num + 1, Less(s.left, Ids(l), 1), Less(s.early, Ids(l), 0))
  }

  function StartDriven(s: Driven, id: nat, c: int): (s': Driven) {
    var cmp := if s.cmp == 0 || c <= s.cmp then c else s.cmp;
    var num := if s.cmp == 0 then 0 else s.num;
    Driven(Insert(s.l, id, c), cmp, num, s.left[id := c], s.early[id := num])
  }

  function StopDriven(s: Driven, i: nat): (s': Driven)
    requires i < |s.l|
  {
    s.(l := Drop(s.l, i), left := s.left - {s.l[i].id}, early := s.early - {s.l[i].id})
  }

  /** The list runs ahead of real time by what was unreported at the start of each timer, and the clock
      calls before any timer is overdue. */
  ghost predicate InTime(s: Driven, k: nat)
    requires k in Ids(s.l)
  {
    && k in s.left && k in s.early && s.early[k] >= 0
    && Due(s.l, k) - s.num == s.left[k] - s.early[k] && s.cmp <= s.left[k]
  }

  ghost predicate DrivenOk(s: Driven) {
    && Ok(s.l) && s.left.Keys == Ids(s.l) == s.early.Keys && s.num >= 0 && s.cmp >= 0 && (s.l != [] ==> s.cmp > 0)
    && forall k :: k in Ids(s.l) ==> InTime(s, k)
  }

  lemma NotEmpty(l: seq<Timer>, k: nat)
    requires k in Ids(l)
    ensures l != []
  {
  }

  lemma FirstDue(l: seq<Timer>)
    requires l != []
    ensures l[0].id in Ids(l) && Due(l, l[0].id) == l[0].parm
  {
  }

  /** A tick keeps that. A timer completes when the clock calls and no more than its head start is left of
      its time: never late, and early by that head start at most. */
  lemma InterruptKeeps(s: Driven)
    requires DrivenOk(s)
    ensures DrivenOk(Interrupt(s))
    ensures forall k :: k in Ids(s.l) ==>
              (k !in Ids(Interrupt(s).l) <==> s.cmp == 1 && s.left[k] - 1 <= s.early[k]) && s.left[k] - 1 >= 0
  {
    hide Ids, Due, Ok, Tick;
    var t := Interrupt(s);
    forall k | k in Ids(s.l)
      ensures InTime(s, k) && s.cmp > 0
    {
      NotEmpty(s.l, k);
    }
    if s.cmp == 1 {
      var n := s.num + 1;
      TickDue(s.l, n, 0);
      forall k
        ensures k in Ids(t.l) <==> k in Ids(s.l) && Due(s.l, k) > n
        ensures k in Ids(t.l) ==> Due(t.l, k) == Due(s.l, k) - n
      {
        TickDue(s.l, n, k);
      }
      if t.l != [] {
        FirstDue(t.l);
      }
      forall k | k in Ids(t.l)
        ensures InTime(t, k)
      {
        assert InTime(s, k);
        NotEmpty(t.l, k);
        DueLeast(t.l, k);
      }
      assert t.left.Keys == Ids(t.l) == t.early.Keys;
    } else {
      forall k | k in Ids(t.l)
        ensures InTime(t, k)
      {
        assert InTime(s, k);
      }
      assert t.left.Keys == Ids(t.l);
    }
  }

  lemma StartDrivenKeeps(s: Driven, id: nat, c: int)
    requires DrivenOk(s) && id !in Ids(s.l) && c > 0
    ensures DrivenOk(StartDriven(s, id, c))
  {
    hide Ids, Due, Ok, Insert;
    var t := StartDriven(s, id, c);
    InsertOk(s.l, id, c);
    InsertDue(s.l, id, c, id);
    forall k | k in Ids(t.l)
      ensures InTime(t, k)
    {
      InsertDue(s.l, id, c, k);
      if k != id {
        assert InTime(s, k);
        NotEmpty(s.l, k);
      }
    }
  }

  lemma StopDrivenKeeps(s: Driven, i: nat)
    requires DrivenOk(s) && i < |s.l|
    ensures DrivenOk(StopDriven(s, i))
  {
    hide Ids, Due, Ok, Drop;
    var t := StopDriven(s, i);
    DropDue(s.l, i, s.l[i].id);
    DropNone(s.l, i);
    forall k | k in Ids(t.l)
      ensures InTime(t, k)
    {
      DropDue(s.l, i, k);
      assert InTime(s, k);
    }
  }

  lemma DropNone(l: seq<Timer>, i: nat)
    requires i < |l|
    ensures l != []
  {
  }

  datatype DrivenOp = ClockTick | Begin(id: nat, ticks: int) | End(id: nat)

  function DrivenStep(s: Driven, op: DrivenOp): (s': Driven) {
    match op
    case ClockTick => Interrupt(s)
    case Begin(id, ticks) => if id in Ids(s.l) || ticks < 0 then s else StartDriven(s, id, if ticks == 0 then 1 else ticks)
    case End(id) => if id in Ids(s.l) then StopDriven(s, Find(s.l, id)) else s
  }

  function DrivenRun(s: Driven, ops: seq<DrivenOp>): (s': Driven)
    decreases |ops|
  {
    if ops == [] then s else DrivenRun(DrivenStep(s, ops[0]), ops[1..])
  }

  /** Over every run of ticks, starts and cancellations no timer is overdue, and the list is ahead of real
      time by the head starts only. */
  lemma {:induction false} DrivenRunKeeps(s: Driven, ops: seq<DrivenOp>)
    requires DrivenOk(s)
    ensures DrivenOk(DrivenRun(s, ops))
    decreases |ops|
  {
    hide DrivenOk, Interrupt, StartDriven, StopDriven;
    if ops != [] {
      match ops[0] {
        case ClockTick => InterruptKeeps(s);
        case Begin(id, ticks) =>
          if id !in Ids(s.l) && ticks >= 0 {
            StartDrivenKeeps(s, id, if ticks == 0 then 1 else ticks);
          }
        case End(id) =>
          if id in Ids(s.l) {
            StopDrivenKeeps(s, Find(s.l, id));
          }
      }
      DrivenRunKeeps(DrivenStep(s, ops[0]), ops[1..]);
    }
  }

  /** A timer of 100 ticks has run for 50 when one of 60 is started: 50 ticks later the clock calls, and the
      second timer completes with 10 ticks to go. */
  lemma EarlyExample()
    ensures var s := StartDriven(Driven([Timer(1, 100)], 50, 50, map[1 := 50], map[1 := 0]), 2, 60);
            && s == Driven([Timer(2, 60), Timer(1, 40)], 50, 50, map[1 := 50, 2 := 60], map[1 := 0, 2 := 50])
            && var t := s.(cmp := 1, num := 99, left := map[1 := 1, 2 := 11]);
               Interrupt(t).l == [] && t.left[2] - 1 == 10
  {
    var l := [Timer(1, 100)];
    assert l[1..] == [];
    assert Insert(l, 2, 60) == [Timer(2, 60), Timer(1, 40)];
    var two := [Timer(2, 60), Timer(1, 40)];
    assert two[1..] == [Timer(1, 40)] && two[1..][1..] == [];
    assert Tick(two, 100) == Tick([Timer(1, 40)], 40) == [];
  }

  // ---- The routines

  /** The clock calls at the earlier of c ticks and what was set before; ticks gone by count on unless it stood still. */
  predicate Ticking(cmp: int, num: int, c: int, cmp': int, num': int) {
    && cmp' != 0 && cmp' <= c && (cmp' == c || cmp' == cmp)
    && (cmp != 0 ==> cmp' <= cmp && num' == num) && (cmp == 0 ==> num' == 0)
  }

  /** Starting a timer does that to the clock. */
  lemma TickingStarts(s: Driven, id: nat, c: int, cmp: int, num: int)
    requires c != 0 && Ticking(s.cmp, s.num, c, cmp, num)
    ensures StartDriven(s, id, c) == Driven(Insert(s.l, id, c), cmp, num, s.left[id := c], s.early[id := num])
  {
  }

  /** `done` are the first timers of the list, in order, and `rest` is what is left of it. */
  predicate Served(was: seq<Timer>, done: seq<nat>, rest: seq<Timer>) {
    && |done| + |rest| == |was|
    && (forall i :: 0 <= i < |done| ==> done[i] == was[i].id)
    && (forall i :: |done| <= i < |was| ==> was[i].id == rest[i - |done|].id)
  }

  lemma ServedNone(was: seq<Timer>)
    ensures Served(was, [], was)
  {
  }

  lemma ServedNext(was: seq<Timer>, done: seq<nat>, rest: seq<Timer>)
    requires Served(was, done, rest) && rest != []
    ensures Served(was, done + [rest[0].id], rest[1..])
  {
    var d, r := done + [rest[0].id], rest[1..];
    assert was[|done|].id == rest[0].id;
    forall i | |d| <= i < |was|
      ensures was[i].id == r[i - |d|].id
    {
      assert r[i - |d|] == rest[i - |done|];
    }
  }

  lemma ServedHead(was: seq<Timer>, done: seq<nat>, rest: seq<Timer>, t: Timer)
    requires Served(was, done, rest) && rest != [] && t.id == rest[0].id
    ensures Served(was, done, [t] + rest[1..])
  {
    var r := [t] + rest[1..];
    assert forall i :: 0 < i < |rest| ==> r[i] == rest[i];
  }

  class Delays {
    var dlr: seq<Timer>
    /** The blocks that have completed, in the order in which they did. */
    var zombies: seq<nat>
    /** CMP_TICK and NUM_TICK: after how many ticks the clock is to call, 0 for not at all, and how many have gone by. */
    var cmpTick: int
    var numTick: int

    constructor ()
      ensures dlr == [] && zombies == [] && Ok(dlr) && cmpTick == 0
    {
      dlr, zombies, cmpTick, numTick := [], [], 0, 0;
    }

    /** See to it that the clock calls after c ticks at the latest. */
    method StartTicking(c: int)
      requires c != 0
      modifies this`cmpTick, this`numTick
      ensures Ticking(old(cmpTick), old(numTick), c, cmpTick, numTick)
    {
      if cmpTick != 0 {
        if c <= cmpTick {
          cmpTick := c;
        }
      } else {
        cmpTick, numTick := c, 0;
      }
    }

    /** Start a timer; a wait of nothing counts as one tick. */
    method Adelay(id: nat, ticks: int)
      requires Ok(dlr) && id !in Ids(dlr)
      modifies this`dlr, this`cmpTick, this`numTick
      ensures Ok(dlr) && dlr == Insert(old(dlr), id, if ticks == 0 then 1 else ticks)
      ensures Ids(dlr) == Ids(old(dlr)) + {id} && Due(dlr, id) == if ticks == 0 then 1 else ticks
      ensures forall k :: k in Ids(old(dlr)) ==> k in Ids(dlr) && Due(dlr, k) == Due(old(dlr), k)
      ensures Ticking(old(cmpTick), old(numTick), if ticks == 0 then 1 else ticks, cmpTick, numTick)
    {
      hide Ids, Due, Ok, Ticking, Insert;
      var c := if ticks == 0 then 1 else ticks;
      StartTicking(c);
      ghost var cmp, num := cmpTick, numTick;
      InsertOk(dlr, id, c);
      ghost var was := dlr;
      forall k
        ensures Ids(Insert(was, id, c)) == Ids(was) + {id}
        ensures k == id ==> Due(Insert(was, id, c), k) == c
        ensures k in Ids(was) ==> Due(Insert(was, id, c), k) == Due(was, k)
      {
        InsertDue(was, id, c, k);
      }
      InsertDue(was, id, c, id);
      var i: nat := 0;
      ghost var total := c;
      assert dlr[0..] == dlr && dlr[..0] == [];
      while i < |dlr| && c > dlr[i].parm
        invariant cmpTick == cmp && numTick == num
        invariant dlr == was && i <= |dlr| && dlr[..i] + Insert(dlr[i..], id, c) == Insert(dlr, id, total)
        decreases |dlr| - i
      {
        InsertOne(dlr, i, id, c);
        c := c - dlr[i].parm;
        i := i + 1;
      }
      InsertHere(dlr, i, id, c);
      assert was[..i] + Insert(was[i..], id, c) == Insert(was, id, total);
      if i < |dlr| {
        dlr := dlr[..i] + [Timer(id, c)] + [dlr[i].(parm := dlr[i].parm - c)] + dlr[i + 1..];
      } else {
        dlr := dlr + [Timer(id, c)];
      }
    }

    /** Take the block at position i off the list. */
    method Takeoff(i: nat)
      requires Ok(dlr) && i < |dlr|
      modifies this`dlr
      ensures Ok(dlr) && dlr == Drop(old(dlr), i) && Ids(dlr) == Ids(old(dlr)) - {old(dlr)[i].id}
      ensures forall k :: k in Ids(dlr) ==> k in Ids(old(dlr)) && Due(dlr, k) == Due(old(dlr), k)
    {
      hide Ids, Due, Ok;
      ghost var was := dlr;
      forall k
        ensures Ok(Drop(was, i)) && Ids(Drop(was, i)) == Ids(was) - {was[i].id}
        ensures k in Ids(was) && k != was[i].id ==> Due(Drop(was, i), k) == Due(was, k)
      {
        DropDue(was, i, k);
      }
      DropDue(was, i, was[i].id);
      if i + 1 < |dlr| {
        dlr := dlr[i + 1 := dlr[i + 1].(parm := dlr[i + 1].parm + dlr[i].parm)];
      }
      dlr := dlr[..i] + dlr[i + 1..];
      assert dlr == Drop(was, i);
    }

    /** c ticks have gone by: complete every timer that is due, in order, and move the others up. */
    method Tchange(ticks: int) returns (done: seq<nat>)
      requires Ok(dlr)
      modifies this
      ensures Ok(dlr) && dlr == Tick(old(dlr), ticks) && zombies == old(zombies) + done
      ensures forall k :: k in Ids(dlr) <==> k in Ids(old(dlr)) && Due(old(dlr), k) > ticks
      ensures forall k :: k in Ids(dlr) ==> Due(dlr, k) == Due(old(dlr), k) - ticks
      ensures forall k :: k in done <==> k in Ids(old(dlr)) && Due(old(dlr), k) <= ticks
      ensures Served(old(dlr), done, dlr)
      ensures if dlr != [] then cmpTick == dlr[0].parm > 0 && numTick == 0 else cmpTick == old(cmpTick) && numTick == old(numTick)
    {
      hide Ids, Due, Ok, Served;
      ghost var was := dlr;
      forall k
        ensures Ok(Tick(was, ticks))
        ensures k in Ids(Tick(was, ticks)) <==> k in Ids(was) && Due(was, k) > ticks
        ensures k in Ids(Tick(was, ticks)) ==> Due(Tick(was, ticks), k) == Due(was, k) - ticks
      {
        TickDue(was, ticks, k);
      }
      var c := ticks;
      done := [];
      ServedNone(was);
      OkSplit(was, 0);
      while dlr != []
        invariant Ok(dlr) && Tick(dlr, c) == Tick(was, ticks)
        invariant zombies == old(zombies) + done && cmpTick == old(cmpTick) && numTick == old(numTick)
        invariant forall k :: k in Ids(was) <==> k in done || k in Ids(dlr)
        invariant Served(was, done, dlr)
        invariant forall k :: k in done ==> k !in Ids(dlr)
        invariant forall k :: k in done ==> k !in Ids(Tick(was, ticks))
        decreases |dlr|
      {
        var d := dlr[0];
        IdsTail(dlr);
        if d.parm - c <= 0 {
          TickGone(dlr, c);
          ServedNext(was, done, dlr);
          done, zombies := done + [d.id], zombies + [d.id];
          dlr := dlr[1..];
          c := c - d.parm;
        } else {
          ServedHead(was, done, dlr, d.(parm := d.parm - c));
          dlr := [d.(parm := d.parm - c)] + dlr[1..];
          IdsHead(d.(parm := d.parm - c), dlr[1..]);
          assert [d.(parm := d.parm - c)] + dlr[1..] == dlr;
          cmpTick, numTick := d.parm - c, 0;
          break;
        }
      }
    }

    /** The clock interrupt, with the entry of the fork ring it makes run at once. */
    method Tikcod(ghost left: map<nat, int>, ghost early: map<nat, int>) returns (done: seq<nat>)
      requires Ok(dlr)
      modifies this
      ensures Ok(dlr) && zombies == old(zombies) + done
      ensures var s := Interrupt(old(Driven(dlr, cmpTick, numTick, left, early))); dlr == s.l && cmpTick == s.cmp && numTick == s.num
      ensures forall k :: k in done <==> k in Ids(old(dlr)) && old(cmpTick) == 1 && Due(old(dlr), k) <= old(numTick) + 1
    {
      hide Ids, Due, Ok, Tick, Less;
      done := [];
      if cmpTick != 0 {
        numTick := numTick + 1;
        cmpTick := cmpTick - 1;
        if cmpTick == 0 {
          done := Tchange(numTick);
        }
      }
    }
  }

  lemma OkSplit(l: seq<Timer>, i: nat)
    requires i <= |l|
    ensures Ids(l[..i]) + Ids(l[i..]) == Ids(l)
  {
    assert l == l[..i] + l[i..];
  }

  lemma InsertOne(l: seq<Timer>, i: nat, id: nat, c: int)
    requires i < |l| && c > l[i].parm
    ensures l[..i] + Insert(l[i..], id, c) == l[..i + 1] + Insert(l[i + 1..], id, c - l[i].parm)
  {
    assert l[i..][1..] == l[i + 1..] && l[i..][0] == l[i];
  }

  lemma InsertHere(l: seq<Timer>, i: nat, id: nat, c: int)
    requires i <= |l| && (i < |l| ==> c <= l[i].parm)
    ensures i == |l| ==> l[..i] + Insert(l[i..], id, c) == l + [Timer(id, c)]
    ensures i < |l| ==> l[..i] + Insert(l[i..], id, c) == l[..i] + [Timer(id, c)] + [l[i].(parm := l[i].parm - c)] + l[i + 1..]
  {
    if i < |l| {
      assert l[i..][1..] == l[i + 1..] && l[i..][0] == l[i];
    }
  }

  lemma TickGone(l: seq<Timer>, c: int)
    requires Ok(l) && l != [] && l[0].parm <= c
    ensures Tick(l, c) == Tick(l[1..], c - l[0].parm) && l[0].id !in Ids(Tick(l, c))
  {
    TickDue(l, c, l[0].id);
  }
}
