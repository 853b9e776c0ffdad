/** The message pipe of a process: a queue of eight messages that folds some of them together. */
module AesQueue {
  import opened Basics

  /** One 16-byte message: type, 16-byte units announced to follow it, window handle, words 4 to 7. */
  datatype Msg = Msg(kind: int, extra: nat, handle: int, rect: Rect)

  /** A blocked sender and what it wants to send. */
  datatype Writer = Writer(sender: nat, msg: Msg)

  /**
   * The pipe. `accepted` and `delivered` record every message that went in, with its sender, and every message
   * that was read, in order; `stamps` says how many messages had been read when each one went in.
   */
  datatype Pipe = Pipe(q: seq<Msg>, readers: seq<nat>, writers: seq<Writer>, accepted: seq<Writer>, delivered: seq<Msg>, stamps: seq<nat>)

  const WM_REDRAW := 20
  const WM_ARROWED := 24
  const WM_HSLID := 25
  const WM_VSLID := 26
  /** 128 bytes hold eight messages; besides the reader there are seven processes. */
  const CAPACITY: nat := 8
  const SENDERS: nat := 7

  /** The bounding box of two rectangles. */
  function Union(a: Rect, b: Rect): (r: Rect)
    ensures Contains(r, a) && Contains(r, b)
    ensures forall c :: Contains(c, a) && Contains(c, b) ==> Contains(c, r)
  {
    var x, y := Min(a.x, b.x), Min(a.y, b.y);
    Rect(x, y, Max(a.x + a.w, b.x + b.w) - x, Max(a.y + a.h, b.y + b.h) - y)
  }

  predicate Contains(big: Rect, small: Rect) {
    && big.x <= small.x && small.x + small.w <= big.x + big.w
    && big.y <= small.y && small.y + small.h <= big.y + big.h
  }

  // ---- Folding

  predicate Foldable(m: Msg) {
    m.kind == WM_REDRAW || m.kind == WM_ARROWED || m.kind == WM_HSLID || m.kind == WM_VSLID
  }

  /** Look from message i on for one to fold m into; append it when there is none. */
  function Fold(q: seq<Msg>, m: Msg, i: nat): (r: seq<Msg>)
    decreases |q| - i
  {
    if i >= |q| then q + [m]
    else if q[i].kind == WM_REDRAW && m.handle == q[i].handle then q[i := q[i].(rect := Union(m.rect, q[i].rect))]
    else if q[i].kind == WM_ARROWED then q[i := m]
    else Fold(q, m, i + 1 + q[i].extra)
  }

  function Enq(q: seq<Msg>, m: Msg): (r: seq<Msg>) {
    if Foldable(m) then Fold(q, m, 0) else q + [m]
  }

  /** A message that another one is folded into: a redraw of the window, or an arrow. */
  predicate Hit(q: seq<Msg>, m: Msg, k: nat)
    requires k < |q|
  {
    (q[k].kind == WM_REDRAW && q[k].handle == m.handle) || q[k].kind == WM_ARROWED
  }

  /** The search, which passes over as many messages as one announces to follow it, comes from message i to message k. */
  ghost predicate Reached(q: seq<Msg>, i: nat, k: nat)
    decreases |q| - i
  {
    k == i || (i < |q| && Reached(q, i + 1 + q[i].extra, k))
  }

  /** What becomes of a message of a foldable kind: the first hit of the search takes it up, a redraw by growing to the union
      of the rectangles, an arrow by becoming the message; if there is none it goes in as the last. */
  lemma {:induction false} FoldIs(q: seq<Msg>, m: Msg, i: nat, k: nat)
    requires i <= k < |q| && Reached(q, i, k) && Hit(q, m, k)
    requires forall j :: i <= j < k && Reached(q, i, j) ==> !Hit(q, m, j)
    ensures |Fold(q, m, i)| == |q| && forall j :: 0 <= j < |q| && j != k ==> Fold(q, m, i)[j] == q[j]
    ensures q[k].kind == WM_ARROWED ==> Fold(q, m, i)[k] == m
    ensures q[k].kind == WM_REDRAW ==>
              var r := Fold(q, m, i)[k];
              r.kind == WM_REDRAW && r.handle == m.handle && r.extra == q[k].extra && r.rect == Union(m.rect, q[k].rect)
    decreases |q| - i
  {
    if i < k {
      assert !Hit(q, m, i);
      var n := i + 1 + q[i].extra;
      ReachedUp(q, n, k);
      FoldIs(q, m, n, k);
    }
  }

  lemma {:induction false} ReachedUp(q: seq<Msg>, i: nat, k: nat)
    requires Reached(q, i, k)
    ensures i <= k
    decreases |q| - i
  {
    if k != i {
      ReachedUp(q, i + 1 + q[i].extra, k);
    }
  }

  lemma {:induction false} FoldNone(q: seq<Msg>, m: Msg, i: nat)
    requires forall j :: i <= j < |q| && Reached(q, i, j) ==> !Hit(q, m, j)
    ensures Fold(q, m, i) == q + [m]
    decreases |q| - i
  {
    if i < |q| {
      assert !Hit(q, m, i);
      FoldNone(q, m, i + 1 + q[i].extra);
    }
  }

  /** So an arrow or slider message is lost in a redraw of its window that is still queued. */
  lemma ArrowLost(m: Msg, r: Msg)
    requires (m.kind == WM_ARROWED || m.kind == WM_HSLID || m.kind == WM_VSLID) && r.kind == WM_REDRAW && r.handle == m.handle
    ensures Enq([r], m) == [r.(rect := Union(m.rect, r.rect))]
  {
    FoldIs([r], m, 0, 0);
  }

  /** Some redraw message of the window covers the rectangle. */
  predicate Covered(s: seq<Msg>, handle: int, r: Rect) {
    exists i :: 0 <= i < |s| && s[i].kind == WM_REDRAW && s[i].handle == handle && Contains(s[i].rect, r)
  }

  lemma {:induction false} FoldCovers(q: seq<Msg>, m: Msg, i: nat, handle: int, r: Rect)
    requires Foldable(m)
    ensures |q| <= |Fold(q, m, i)| <= |q| + 1
    ensures Covered(q, handle, r) ==> Covered(Fold(q, m, i), handle, r)
    ensures m.kind == WM_REDRAW ==> Covered(Fold(q, m, i), m.handle, m.rect)
    decreases |q| - i
  {
    var f := Fold(q, m, i);
    if i < |q| && !(q[i].kind == WM_REDRAW && m.handle == q[i].handle) && q[i].kind != WM_ARROWED {
      FoldCovers(q, m, i + 1 + q[i].extra, handle, r);
    } else {
      if Covered(q, handle, r) {
        var k :| 0 <= k < |q| && q[k].kind == WM_REDRAW && q[k].handle == handle && Contains(q[k].rect, r);
        assert f[k].kind == WM_REDRAW && f[k].handle == handle && Contains(f[k].rect, r);
      }
      if m.kind == WM_REDRAW {
        var k := if i < |q| then i else |q|;
        assert f[k].kind == WM_REDRAW && f[k].handle == m.handle && Contains(f[k].rect, m.rect);
      }
    }
  }

  /** A message going in uncovers nothing, and a redraw message is covered itself. */
  lemma EnqCovers(q: seq<Msg>, m: Msg, handle: int, r: Rect)
    ensures |q| <= |Enq(q, m)| <= |q| + 1
    ensures Covered(q, handle, r) ==> Covered(Enq(q, m), handle, r)
    ensures m.kind == WM_REDRAW ==> Covered(Enq(q, m), m.handle, m.rect)
  {
    if Foldable(m) {
      FoldCovers(q, m, 0, handle, r);
    } else if Covered(q, handle, r) {
      var k :| 0 <= k < |q| && q[k].kind == WM_REDRAW && q[k].handle == handle && Contains(q[k].rect, r);
      assert (q + [m])[k] == q[k];
    }
  }

  // ---- Messages that are never folded

  /** The messages of s that are of no foldable kind, in order. */
  function Steady(s: seq<Msg>): (r: seq<Msg>)
    decreases s
  {
    if s == [] then [] else (if Foldable(s[0]) then [] else [s[0]]) + Steady(s[1..])
  }

  lemma {:induction false} SteadyConcat(a: seq<Msg>, b: seq<Msg>)
    ensures Steady(a + b) == Steady(a) + Steady(b)
    decreases a
  {
    if a == [] {
      assert a + b == b;
    } else {
      assert (a + b)[1..] == a[1..] + b;
      SteadyConcat(a[1..], b);
    }
  }

  lemma SteadyOne(m: Msg)
    ensures Steady([m]) == if Foldable(m) then [] else [m]
  {
    assert [m][1..] == [];
  }

  /** Changing one foldable message into another keeps the rest. */
  lemma SteadyUpdate(s: seq<Msg>, i: nat, m: Msg)
    requires i < |s| && Foldable(s[i]) && Foldable(m)
    ensures Steady(s[i := m]) == Steady(s)
  {
    hide Steady;
    var a, b := s[..i], s[i + 1..];
    assert s == a + ([s[i]] + b) && s[i := m] == a + ([m] + b);
    SteadyConcat(a, [s[i]] + b);
    SteadyConcat(a, [m] + b);
    SteadyConcat([s[i]], b);
    SteadyConcat([m], b);
    SteadyOne(s[i]);
    SteadyOne(m);
  }

  lemma {:induction false} FoldSteady(q: seq<Msg>, m: Msg, i: nat)
    requires Foldable(m)
    ensures Steady(Fold(q, m, i)) == Steady(q)
    decreases |q| - i
  {
    hide Steady;
    if i >= |q| {
      SteadyConcat(q, [m]);
      SteadyOne(m);
    } else if q[i].kind == WM_REDRAW && m.handle == q[i].handle {
      SteadyUpdate(q, i, q[i].(rect := Union(m.rect, q[i].rect)));
    } else if q[i].kind == WM_ARROWED {
      SteadyUpdate(q, i, m);
    } else {
      FoldSteady(q, m, i + 1 + q[i].extra);
    }
  }

  /** For the other kinds the queue is an ordinary queue. */
  lemma EnqSteady(q: seq<Msg>, m: Msg)
    ensures Steady(Enq(q, m)) == Steady(q) + Steady([m])
  {
    SteadyOne(m);
    if Foldable(m) {
      FoldSteady(q, m, 0);
    } else {
      SteadyConcat(q, [m]);
    }
  }

  // ---- The pipe

  function Put(p: Pipe, w: Writer): (r: Pipe) {
    p.(q := Enq(p.q, w.msg), accepted := p.accepted + [w], stamps := p.stamps + [|p.delivered|])
  }

  function Get(p: Pipe): (r: Pipe)
    requires p.q != []
  {
    p.(q := p.q[1..], delivered := p.delivered + [p.q[0]])
  }

  /** A 16-byte write: into the queue and on to a blocked reader, or block. */
  function Write(p: Pipe, w: Writer): (r: Pipe) {
    if |p.q| < CAPACITY then
      var a := Put(p, w);
      if a.readers == [] || a.q == [] then a else Get(a.(readers := a.readers[1..]))
    else p.(writers := [w] + p.writers)
  }

  /** A 16-byte read: from the queue, letting a blocked writer in, or block. */
  function Read(p: Pipe, reader: nat): (r: Pipe) {
    if p.q != [] then
      var a := Get(p);
      if a.writers == [] then a else Put(a.(writers := a.writers[1..]), a.writers[0])
    else p.(readers := [reader] + p.readers)
  }

  /** `ap_rdwr`: when the pipe holds just the one message, it is taken without looking at the wait lists. */
  function FastRead(p: Pipe, reader: nat): (r: Pipe) {
    if |p.q| == 1 then Get(p) else Read(p, reader)
  }

  function Without<T>(s: seq<T>, i: nat): (r: seq<T>)
    requires i < |s|
  {
    s[..i] + s[i + 1..]
  }

  predicate SendersOk(w: seq<Writer>) {
    && (forall i :: 0 <= i < |w| ==> w[i].sender < SENDERS)
    && (forall i, j :: 0 <= i < j < |w| ==> w[i].sender != w[j].sender)
  }

  /** Redraw rectangle i is covered by a message read since it went in, or by one still queued. */
  predicate StillCovered(p: Pipe, i: nat)
    requires i < |p.accepted| == |p.stamps| && p.stamps[i] <= |p.delivered|
  {
    Covered(p.delivered[p.stamps[i]..] + p.q, p.accepted[i].msg.handle, p.accepted[i].msg.rect)
  }

  predicate Stamped(p: Pipe) {
    |p.stamps| == |p.accepted| && forall i :: 0 <= i < |p.stamps| ==> p.stamps[i] <= |p.delivered|
  }

  /** The messages of a list of senders with their messages. */
  function Msgs(w: seq<Writer>): (s: seq<Msg>)
    ensures |s| == |w| && forall i :: 0 <= i < |w| ==> s[i] == w[i].msg
  {
    seq(|w|, i requires 0 <= i < |w| => w[i].msg)
  }

  /** Everything accepted is accounted for: other kinds exactly and in order, redraws covered. */
  predicate Accounted(p: Pipe) {
    && Steady(p.delivered) + Steady(p.q) == Steady(Msgs(p.accepted)) && Stamped(p)
    && forall i :: 0 <= i < |p.accepted| && p.accepted[i].msg.kind == WM_REDRAW ==> StillCovered(p, i)
  }

  /** Readers wait only at an empty queue; while writers wait, more messages are queued than writers wait. */
  ghost predicate Ok(p: Pipe) {
    && |p.q| <= CAPACITY && SendersOk(p.writers)
    && (p.readers != [] ==> p.q == [])
    && (p.writers != [] ==> |p.q| >= |p.writers| + 1)
    && Accounted(p)
  }

  lemma NeverBoth(p: Pipe)
    requires Ok(p)
    ensures p.readers == [] || p.writers == []
  {
  }

  lemma SendersBound(w: seq<Writer>)
    requires SendersOk(w)
    ensures |w| <= SENDERS
  {
    var ids := set i | 0 <= i < |w| :: w[i].sender;
    SendersCount(w, ids);
    UpToIs(SENDERS);
    SubsetCard(ids, UpTo(SENDERS));
  }

  lemma {:induction false} SendersCount(w: seq<Writer>, ids: set<nat>)
    requires forall i, j :: 0 <= i < j < |w| ==> w[i].sender != w[j].sender
    requires ids == set i | 0 <= i < |w| :: w[i].sender
    ensures |ids| == |w|
    decreases |w|
  {
    if w != [] {
      var t := w[..|w| - 1];
      var less := set i | 0 <= i < |t| :: t[i].sender;
      SendersCount(t, less);
      var last := w[|w| - 1].sender;
      assert ids == less + {last} && last !in less;
    } else {
      assert ids == {};
    }
  }

  lemma CoveredConcat(a: seq<Msg>, b: seq<Msg>, handle: int, r: Rect)
    ensures Covered(a + b, handle, r) <==> Covered(a, handle, r) || Covered(b, handle, r)
  {
    var s := a + b;
    if Covered(a, handle, r) {
      var k :| 0 <= k < |a| && a[k].kind == WM_REDRAW && a[k].handle == handle && Contains(a[k].rect, r);
      assert s[k] == a[k];
    }
    if Covered(b, handle, r) {
      var k :| 0 <= k < |b| && b[k].kind == WM_REDRAW && b[k].handle == handle && Contains(b[k].rect, r);
      assert s[|a| + k] == b[k];
    }
  }

  lemma PutAccounted(p: Pipe, w: Writer)
    requires Accounted(p)
    ensures Accounted(Put(p, w)) && |p.q| <= |Put(p, w).q| <= |p.q| + 1
  {
    hide Steady, Covered, Enq;
    var t, m := Put(p, w), w.msg;
    EnqSteady(p.q, m);
    SteadyConcat(Msgs(p.accepted), [m]);
    assert Msgs(t.accepted) == Msgs(p.accepted) + [m];
    EnqCovers(p.q, m, m.handle, m.rect);
    forall i | 0 <= i < |t.accepted| && t.accepted[i].msg.kind == WM_REDRAW
      ensures StillCovered(t, i)
    {
      var h, r, since := t.accepted[i].msg.handle, t.accepted[i].msg.rect, t.delivered[t.stamps[i]..];
      CoveredConcat(since, t.q, h, r);
      CoveredConcat(since, p.q, h, r);
      EnqCovers(p.q, m, h, r);
      if i < |p.accepted| {
        assert p.accepted[i] == t.accepted[i] && p.stamps[i] == t.stamps[i];
        assert StillCovered(p, i);
      }
    }
  }

  lemma GetAccounted(p: Pipe)
    requires Accounted(p) && p.q != []
    ensures Accounted(Get(p))
  {
    hide Steady, Covered;
    var t := Get(p);
    var d := p.delivered;
    assert p.q == [p.q[0]] + p.q[1..];
    SteadyConcat([p.q[0]], p.q[1..]);
    SteadyConcat(d, [p.q[0]]);
    forall i | 0 <= i < |t.accepted| && t.accepted[i].msg.kind == WM_REDRAW
      ensures StillCovered(t, i)
    {
      assert StillCovered(p, i);
      assert t.delivered[t.stamps[i]..] + t.q == d[p.stamps[i]..] + p.q;
    }
  }

  /** A redraw that went in has reached the reader since then, or is covered by a queued message of its window. */
  lemma RedrawReaches(p: Pipe, i: nat)
    requires Accounted(p) && i < |p.accepted| && p.accepted[i].msg.kind == WM_REDRAW
    ensures Covered(p.q, p.accepted[i].msg.handle, p.accepted[i].msg.rect)
         || exists k :: p.stamps[i] <= k < |p.delivered| && p.delivered[k].kind == WM_REDRAW
              && p.delivered[k].handle == p.accepted[i].msg.handle && Contains(p.delivered[k].rect, p.accepted[i].msg.rect)
  {
    var h, r, n := p.accepted[i].msg.handle, p.accepted[i].msg.rect, p.stamps[i];
    assert StillCovered(p, i);
    CoveredConcat(p.delivered[n..], p.q, h, r);
    if Covered(p.delivered[n..], h, r) {
      var k :| 0 <= k < |p.delivered| - n && p.delivered[n..][k].kind == WM_REDRAW && p.delivered[n..][k].handle == h
        && Contains(p.delivered[n..][k].rect, r);
      assert p.delivered[n + k] == p.delivered[n..][k];
    }
  }

  lemma EmptyPut(p: Pipe, w: Writer)
    requires p.q == []
    ensures Put(p, w).q == [w.msg]
  {
  }

  lemma WriteKeeps(p: Pipe, w: Writer)
    requires Ok(p) && SendersOk([w] + p.writers)
    ensures Ok(Write(p, w))
  {
    hide Accounted, SendersOk, Put;
    if |p.q| < CAPACITY {
      PutAccounted(p, w);
      PutRest(p, w);
      var a := Put(p, w);
      if p.readers != [] {
        EmptyPut(p, w);
        AccountedOf(a, a.(readers := a.readers[1..]));
        GetAccounted(a.(readers := a.readers[1..]));
      }
    } else {
      SendersBound([w] + p.writers);
      AccountedOf(p, Write(p, w));
    }
  }

  lemma PutRest(p: Pipe, w: Writer)
    ensures Put(p, w).readers == p.readers && Put(p, w).writers == p.writers && Put(p, w).accepted == p.accepted + [w]
  {
  }

  lemma AccountedOf(p: Pipe, t: Pipe)
    requires Accounted(p) && t.q == p.q && t.accepted == p.accepted && t.delivered == p.delivered && t.stamps == p.stamps
    ensures Accounted(t)
  {
    assert forall i :: 0 <= i < |t.accepted| && t.accepted[i].msg.kind == WM_REDRAW ==> StillCovered(p, i);
  }

  lemma SendersTail(w: seq<Writer>)
    requires SendersOk(w) && w != []
    ensures SendersOk(w[1..])
  {
  }

  lemma ReadKeeps(p: Pipe, reader: nat)
    requires Ok(p)
    ensures Ok(Read(p, reader))
  {
    hide Accounted, SendersOk, Put;
    if p.q != [] {
      GetAccounted(p);
      var a := Get(p);
      if a.writers != [] {
        SendersTail(a.writers);
        var b := a.(writers := a.writers[1..]);
        AccountedOf(a, b);
        PutAccounted(b, a.writers[0]);
        PutRest(b, a.writers[0]);
      }
    } else {
      AccountedOf(p, Read(p, reader));
    }
  }

  /** The short cut leaves nobody behind: with one message queued no writer waits, and it is an ordinary read. */
  lemma FastReadSame(p: Pipe, reader: nat)
    requires Ok(p)
    ensures FastRead(p, reader) == Read(p, reader)
  {
  }

  // ---- Runs

  /** Where a sender is among the blocked ones. */
  function Place(w: seq<Writer>, sender: nat): (i: nat)
    ensures i <= |w| && (i < |w| ==> w[i].sender == sender) && forall j :: 0 <= j < i ==> w[j].sender != sender
  {
    if w == [] || w[0].sender == sender then 0 else 1 + Place(w[1..], sender)
  }

  datatype Op = DoWrite(w: Writer) | DoRead(reader: nat) | DropReader(at: nat) | DropWriter(sender: nat)

  function Step(p: Pipe, op: Op): (r: Pipe) {
    match op
    case DoWrite(w) => Write(p, w)
    case DoRead(reader) => FastRead(p, reader)
    case DropReader(i) => if i < |p.readers| then p.(readers := Without(p.readers, i)) else p
    case DropWriter(sender) => var i := Place(p.writers, sender); if i < |p.writers| then p.(writers := Without(p.writers, i)) else p
  }

  /** A sender is one of the seven other processes and sends nothing while it is blocked; only a write that blocks is cancelled. */
  predicate Proper(p: Pipe, op: Op) {
    && (op.DoWrite? ==> SendersOk([op.w] + p.writers))
    && (op.DropWriter? ==> exists i :: 0 <= i < |p.writers| && p.writers[i].sender == op.sender)
  }

  lemma StepKeeps(p: Pipe, op: Op)
    requires Ok(p) && Proper(p, op)
    ensures Ok(Step(p, op))
  {
    hide Accounted, Write, Read;
    match op
    case DoWrite(w) => WriteKeeps(p, w);
    case DoRead(reader) =>
      FastReadSame(p, reader);
      ReadKeeps(p, reader);
    case DropReader(i) => AccountedOf(p, Step(p, op));
    case DropWriter(sender) => AccountedOf(p, Step(p, op));
  }

  predicate ProperRun(p: Pipe, ops: seq<Op>)
    decreases |ops|
  {
    ops == [] || (Proper(p, ops[0]) && ProperRun(Step(p, ops[0]), ops[1..]))
  }

  function Run(p: Pipe, ops: seq<Op>): (r: Pipe)
    decreases |ops|
  {
    if ops == [] then p else Run(Step(p, ops[0]), ops[1..])
  }

  /** Over every run from an empty pipe. */
  lemma {:induction false} RunKeeps(p: Pipe, ops: seq<Op>)
    requires Ok(p) && ProperRun(p, ops)
    ensures Ok(Run(p, ops))
    decreases |ops|
  {
    hide Ok, Step, Proper;
    if ops != [] {
      StepKeeps(p, ops[0]);
      RunKeeps(Step(p, ops[0]), ops[1..]);
    }
  }

  // ---- What each sender has sent

  /** The messages of one sender, in order. */
  function From(w: seq<Writer>, sender: nat): (s: seq<Msg>)
    decreases w
  {
    if w == [] then [] else (if w[0].sender == sender then [w[0].msg] else []) + From(w[1..], sender)
  }

  lemma FromEmpty(sender: nat)
    ensures From([], sender) == []
  {
  }

  lemma FromStep(w: seq<Writer>, sender: nat)
    requires w != []
    ensures From(w, sender) == (if w[0].sender == sender then [w[0].msg] else []) + From(w[1..], sender)
  {
  }

  lemma {:induction false} FromConcat(a: seq<Writer>, b: seq<Writer>, sender: nat)
    ensures From(a + b, sender) == From(a, sender) + From(b, sender)
    decreases a
  {
    hide From;
    if a == [] {
      assert a + b == b;
      FromEmpty(sender);
      assert [] + From(b, sender) == From(b, sender);
    } else {
      assert (a + b)[1..] == a[1..] + b && (a + b)[0] == a[0];
      FromStep(a + b, sender);
      FromStep(a, sender);
      FromConcat(a[1..], b, sender);
    }
  }

  lemma FromOne(w: Writer, sender: nat)
    ensures From([w], sender) == if w.sender == sender then [w.msg] else []
  {
    assert [w][1..] == [];
  }

  lemma {:induction false} FromNone(w: seq<Writer>, sender: nat)
    requires forall i :: 0 <= i < |w| ==> w[i].sender != sender
    ensures From(w, sender) == []
    decreases w
  {
    if w != [] {
      assert w[0].sender != sender;
      FromNone(w[1..], sender);
    }
  }

  /** What the operations alone say a sender has written: a cancelled message is its last one and does not count. */
  function WroteOne(done: seq<Msg>, op: Op, sender: nat): (s: seq<Msg>) {
    if op.DoWrite? && op.w.sender == sender then done + [op.w.msg]
    else if op == DropWriter(sender) && done != [] then done[..|done| - 1]
    else done
  }

  function Wrote(done: seq<Msg>, ops: seq<Op>, sender: nat): (s: seq<Msg>)
    decreases |ops|
  {
    if ops == [] then done else Wrote(WroteOne(done, ops[0], sender), ops[1..], sender)
  }

  /** What has gone in from a sender, followed by what it is blocked with. */
  function Sent(p: Pipe, sender: nat): (s: seq<Msg>) { From(p.accepted, sender) + From(p.writers, sender) }

  lemma WriteSent(p: Pipe, w: Writer, sender: nat)
    requires Ok(p) && SendersOk([w] + p.writers)
    ensures Sent(Write(p, w), sender) == Sent(p, sender) + if w.sender == sender then [w.msg] else []
  {
    hide Ok, Put, From, SendersOk;
    FromOne(w, sender);
    if w.sender == sender {
      NotBlocked(w, p.writers);
      FromNone(p.writers, sender);
    }
    if |p.q| < CAPACITY {
      PutRest(p, w);
      FromConcat(p.accepted, [w], sender);
    } else {
      FromConcat([w], p.writers, sender);
    }
  }

  lemma NotBlocked(w: Writer, writers: seq<Writer>)
    requires SendersOk([w] + writers)
    ensures forall i :: 0 <= i < |writers| ==> writers[i].sender != w.sender
  {
    var all := [w] + writers;
    assert all[0] == w;
    forall i | 0 <= i < |writers|
      ensures writers[i].sender != w.sender
    {
      assert all[i + 1] == writers[i] && all[0].sender != all[i + 1].sender;
    }
  }

  lemma ReadSent(p: Pipe, reader: nat, sender: nat)
    ensures Sent(Read(p, reader), sender) == Sent(p, sender)
  {
    hide Put, From;
    if p.q != [] && p.writers != [] {
      var a := Get(p);
      var b := a.(writers := a.writers[1..]);
      PutRest(b, p.writers[0]);
      FromConcat(p.accepted, [p.writers[0]], sender);
      assert p.writers == [p.writers[0]] + p.writers[1..];
      FromConcat([p.writers[0]], p.writers[1..], sender);
    }
  }

  lemma DropSent(p: Pipe, who: nat, sender: nat)
    requires SendersOk(p.writers) && exists i :: 0 <= i < |p.writers| && p.writers[i].sender == who
    ensures Sent(Step(p, DropWriter(who)), sender) == WroteOne(Sent(p, sender), DropWriter(who), sender)
  {
    hide From, SendersOk;
    var i := Place(p.writers, who);
    FromSplit(p.writers, i, sender);
    FromOne(p.writers[i], sender);
    if who == sender {
      FromNone(p.writers[..i], sender);
      OthersDiffer(p.writers, i, p.writers[i + 1..]);
      FromNone(p.writers[i + 1..], sender);
      LastOff(From(p.accepted, sender), p.writers[i].msg);
    }
  }

  lemma FromSplit(w: seq<Writer>, i: nat, sender: nat)
    requires i < |w|
    ensures From(w, sender) == From(w[..i], sender) + From([w[i]], sender) + From(w[i + 1..], sender)
    ensures From(Without(w, i), sender) == From(w[..i], sender) + From(w[i + 1..], sender)
  {
    hide From;
    var a, b := w[..i], w[i + 1..];
    assert w == a + ([w[i]] + b);
    FromConcat(a, [w[i]] + b, sender);
    FromConcat([w[i]], b, sender);
    FromConcat(a, b, sender);
  }

  lemma LastOff(s: seq<Msg>, m: Msg)
    ensures var t := s + ([] + [m] + []); t != [] && t[..|t| - 1] == s + ([] + [])
  {
  }

  lemma OthersDiffer(w: seq<Writer>, i: nat, b: seq<Writer>)
    requires SendersOk(w) && i < |w| && b == w[i + 1..]
    ensures forall j :: 0 <= j < |b| ==> b[j].sender != w[i].sender
  {
    assert forall j :: 0 <= j < |b| ==> b[j] == w[i + 1 + j];
  }

  /** Over every run no message is lost, doubled or given to another sender on the way in: for each sender, what it has written
      and not cancelled is what has gone in from it, in order, followed by what it is blocked with. */
  lemma {:induction false} SentKept(p: Pipe, ops: seq<Op>, sender: nat)
    requires Ok(p) && ProperRun(p, ops)
    ensures Sent(Run(p, ops), sender) == Wrote(Sent(p, sender), ops, sender)
    decreases |ops|
  {
    hide Write, Read, Accounted, From, SendersOk;
    if ops != [] {
      var next := Step(p, ops[0]);
      match ops[0] {
        case DoWrite(w) => WriteSent(p, w, sender);
        case DoRead(reader) =>
          FastReadSame(p, reader);
          ReadSent(p, reader, sender);
        case DropReader(i) =>
        case DropWriter(who) => DropSent(p, who, sender);
      }
      assert Sent(next, sender) == WroteOne(Sent(p, sender), ops[0], sender);
      StepKeeps(p, ops[0]);
      SentKept(next, ops[1..], sender);
    }
  }

  /** From an empty pipe: a sender that is not blocked has got in all it has written, in order; one that is blocked all but
      the last. */
  lemma AllSent(ops: seq<Op>, sender: nat)
    requires ProperRun(Pipe([], [], [], [], [], []), ops)
    ensures var p := Run(Pipe([], [], [], [], [], []), ops);
            && Wrote([], ops, sender) == From(p.accepted, sender) + From(p.writers, sender)
            && |From(p.writers, sender)| <= 1
            && (From(p.writers, sender) == [] <==> Place(p.writers, sender) == |p.writers|)
  {
    hide ProperRun, Run, Accounted, From;
    var e := Pipe([], [], [], [], [], []);
    StartsOk();
    RunKeeps(e, ops);
    SentKept(e, ops, sender);
    FromNone([], sender);
    BlockedOnce(Run(e, ops).writers, sender);
  }

  lemma BlockedOnce(w: seq<Writer>, sender: nat)
    requires SendersOk(w)
    ensures |From(w, sender)| <= 1 && (From(w, sender) == [] <==> Place(w, sender) == |w|)
  {
    hide From;
    var i := Place(w, sender);
    if i < |w| {
      FromSplit(w, i, sender);
      FromOne(w[i], sender);
      FromNone(w[..i], sender);
      OthersDiffer(w, i, w[i + 1..]);
      FromNone(w[i + 1..], sender);
    } else {
      FromNone(w, sender);
    }
  }

  lemma StartsOk()
    ensures Ok(Pipe([], [], [], [], [], []))
  {
  }

  // ---- The routines

  class Queue {
    const slots: array<Msg>
    /** Bytes in use. */
    var qindex: int
    var readers: seq<nat>
    var writers: seq<Writer>
    ghost var accepted: seq<Writer>
    ghost var delivered: seq<Msg>
    ghost var stamps: seq<nat>

    /** The byte count is a multiple of 16 in 0..128. */
    ghost predicate Shape()
      reads this
    {
      slots.Length == CAPACITY && 0 <= qindex <= 128 && qindex % 16 == 0
    }

    ghost function Q(): (r: seq<Msg>)
      requires Shape()
      reads this, slots
    {
      slots[..qindex / 16]
    }

    ghost function S(): (r: Pipe)
      requires Shape()
      reads this, slots
    {
      Pipe(Q(), readers, writers, accepted, delivered, stamps)
    }

    constructor (blank: Msg)
      ensures fresh(slots) && Shape() && S() == Pipe([], [], [], [], [], [])
    {
      slots := new Msg[CAPACITY](i => blank);
      qindex, readers, writers, accepted, delivered, stamps := 0, [], [], [], [], [];
    }

    /** Add a message, folding it into an earlier one where the kinds allow. */
    method Nq(w: Writer)
      requires Shape() && |Q()| < CAPACITY
      modifies this`qindex, this`accepted, this`stamps, slots
      ensures Shape() && S() == Put(old(S()), w)
    {
      ghost var q := Q();
      var m := w.msg;
      accepted, stamps := accepted + [w], stamps + [|delivered|];
      slots[qindex / 16] := m;
      var n := 16;
      assert slots[..qindex / 16] == q;
      if Foldable(m) {
        var index: nat := 0;
        while index < qindex && n != 0
          invariant index % 16 == 0 && Shape() && (n == 0 || n == 16) && qindex == old(qindex) && accepted == old(accepted) + [w]
          invariant stamps == old(stamps) + [|delivered|]
          invariant n == 16 ==> Q() == q && Fold(q, m, index / 16) == Enq(q, m) && slots[qindex / 16] == m
          invariant n == 0 ==> Q() == Enq(q, m)
          decreases 128 - index + n
        {
          var i := index / 16;
          var om := slots[i];
          assert om == q[i];
          if om.kind == WM_REDRAW && m.handle == om.handle {
            slots[i] := om.(rect := Union(m.rect, om.rect));
            assert Q() == q[i := slots[i]];
            n := 0;
          } else if om.kind == WM_ARROWED {
            slots[i] := m;
            assert Q() == q[i := m];
            n := 0;
          } else {
            index := index + 16 * om.extra + 16;
            assert index / 16 == i + 1 + om.extra;
          }
        }
      }
      qindex := qindex + n;
      if n == 16 {
        assert Q() == q + [m];
      }
    }

    /** Take the first message off and move the others down. */
    method Dq() returns (m: Msg)
      requires Shape() && Q() != []
      modifies this`qindex, this`delivered, slots
      ensures Shape() && S() == Get(old(S())) && m == old(Q())[0]
    {
      m := slots[0];
      delivered := delivered + [m];
      qindex := qindex - 16;
      ShiftDown(slots, qindex / 16);
    }

    /** A write: true when it went through, false when the sender has to wait. */
    method AqueueWrite(w: Writer) returns (ready: bool)
      requires Shape() && Ok(S())
      modifies this, slots
      ensures Shape() && S() == Write(old(S()), w)
      ensures ready == (|old(Q())| < CAPACITY)
    {
      hide Ok, Put;
      OkFacts(S());
      ready := 16 <= 128 - qindex;
      if ready {
        EnqCovers(Q(), w.msg, 0, w.msg.rect);
        ghost var p := S();
        Nq(w);
        PutFacts(p, w);
        if readers != [] {
          readers := readers[1..];
          var m := Dq();
        }
      } else {
        writers := [w] + writers;
      }
    }

    /** A read: the message when there is one, otherwise the reader has to wait. */
    method AqueueRead(reader: nat) returns (ready: bool, m: Msg)
      requires Shape() && Ok(S())
      modifies this, slots
      ensures Shape() && S() == Read(old(S()), reader)
      ensures ready == (old(Q()) != []) && (ready ==> m == old(Q())[0])
    {
      hide Ok, Put;
      ready := qindex > 0;
      if ready {
        m := Dq();
        if writers != [] {
          var w := writers[0];
          writers := writers[1..];
          Nq(w);
        }
      } else {
        m := slots[0];
        readers := [reader] + readers;
      }
    }

    /** A 16-byte `appl_read`, with its short cut: always just what an ordinary read does. */
    method ApRead(reader: nat) returns (ready: bool, m: Msg)
      requires Shape() && Ok(S())
      modifies this, slots
      ensures Shape() && Ok(S()) && S() == Read(old(S()), reader)
      ensures ready == (old(Q()) != []) && (ready ==> m == old(Q())[0])
    {
      hide Accounted, Read, Put;
      ReadKeeps(S(), reader);
      FastReadSame(S(), reader);
      if qindex == 16 {
        m := slots[0];
        delivered := delivered + [m];
        qindex := 0;
        assert Q() == old(Q())[1..];
        return true, m;
      }
      ready, m := AqueueRead(reader);
    }
  }

  /** Move n messages down by one, over the first. */
  method ShiftDown(slots: array<Msg>, n: nat)
    requires n < slots.Length
    modifies slots
    ensures slots[..n] == old(slots[..n + 1])[1..]
  {
    var i: nat := 0;
    ghost var was := slots[..];
    while i < n
      invariant i <= n
      invariant forall j :: 0 <= j < i ==> slots[j] == was[j + 1]
      invariant forall j :: i <= j <= n ==> slots[j] == was[j]
    {
      slots[i] := slots[i + 1];
      i := i + 1;
    }
  }

  lemma OkFacts(p: Pipe)
    requires Ok(p)
    ensures p.readers != [] ==> p.q == []
  {
  }

  lemma PutFacts(p: Pipe, w: Writer)
    ensures Put(p, w).readers == p.readers && Put(p, w).writers == p.writers
    ensures p.q == [] ==> Put(p, w).q == [w.msg]
  {
  }
}
