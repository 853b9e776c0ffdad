/** Object trees linked through an array, and the non-recursive walk over them. */
module AesTree {
  import opened Basics

  const NIL := -1
  const ROOT := 0
  const MAX_DEPTH := 8

  datatype Object = Object(next: int, head: int, tail: int, hidetree: bool, x: int, y: int)

  /** A list of sibling trees: the first one, its children, and the siblings after it. */
  datatype Forest = Empty | Node(id: nat, kids: Forest, next: Forest)

  function FirstId(f: Forest): (i: int) { if f.Empty? then NIL else f.id }

  function LastId(f: Forest): (i: int) {
    if f.Empty? then NIL else if f.next.Empty? then f.id else LastId(f.next)
  }

  function Ids(f: Forest): (s: set<nat>) {
    if f.Empty? then {} else {f.id} + Ids(f.kids) + Ids(f.next)
  }

  function Size(f: Forest): (n: nat) {
    if f.Empty? then 0 else 1 + Size(f.kids) + Size(f.next)
  }

  /** The array links `f` together: the last of the siblings leads back to `parent`. */
  ghost predicate Linked(tree: seq<Object>, f: Forest, parent: int) {
    f.Node? ==>
      && f.id < |tree|
      && tree[f.id].head == FirstId(f.kids) && tree[f.id].tail == LastId(f.kids)
      && tree[f.id].next == (if f.next.Empty? then parent else f.next.id)
      && Linked(tree, f.kids, f.id) && Linked(tree, f.next, parent)
  }

  /** No object occurs twice. */
  ghost predicate Distinct(f: Forest) {
    f.Node? ==>
      && f.id !in Ids(f.kids) && f.id !in Ids(f.next) && Ids(f.kids) !! Ids(f.next)
      && Distinct(f.kids) && Distinct(f.next)
  }

  /** A call of the routine: the object and its position on the screen. */
  datatype Call = Call(obj: nat, x: int, y: int)

  /** The objects of `f` are in an array of length `n`. */
  ghost predicate Within(f: Forest, n: nat) {
    f.Node? ==> f.id < n && Within(f.kids, n) && Within(f.next, n)
  }

  /** The recursive walk: each object, then its children unless it hides them or they are too deep. */
  ghost function Preorder(tree: seq<Object>, f: Forest, depth: nat, maxdep: nat, x: int, y: int): (calls: seq<Call>)
    requires Within(f, |tree|)
  {
    if f.Empty? then [] else
      var o := tree[f.id];
      [Call(f.id, x + o.x, y + o.y)]
      + (if o.hidetree || depth > maxdep then [] else Preorder(tree, f.kids, depth + 1, maxdep, x + o.x, y + o.y))
      + Preorder(tree, f.next, depth, maxdep, x, y)
  }

  /** The calls before the first one on object `last`. */
  function Before(calls: seq<Call>, last: int): (r: seq<Call>) {
    if calls == [] || calls[0].obj == last then [] else [calls[0]] + Before(calls[1..], last)
  }

  lemma {:induction false} BeforeFirst(calls: seq<Call>, c: Call, last: int)
    ensures Before([c] + calls, last) == if c.obj == last then [] else [c] + Before(calls, last)
  {
    assert ([c] + calls)[1..] == calls;
  }

  lemma LinkedIds(tree: seq<Object>, f: Forest, parent: int)
    requires Linked(tree, f, parent)
    ensures Within(f, |tree|)
  {
    if f.Node? {
      LinkedIds(tree, f.kids, f.id);
      LinkedIds(tree, f.next, parent);
    }
  }

  lemma LastInIds(f: Forest)
    ensures LastId(f) == NIL <==> f.Empty?
    ensures f.Node? ==> LastId(f) >= 0 && LastId(f) in Ids(f)
  {
  }

  // ---------- The state of the walk

  /** `f` is an object with the siblings after it, among the children of `up` (if there is one). */
  ghost predicate LevelOk(tree: seq<Object>, f: Forest, up: Forest, parent: int) {
    && f.Node? && Distinct(f) && Linked(tree, f, if up.Empty? then parent else up.id)
    && (up.Node? ==> LastId(f) == LastId(up.kids) && Ids(f) <= Ids(up.kids))
  }

  ghost predicate LevelAt(tree: seq<Object>, path: seq<Forest>, i: nat, parent: int)
    requires i < |path|
  {
    LevelOk(tree, path[i], if i == 0 then Empty else path[i - 1], parent)
  }

  /** The objects from the start of the walk down to the current one, each with the siblings after it. */
  ghost predicate PathOk(tree: seq<Object>, path: seq<Forest>, start: Forest, parent: int) {
    && path != [] && path[0] == start && start.Node? && start.next.Empty?
    && forall i :: 0 <= i < |path| ==> LevelAt(tree, path, i, parent)
  }

  /** The calls still to come from the siblings after the objects of the path, innermost first. */
  ghost function Rest(tree: seq<Object>, path: seq<Forest>, maxdep: nat, xs: seq<int>, ys: seq<int>): (calls: seq<Call>)
    requires |xs| == |ys| && |path| <= |xs|
    requires forall i :: 0 <= i < |path| ==> path[i].Node? && Within(path[i], |tree|)
  {
    if path == [] then [] else
      var n := |path| - 1;
      assert Within(path[n], |tree|);
      Preorder(tree, path[n].next, |path|, maxdep, xs[n], ys[n]) + Rest(tree, path[..n], maxdep, xs, ys)
  }

  /** The number of objects after those of the path. */
  ghost function Left(path: seq<Forest>): (n: nat)
    requires forall i :: 0 <= i < |path| ==> path[i].Node?
  {
    if path == [] then 0 else Size(path[|path| - 1].next) + Left(path[..|path| - 1])
  }

  /** Only the offsets of the levels of the path matter. */
  lemma {:induction false} RestFrame(tree: seq<Object>, path: seq<Forest>, maxdep: nat, xs: seq<int>, ys: seq<int>, xs': seq<int>, ys': seq<int>)
    requires |xs| == |ys| == |xs'| == |ys'| && |path| <= |xs|
    requires forall i :: 0 <= i < |path| ==> path[i].Node? && Within(path[i], |tree|)
    requires forall i :: 0 <= i < |path| ==> xs[i] == xs'[i] && ys[i] == ys'[i]
    ensures Rest(tree, path, maxdep, xs, ys) == Rest(tree, path, maxdep, xs', ys')
    decreases |path|
  {
    if path != [] {
      RestFrame(tree, path[..|path| - 1], maxdep, xs, ys, xs', ys');
    }
  }

  /** The object after the siblings of `f` is not one whose children end in `f`, unless it is the parent. */
  lemma TailTest(tree: seq<Object>, f: Forest, parent: int)
    requires f.Node? && Linked(tree, f, parent) && Distinct(f)
    ensures f.next.Node? ==> f.next.id < |tree| && tree[f.next.id].tail != f.id
  {
    if f.next.Node? { LastInIds(f.next.kids); }
  }

  lemma DownOk(tree: seq<Object>, path: seq<Forest>, start: Forest, parent: int)
    requires PathOk(tree, path, start, parent) && path[|path| - 1].Node? && path[|path| - 1].kids.Node?
    ensures PathOk(tree, path + [path[|path| - 1].kids], start, parent)
  {
    var p := path + [path[|path| - 1].kids];
    forall i | 0 <= i < |p|
      ensures LevelAt(tree, p, i, parent)
    {
      if i < |path| { assert LevelAt(tree, path, i, parent); }
      assert LevelAt(tree, path, |path| - 1, parent);
    }
  }

  lemma NextOk(tree: seq<Object>, path: seq<Forest>, start: Forest, parent: int)
    requires PathOk(tree, path, start, parent) && path[|path| - 1].Node? && path[|path| - 1].next.Node?
    ensures |path| > 1 && PathOk(tree, path[|path| - 1 := path[|path| - 1].next], start, parent)
  {
    var p := path[|path| - 1 := path[|path| - 1].next];
    forall i | 0 <= i < |p|
      ensures LevelAt(tree, p, i, parent)
    {
      if i < |path| { assert LevelAt(tree, path, i, parent); }
      assert LevelAt(tree, path, |path| - 1, parent);
    }
  }

  lemma UpOk(tree: seq<Object>, path: seq<Forest>, start: Forest, parent: int)
    requires PathOk(tree, path, start, parent) && |path| > 1
    ensures PathOk(tree, path[..|path| - 1], start, parent)
  {
    var p := path[..|path| - 1];
    forall i | 0 <= i < |p|
      ensures LevelAt(tree, p, i, parent)
    {
      if i < |path| { assert LevelAt(tree, path, i, parent); }
      assert LevelAt(tree, path, |path| - 1, parent);
    }
  }

  /** All objects of the path are different ones, in the start tree. */
  lemma {:induction false} PathIds(tree: seq<Object>, path: seq<Forest>, start: Forest, parent: int, i: nat)
    requires PathOk(tree, path, start, parent) && i < |path|
    ensures Ids(path[i]) <= Ids(start) && (i > 0 ==> start.id !in Ids(path[i]))
    decreases i
  {
    assert LevelAt(tree, path, i, parent) && LevelAt(tree, path, 0, parent);
    if i > 0 {
      assert LevelAt(tree, path, i - 1, parent);
      PathIds(tree, path, start, parent, i - 1);
    }
  }

  // ---------- The walk itself

  datatype Mode = Child | Sibling

  /** What is still to be called in the given state of the walk. */
  ghost function Pending(tree: seq<Object>, path: seq<Forest>, maxdep: nat, xs: seq<int>, ys: seq<int>, mode: Mode): (calls: seq<Call>)
    requires path != [] && |xs| == |ys| && |path| <= |xs|
    requires forall i :: 0 <= i < |path| ==> path[i].Node? && Within(path[i], |tree|)
  {
    var n := |path| - 1;
    if mode.Sibling? then Rest(tree, path, maxdep, xs, ys)
    else
      assert Within(path[n], |tree|);
      Preorder(tree, path[n], |path|, maxdep, xs[n], ys[n]) + Rest(tree, path[..n], maxdep, xs, ys)
  }

  lemma RestBelow(tree: seq<Object>, path: seq<Forest>, maxdep: nat, xs: seq<int>, ys: seq<int>, xs': seq<int>, ys': seq<int>)
    requires path != [] && |xs| == |ys| == |xs'| == |ys'| && |path| <= |xs|
    requires forall i :: 0 <= i < |path| ==> path[i].Node? && Within(path[i], |tree|)
    requires forall i :: 0 <= i < |path| ==> xs[i] == xs'[i] && ys[i] == ys'[i]
    ensures Rest(tree, path[..|path| - 1], maxdep, xs, ys) == Rest(tree, path[..|path| - 1], maxdep, xs', ys')
  {
    hide Rest, Within;
    RestFrame(tree, path[..|path| - 1], maxdep, xs, ys, xs', ys');
  }

  lemma PendingChild(tree: seq<Object>, path: seq<Forest>, maxdep: nat, xs: seq<int>, ys: seq<int>)
    requires path != [] && |xs| == |ys| && |path| <= |xs|
    requires forall i :: 0 <= i < |path| ==> path[i].Node? && Within(path[i], |tree|)
    ensures Within(path[|path| - 1], |tree|)
    ensures var n := |path| - 1;
            Pending(tree, path, maxdep, xs, ys, Child) ==
            Preorder(tree, path[n], |path|, maxdep, xs[n], ys[n]) + Rest(tree, path[..n], maxdep, xs, ys)
  {
    hide Rest, Preorder, Within;
  }

  lemma PendingBelow(tree: seq<Object>, path: seq<Forest>, kids: Forest, maxdep: nat, xs: seq<int>, ys: seq<int>)
    requires |xs| == |ys| && |path| < |xs| && kids.Node? && Within(kids, |tree|)
    requires forall i :: 0 <= i < |path| ==> path[i].Node? && Within(path[i], |tree|)
    ensures var n := |path|;
            Pending(tree, path + [kids], maxdep, xs, ys, Child) ==
            Preorder(tree, kids, n + 1, maxdep, xs[n], ys[n]) + Rest(tree, path, maxdep, xs, ys)
  {
    hide Rest, Preorder, Within, Pending;
    var p := path + [kids];
    assert p[..|path|] == path && p[|path|] == kids;
    PendingChild(tree, p, maxdep, xs, ys);
  }

  lemma PendingSibling(tree: seq<Object>, path: seq<Forest>, maxdep: nat, xs: seq<int>, ys: seq<int>)
    requires path != [] && |xs| == |ys| && |path| <= |xs|
    requires forall i :: 0 <= i < |path| ==> path[i].Node? && Within(path[i], |tree|)
    ensures Pending(tree, path, maxdep, xs, ys, Sibling) == Rest(tree, path, maxdep, xs, ys)
  {
    hide Rest, Preorder, Within;
  }

  lemma RestStep(tree: seq<Object>, path: seq<Forest>, maxdep: nat, xs: seq<int>, ys: seq<int>)
    requires path != [] && |xs| == |ys| && |path| <= |xs|
    requires forall i :: 0 <= i < |path| ==> path[i].Node? && Within(path[i], |tree|)
    ensures Within(path[|path| - 1].next, |tree|)
    ensures var n := |path| - 1;
            Rest(tree, path, maxdep, xs, ys) ==
            Preorder(tree, path[n].next, |path|, maxdep, xs[n], ys[n]) + Rest(tree, path[..n], maxdep, xs, ys)
  {
    assert Within(path[|path| - 1], |tree|);
  }

  lemma PreorderStep(tree: seq<Object>, f: Forest, depth: nat, maxdep: nat, x: int, y: int)
    requires f.Node? && Within(f, |tree|)
    ensures Within(f.kids, |tree|) && Within(f.next, |tree|)
    ensures var o := tree[f.id];
            Preorder(tree, f, depth, maxdep, x, y) ==
            [Call(f.id, x + o.x, y + o.y)]
            + (if o.hidetree || depth > maxdep then [] else Preorder(tree, f.kids, depth + 1, maxdep, x + o.x, y + o.y))
            + Preorder(tree, f.next, depth, maxdep, x, y)
  {
  }

  lemma PreorderParent(tree: seq<Object>, f: Forest, depth: nat, maxdep: nat, x: int, y: int, x': int, y': int)
    requires f.Node? && Within(f, |tree|) && !tree[f.id].hidetree && depth <= maxdep
    requires x' == x + tree[f.id].x && y' == y + tree[f.id].y
    ensures Within(f.kids, |tree|) && Within(f.next, |tree|)
    ensures Preorder(tree, f, depth, maxdep, x, y) ==
            [Call(f.id, x', y')] + Preorder(tree, f.kids, depth + 1, maxdep, x', y') + Preorder(tree, f.next, depth, maxdep, x, y)
  {
  }

  lemma Regroup(c: Call, k: seq<Call>, p: seq<Call>, r: seq<Call>)
    ensures [c] + k + p + r == [c] + (k + (p + r))
    ensures [c] + [] + p + r == [c] + (p + r)
  {
  }

  /** The calls of an object without visible children and of what comes after it. */
  lemma LeafChild(tree: seq<Object>, path: seq<Forest>, f: Forest, n: nat, maxdep: nat, xs: seq<int>, ys: seq<int>, c: Call)
    requires |xs| == |ys| && |path| <= |xs| && |path| == n + 1 && path[n] == f
    requires forall i :: 0 <= i < |path| ==> path[i].Node? && Within(path[i], |tree|)
    requires f.Node? && f.id < |tree| && (tree[f.id].hidetree || n + 1 > maxdep || f.kids.Empty?)
    requires c == Call(f.id, xs[n] + tree[f.id].x, ys[n] + tree[f.id].y)
    ensures Within(f, |tree|) && Within(f.next, |tree|)
    ensures Pending(tree, path, maxdep, xs, ys, Child) ==
            [c] + [] + Preorder(tree, f.next, n + 1, maxdep, xs[n], ys[n]) + Rest(tree, path[..n], maxdep, xs, ys)
  {
    hide Rest, Preorder, Pending, Within;
    assert Within(f, |tree|);
    PendingChild(tree, path, maxdep, xs, ys);
    PreorderStep(tree, f, n + 1, maxdep, xs[n], ys[n]);
    NoKids(tree, f, n + 2, maxdep, xs[n] + tree[f.id].x, ys[n] + tree[f.id].y);
  }

  /** Doing an object: one call, then its siblings if its children are hidden, too deep or none ... */
  lemma DoLeaf(tree: seq<Object>, path: seq<Forest>, maxdep: nat, xs: seq<int>, ys: seq<int>, xs': seq<int>, ys': seq<int>)
    requires path != [] && |xs| == |ys| == |xs'| == |ys'| && |path| < |xs|
    requires forall i :: 0 <= i < |path| ==> path[i].Node? && Within(path[i], |tree|)
    requires forall i :: 0 <= i < |path| ==> xs[i] == xs'[i] && ys[i] == ys'[i]
    requires var f := path[|path| - 1]; f.id < |tree| && (tree[f.id].hidetree || |path| > maxdep || f.kids.Empty?)
    ensures var n, f := |path| - 1, path[|path| - 1];
            Pending(tree, path, maxdep, xs, ys, Child) ==
            [Call(f.id, xs[n] + tree[f.id].x, ys[n] + tree[f.id].y)] + Pending(tree, path, maxdep, xs', ys', Sibling)
  {
    hide Rest, Preorder, Pending, Within;
    var n, f := |path| - 1, path[|path| - 1];
    var c := Call(f.id, xs[n] + tree[f.id].x, ys[n] + tree[f.id].y);
    LeafChild(tree, path, f, n, maxdep, xs, ys, c);
    PendingSibling(tree, path, maxdep, xs', ys');
    RestStep(tree, path, maxdep, xs', ys');
    RestBelow(tree, path, maxdep, xs, ys, xs', ys');
    var q, r := Preorder(tree, f.next, |path|, maxdep, xs[n], ys[n]), Rest(tree, path[..n], maxdep, xs, ys);
    LeafCalls(c, [c] + [] + q, q, r, Pending(tree, path, maxdep, xs, ys, Child), Pending(tree, path, maxdep, xs', ys', Sibling));
  }

  lemma LeafCalls(c: Call, all: seq<Call>, q: seq<Call>, r: seq<Call>, child: seq<Call>, sibling: seq<Call>)
    requires all == [c] + [] + q && sibling == q + r && child == all + r
    ensures child == [c] + sibling
  {
    Regroup(c, [], q, r);
  }

  lemma NoKids(tree: seq<Object>, f: Forest, depth: nat, maxdep: nat, x: int, y: int)
    requires f.Node? && Within(f, |tree|)
    ensures Within(f.kids, |tree|) && (f.kids.Empty? ==> Preorder(tree, f.kids, depth, maxdep, x, y) == [])
  {
  }

  /** ... and its children, one level down, otherwise. */
  lemma DoParent(tree: seq<Object>, path: seq<Forest>, maxdep: nat, xs: seq<int>, ys: seq<int>, xs': seq<int>, ys': seq<int>)
    requires path != [] && |xs| == |ys| == |xs'| == |ys'| && |path| < |xs|
    requires forall i :: 0 <= i < |path| ==> path[i].Node? && Within(path[i], |tree|)
    requires forall i :: 0 <= i < |path| ==> xs[i] == xs'[i] && ys[i] == ys'[i]
    requires var f := path[|path| - 1]; f.id < |tree| && !tree[f.id].hidetree && |path| <= maxdep && f.kids.Node?
    requires var n, f := |path| - 1, path[|path| - 1];
             xs'[n + 1] == xs[n] + tree[f.id].x && ys'[n + 1] == ys[n] + tree[f.id].y
    ensures Within(path[|path| - 1].kids, |tree|)
    ensures var n, f := |path| - 1, path[|path| - 1];
            Pending(tree, path, maxdep, xs, ys, Child) ==
            [Call(f.id, xs'[n + 1], ys'[n + 1])] + Pending(tree, path + [f.kids], maxdep, xs', ys', Child)
  {
    hide Rest, Preorder, Pending, Within;
    var n, f := |path| - 1, path[|path| - 1];
    assert Within(f, |tree|);
    PendingChild(tree, path, maxdep, xs, ys);
    RestStep(tree, path, maxdep, xs', ys');
    RestBelow(tree, path, maxdep, xs, ys, xs', ys');
    PreorderParent(tree, f, |path|, maxdep, xs[n], ys[n], xs'[n + 1], ys'[n + 1]);
    var c, k := Call(f.id, xs'[n + 1], ys'[n + 1]), Preorder(tree, f.kids, |path| + 1, maxdep, xs'[n + 1], ys'[n + 1]);
    var q, r := Preorder(tree, f.next, |path|, maxdep, xs[n], ys[n]), Rest(tree, path[..n], maxdep, xs, ys);
    assert Pending(tree, path, maxdep, xs, ys, Child) == [c] + k + q + r;
    PendingBelow(tree, path, f.kids, maxdep, xs', ys');
    Regroup(c, k, q, r);
  }

  /** Going to the next sibling, or up if there is none, leaves the same calls to be made. */
  lemma MoveNext(tree: seq<Object>, path: seq<Forest>, maxdep: nat, xs: seq<int>, ys: seq<int>)
    requires path != [] && |xs| == |ys| && |path| <= |xs|
    requires forall i :: 0 <= i < |path| ==> path[i].Node? && Within(path[i], |tree|)
    requires path[|path| - 1].next.Node?
    ensures Within(path[|path| - 1].next, |tree|)
    ensures var n := |path| - 1;
            Pending(tree, path, maxdep, xs, ys, Sibling) == Pending(tree, path[n := path[n].next], maxdep, xs, ys, Child)
  {
    hide Rest, Preorder;
    var n := |path| - 1;
    RestStep(tree, path, maxdep, xs, ys);
    assert path[n := path[n].next][..n] == path[..n];
  }

  lemma MoveUp(tree: seq<Object>, path: seq<Forest>, maxdep: nat, xs: seq<int>, ys: seq<int>)
    requires path != [] && |xs| == |ys| && |path| <= |xs|
    requires forall i :: 0 <= i < |path| ==> path[i].Node? && Within(path[i], |tree|)
    requires path[|path| - 1].next.Empty?
    ensures Pending(tree, path, maxdep, xs, ys, Sibling) == Rest(tree, path[..|path| - 1], maxdep, xs, ys)
  {
    hide Rest;
    RestStep(tree, path, maxdep, xs, ys);
  }

  ghost predicate AllWithin(tree: seq<Object>, path: seq<Forest>) {
    forall i :: 0 <= i < |path| ==> path[i].Node? && Within(path[i], |tree|)
  }

  /** The state of a walk that is to make the calls `goal`. */
  ghost predicate WalkOk(tree: seq<Object>, f: Forest, parent: int, last: int, maxdep: nat, goal: seq<Call>,
                         calls: seq<Call>, path: seq<Forest>, xs: seq<int>, ys: seq<int>, mode: Mode)
  {
    && PathOk(tree, path, f, parent) && AllWithin(tree, path)
    && |path| <= maxdep + 1 < |xs| == |ys|
    && (forall i :: 0 <= i < |path| - 1 ==> path[i].id != last)
    && (mode.Sibling? ==> path[|path| - 1].id != last)
    && calls + Before(Pending(tree, path, maxdep, xs, ys, mode), last) == goal
  }

  lemma CallMade(calls: seq<Call>, c: Call, rest: seq<Call>, all: seq<Call>, last: int)
    requires all == [c] + rest && c.obj != last
    ensures calls + Before(all, last) == (calls + [c]) + Before(rest, last)
  {
    BeforeFirst(rest, c, last);
  }

  lemma LeafStep(tree: seq<Object>, f: Forest, parent: int, last: int, maxdep: nat, goal: seq<Call>,
                 calls: seq<Call>, path: seq<Forest>, xs: seq<int>, ys: seq<int>, xs': seq<int>, ys': seq<int>)
    requires WalkOk(tree, f, parent, last, maxdep, goal, calls, path, xs, ys, Child)
    requires var d, t := |path|, path[|path| - 1];
             && t.id < |tree| && t.id != last && (tree[t.id].hidetree || d > maxdep || t.kids.Empty?)
             && xs' == xs[d := xs[d - 1] + tree[t.id].x] && ys' == ys[d := ys[d - 1] + tree[t.id].y]
    ensures WalkOk(tree, f, parent, last, maxdep, goal, calls + [Call(path[|path| - 1].id, xs'[|path|], ys'[|path|])], path, xs', ys', Sibling)
  {
    hide Pending, Within, LevelAt;
    DoLeaf(tree, path, maxdep, xs, ys, xs', ys');
    CallMade(calls, Call(path[|path| - 1].id, xs'[|path|], ys'[|path|]), Pending(tree, path, maxdep, xs', ys', Sibling),
             Pending(tree, path, maxdep, xs, ys, Child), last);
  }

  lemma ParentStep(tree: seq<Object>, f: Forest, parent: int, last: int, maxdep: nat, goal: seq<Call>,
                   calls: seq<Call>, path: seq<Forest>, xs: seq<int>, ys: seq<int>, xs': seq<int>, ys': seq<int>)
    requires WalkOk(tree, f, parent, last, maxdep, goal, calls, path, xs, ys, Child)
    requires var d, t := |path|, path[|path| - 1];
             && t.id < |tree| && t.id != last && !tree[t.id].hidetree && d <= maxdep && t.kids.Node?
             && xs' == xs[d := xs[d - 1] + tree[t.id].x] && ys' == ys[d := ys[d - 1] + tree[t.id].y]
    ensures WalkOk(tree, f, parent, last, maxdep, goal, calls + [Call(path[|path| - 1].id, xs'[|path|], ys'[|path|])],
                   path + [path[|path| - 1].kids], xs', ys', Child)
  {
    hide Pending, Within, LevelAt;
    var p := path + [path[|path| - 1].kids];
    DoParent(tree, path, maxdep, xs, ys, xs', ys');
    DownOk(tree, path, f, parent);
    CallMade(calls, Call(path[|path| - 1].id, xs'[|path|], ys'[|path|]), Pending(tree, p, maxdep, xs', ys', Child),
             Pending(tree, path, maxdep, xs, ys, Child), last);
  }

  lemma NextStep(tree: seq<Object>, f: Forest, parent: int, last: int, maxdep: nat, goal: seq<Call>,
                 calls: seq<Call>, path: seq<Forest>, xs: seq<int>, ys: seq<int>)
    requires WalkOk(tree, f, parent, last, maxdep, goal, calls, path, xs, ys, Sibling) && path[|path| - 1].next.Node?
    ensures WalkOk(tree, f, parent, last, maxdep, goal, calls, path[|path| - 1 := path[|path| - 1].next], xs, ys, Child)
  {
    hide Pending, Within, LevelAt;
    MoveNext(tree, path, maxdep, xs, ys);
    NextOk(tree, path, f, parent);
  }

  lemma UpStep(tree: seq<Object>, f: Forest, parent: int, last: int, maxdep: nat, goal: seq<Call>,
               calls: seq<Call>, path: seq<Forest>, xs: seq<int>, ys: seq<int>)
    requires WalkOk(tree, f, parent, last, maxdep, goal, calls, path, xs, ys, Sibling)
    requires path[|path| - 1].next.Empty? && |path| > 1
    ensures WalkOk(tree, f, parent, last, maxdep, goal, calls, path[..|path| - 1], xs, ys, Sibling)
  {
    hide Within, LevelAt;
    MoveUp(tree, path, maxdep, xs, ys);
    UpOk(tree, path, f, parent);
  }

  /** Where the walk is in the array. */
  lemma Where(tree: seq<Object>, f: Forest, parent: int, path: seq<Forest>)
    requires PathOk(tree, path, f, parent)
    ensures var t := path[|path| - 1];
            && t.Node? && t.id < |tree| && tree[t.id].head == FirstId(t.kids)
            && (t.next.Node? ==> |path| > 1 && tree[t.id].next == t.next.id < |tree| && tree[t.next.id].tail != t.id)
            && (t.next.Empty? && |path| > 1 ==>
                  path[|path| - 2].Node? && tree[t.id].next == path[|path| - 2].id < |tree|
                  && tree[path[|path| - 2].id].tail == t.id)
            && (|path| == 1 ==> t == f && tree[t.id].next == parent)
            && (|path| > 1 ==> t.id in Ids(f) && t.id != f.id)
  {
    var n, t := |path| - 1, path[|path| - 1];
    assert LevelAt(tree, path, n, parent);
    PathIds(tree, path, f, parent, n);
    if n > 0 {
      assert LevelAt(tree, path, n - 1, parent);
    }
    TailTest(tree, t, if n == 0 then parent else path[n - 1].id);
  }

  /** At the end of the siblings of the start, or before object `last`, there is nothing left to call. */
  lemma WalkEnds(tree: seq<Object>, f: Forest, parent: int, last: int, maxdep: nat, goal: seq<Call>,
                 calls: seq<Call>, path: seq<Forest>, xs: seq<int>, ys: seq<int>, mode: Mode)
    requires WalkOk(tree, f, parent, last, maxdep, goal, calls, path, xs, ys, mode)
    requires var t := path[|path| - 1];
             || (mode.Child? && t.id == last)
             || (mode.Sibling? && t.next.Node? && t.next.id == last)
             || (mode.Sibling? && |path| == 1)
    ensures calls == goal
  {
    var n, t := |path| - 1, path[|path| - 1];
    assert Within(t, |tree|);
    if mode.Sibling? && t.next.Node? {
      MoveNext(tree, path, maxdep, xs, ys);
      PreorderStep(tree, t.next, |path|, maxdep, xs[n], ys[n]);
    } else if mode.Sibling? {
      MoveUp(tree, path, maxdep, xs, ys);
      assert path[..0] == [];
    } else {
      PreorderStep(tree, t, |path|, maxdep, xs[n], ys[n]);
    }
  }

  lemma WalkStarts(tree: seq<Object>, f: Forest, parent: int, last: int, maxdep: nat, xs: seq<int>, ys: seq<int>)
    requires f.Node? && f.next.Empty? && Linked(tree, f, parent) && Distinct(f) && Within(f, |tree|)
    requires maxdep + 1 < |xs| == |ys|
    ensures WalkOk(tree, f, parent, last, maxdep, Before(Preorder(tree, f, 1, maxdep, xs[0], ys[0]), last), [], [f], xs, ys, Child)
  {
    hide Preorder, Before;
    var p := [f];
    assert p[..0] == [];
    assert LevelAt(tree, p, 0, parent);
    var pre := Preorder(tree, f, 1, maxdep, xs[0], ys[0]);
    assert pre + [] == pre;
    assert Pending(tree, p, maxdep, xs, ys, Child) == pre + Rest(tree, [], maxdep, xs, ys);
  }

  /** The number of objects still to be done. */
  ghost function Todo(path: seq<Forest>, mode: Mode): (n: nat)
    requires path != [] && forall i :: 0 <= i < |path| ==> path[i].Node?
  {
    if mode.Child? then Left(path) + Size(path[|path| - 1].kids) + 1 else Left(path)
  }

  lemma TodoSteps(path: seq<Forest>)
    requires path != [] && forall i :: 0 <= i < |path| ==> path[i].Node?
    ensures var n, t := |path| - 1, path[|path| - 1];
            && Todo(path, Sibling) < Todo(path, Child)
            && (t.kids.Node? ==> Todo(path + [t.kids], Child) < Todo(path, Child))
            && (t.next.Node? ==> Todo(path[n := t.next], Child) == Todo(path, Sibling))
            && (t.next.Empty? && n > 0 ==> Todo(path[..n], Sibling) == Todo(path, Sibling))
  {
    var n, t := |path| - 1, path[|path| - 1];
    assert (path + [t.kids])[..n + 1] == path;
    assert path[n := t.next][..n] == path[..n];
  }

  /** The tests that end the walk hold only at the end of the start's own siblings or before `last`. */
  lemma Stops(tree: seq<Object>, f: Forest, parent: int, last: int, path: seq<Forest>)
    requires PathOk(tree, path, f, parent)
    requires f.id == ROOT || (last == parent && last !in Ids(f) && ROOT !in Ids(f))
    requires forall i :: 0 <= i < |path| - 1 ==> path[i].Node? && path[i].id != last
    requires var t := path[|path| - 1]; t.Node? && t.id < |tree| && (tree[t.id].next == last || t.id == ROOT)
    ensures var t := path[|path| - 1]; (t.next.Node? && t.next.id == last) || |path| == 1
  {
    Where(tree, f, parent, path);
  }

  /** The tests that end the walk hold whenever it has come to its end. */
  lemma StopsInTime(tree: seq<Object>, f: Forest, parent: int, last: int, path: seq<Forest>)
    requires PathOk(tree, path, f, parent) && |path| == 1
    requires f.id == ROOT || last == parent
    ensures f.id < |tree| && (tree[f.id].next == last || f.id == ROOT)
  {
    Where(tree, f, parent, path);
  }

  /** The non-recursive walk: from `start`, up to object `last`. */
  method EveryObj(tree: seq<Object>, start: nat, last: int, startx: int, starty: int, maxdep: nat, ghost f: Forest, ghost parent: int)
    returns (calls: seq<Call>)
    requires f.Node? && f.id == start && f.next.Empty? && Linked(tree, f, parent) && Distinct(f) && maxdep <= MAX_DEPTH
    requires start == ROOT || (last == parent && last !in Ids(f) && ROOT !in Ids(f))
    ensures Within(f, |tree|)
    ensures calls == Before(Preorder(tree, f, 1, maxdep, startx, starty), last)
  {
    hide Preorder, Pending, Before, Rest;
    LinkedIds(tree, f, parent);
    var x, y := seq(MAX_DEPTH + 2, _ => 0)[0 := startx], seq(MAX_DEPTH + 2, _ => 0)[0 := starty];
    var obj, depth, mode := start, 1, Child;
    calls := [];
    ghost var path, goal := [f], Before(Preorder(tree, f, 1, maxdep, startx, starty), last);
    WalkStarts(tree, f, parent, last, maxdep, x, y);
    while true
      invariant WalkOk(tree, f, parent, last, maxdep, goal, calls, path, x, y, mode)
      invariant |path| == depth && obj == path[depth - 1].id
      decreases Todo(path, mode), depth, mode == Sibling
    {
      Where(tree, f, parent, path);
      TodoSteps(path);
      if mode.Child? {
        if obj == last {
          WalkEnds(tree, f, parent, last, maxdep, goal, calls, path, x, y, mode);
          return;
        }
        ghost var xs, ys := x, y;
        x := x[depth := x[depth - 1] + tree[obj].x];
        y := y[depth := y[depth - 1] + tree[obj].y];
        ghost var done := calls;
        calls := calls + [Call(obj, x[depth], y[depth])];
        var tmp1 := tree[obj].head;
        if tmp1 != NIL && !tree[obj].hidetree && depth <= maxdep {
          ParentStep(tree, f, parent, last, maxdep, goal, done, path, xs, ys, x, y);
          path := path + [path[depth - 1].kids];
          depth, obj := depth + 1, tmp1;
        } else {
          LeafStep(tree, f, parent, last, maxdep, goal, done, path, xs, ys, x, y);
          mode := Sibling;
        }
      } else {
        var tmp1 := tree[obj].next;
        if tmp1 == last || obj == ROOT {
          Stops(tree, f, parent, last, path);
          WalkEnds(tree, f, parent, last, maxdep, goal, calls, path, x, y, mode);
          return;
        }
        if depth == 1 { StopsInTime(tree, f, parent, last, path); }
        if tree[tmp1].tail != obj {
          NextStep(tree, f, parent, last, maxdep, goal, calls, path, x, y);
          path := path[depth - 1 := path[depth - 1].next];
          mode := Child;
        } else {
          UpStep(tree, f, parent, last, maxdep, goal, calls, path, x, y);
          path := path[..depth - 1];
          depth := depth - 1;
        }
        obj := tmp1;
      }
    }
  }

  /** The parent of an object: walk to the end of its siblings. The root has none. */
  method GetPar(tree: seq<Object>, obj: nat, ghost f: Forest, ghost up: Forest) returns (par: int)
    requires obj != ROOT ==> f.Node? && f.id == obj && up.Node? && up.id < |tree|
    requires obj != ROOT ==> LevelOk(tree, f, up, NIL) && tree[up.id].tail == LastId(up.kids)
    ensures par == if obj == ROOT then NIL else up.id
  {
    if obj == ROOT {
      return NIL;
    }
    ghost var g := f;
    var o := obj;
    while true
      invariant g.Node? && g.id == o && LevelOk(tree, g, up, NIL)
      decreases g
    {
      TailTest(tree, g, up.id);
      var next := tree[o].next;
      if tree[next].tail == o {
        return next;
      }
      o, g := next, g.next;
    }
  }

  // ---------- The order of the calls

  function Objects(calls: seq<Call>): (ids: seq<nat>) {
    seq(|calls|, i requires 0 <= i < |calls| => calls[i].obj)
  }

  lemma ConcatNoDups(a: seq<nat>, b: seq<nat>)
    requires NoDups(a) && NoDups(b) && forall x :: x in a ==> x !in b
    ensures NoDups(a + b)
  {
    forall i, j | 0 <= i < j < |a + b|
      ensures (a + b)[i] != (a + b)[j]
    {
      if i < |a| <= j { assert a[i] in a; }
    }
  }

  lemma JoinCalls(c: Call, k: seq<Call>, q: seq<Call>, kids: set<nat>, next: set<nat>)
    requires NoDups(Objects(k)) && NoDups(Objects(q))
    requires (forall o :: o in Objects(k) ==> o in kids) && (forall o :: o in Objects(q) ==> o in next)
    requires c.obj !in kids && c.obj !in next && kids !! next
    ensures NoDups(Objects([c] + k + q)) && forall o :: o in Objects([c] + k + q) ==> o in {c.obj} + kids + next
  {
    assert Objects([c] + k + q) == [c.obj] + Objects(k) + Objects(q);
    ConcatNoDups([c.obj], Objects(k));
    ConcatNoDups([c.obj] + Objects(k), Objects(q));
  }

  /** The walk calls each object at most once. */
  lemma {:induction false} PreorderDistinct(tree: seq<Object>, f: Forest, depth: nat, maxdep: nat, x: int, y: int)
    requires Within(f, |tree|) && Distinct(f)
    ensures NoDups(Objects(Preorder(tree, f, depth, maxdep, x, y)))
    ensures forall o :: o in Objects(Preorder(tree, f, depth, maxdep, x, y)) ==> o in Ids(f)
    decreases f
  {
    hide NoDups, Objects;
    if f.Empty? {
      assert NoDups(Objects([])) && |Objects([])| == 0 by { NoCalls(); }
    } else {
      var o := tree[f.id];
      var q := Preorder(tree, f.next, depth, maxdep, x, y);
      PreorderDistinct(tree, f.next, depth, maxdep, x, y);
      if o.hidetree || depth > maxdep {
        NoCalls();
        JoinCalls(Call(f.id, x + o.x, y + o.y), [], q, Ids(f.kids), Ids(f.next));
      } else {
        var k := Preorder(tree, f.kids, depth + 1, maxdep, x + o.x, y + o.y);
        PreorderDistinct(tree, f.kids, depth + 1, maxdep, x + o.x, y + o.y);
        JoinCalls(Call(f.id, x + o.x, y + o.y), k, q, Ids(f.kids), Ids(f.next));
      }
    }
  }

  lemma NoCalls()
    ensures NoDups(Objects([])) && |Objects([])| == 0
  {
  }

  /** Stopping at the `i`-th object makes the first `i` calls; stopping at none makes all of them. */
  lemma {:induction false} BeforeIndex(calls: seq<Call>, i: nat)
    requires i < |calls| && NoDups(Objects(calls))
    ensures Before(calls, calls[i].obj) == calls[..i]
  {
    if i > 0 {
      var ids := Objects(calls);
      assert ids[0] != ids[i];
      assert Objects(calls[1..]) == ids[1..];
      BeforeIndex(calls[1..], i - 1);
      assert calls[..i] == [calls[0]] + calls[1..][..i - 1];
    }
  }

  lemma {:induction false} BeforeNil(calls: seq<Call>)
    ensures Before(calls, NIL) == calls
  {
    if calls != [] { BeforeNil(calls[1..]); }
  }
}
