/** How many rectangle records windows can need: upright windows with level ones across them. */
module AesLattice {
  import opened Basics
  import opened AesRect
  import AesTree

  // ---------- The windows

  /** The left edge of upright window i, and the top edge of level window j, of p upright and q level ones. */
  function Vx(q: nat, i: nat): (x: int) { q + 8 + 4 * i }

  function Hy(p: nat, j: nat): (y: int) { p + 8 + 4 * j }

  /** Upright window i, each longer than the one before at both ends. */
  function Upright(p: nat, q: nat, i: nat): (r: Rect) { Rect(Vx(q, i), p + 6 - i, 1, 4 * q + 1 + 2 * i) }

  /** Level window j, likewise. */
  function Level(p: nat, q: nat, j: nat): (r: Rect) { Rect(q + 6 - j, Hy(p, j), 4 * p + 1 + 2 * j, 1) }

  /** The desktop, the upright windows on it, and the level ones on top. */
  function Lattice(p: nat, q: nat): (curr: seq<Rect>)
    ensures |curr| == p + q + 1
  {
    seq(p + q + 1, k requires 0 <= k <= p + q =>
      if k == 0 then Rect(0, 0, 4 * p + 2 * q + 20, 4 * q + 2 * p + 20)
      else if k <= p then Upright(p, q, k - 1)
      else Level(p, q, k - 1 - p))
  }

  /** The windows in the order of their handles. */
  function Row(n: nat): (order: seq<nat>)
    ensures |order| == n && forall k :: 0 <= k < n ==> order[k] == k
  {
    seq(n, k requires 0 <= k < n => k)
  }

  /** A point of one of the windows on the desktop. */
  ghost predicate Barred(p: nat, q: nat, x: int, y: int) {
    || (exists i :: 0 <= i < p && In(x, y, TrueSize(Upright(p, q, i))))
    || (exists j :: 0 <= j < q && In(x, y, TrueSize(Level(p, q, j))))
  }

  // ---------- Points no two of which are in one rectangle

  /** A field between the windows; the end of an upright window (sides 0 and 1) or of a level one (sides 2 and 3);
      the part of an upright window between two level ones. */
  datatype Spot = Cell(i: nat, j: nat) | End(side: nat, i: nat) | Segment(i: nat, j: nat)

  function PosX(p: nat, q: nat, s: Spot): (x: int) {
    match s
    case Cell(i, j) => Vx(q, i) - 1
    case End(side, i) => if side <= 1 then Vx(q, i) + 1 else if side == 2 then q + 5 - i else Vx(q, p) + 1 + i
    case Segment(i, j) => Vx(q, i) + 1
  }

  function PosY(p: nat, q: nat, s: Spot): (y: int) {
    match s
    case Cell(i, j) => Hy(p, j) - 1
    case End(side, i) => if side == 0 then p + 5 - i else if side == 1 then Hy(p, q) + 1 + i else Hy(p, i) + 1
    case Segment(i, j) => Hy(p, j) - 1
  }

  predicate Between(a: int, m: int, b: int) { a <= m <= b || b <= m <= a }

  /** Some point between two spots is not covered. */
  ghost predicate Apart(list: seq<Orect>, p: nat, q: nat, s: Spot, t: Spot) {
    exists x, y :: Between(PosX(p, q, s), x, PosX(p, q, t)) && Between(PosY(p, q, s), y, PosY(p, q, t)) && !Covered(list, x, y)
  }

  /** The list covers each spot, no two of them by one rectangle. */
  ghost predicate Spread(list: seq<Orect>, p: nat, q: nat, spots: set<Spot>) {
    && (forall s :: s in spots ==> Covered(list, PosX(p, q, s), PosY(p, q, s)))
    && (forall s, t :: s in spots && t in spots && s != t ==> Apart(list, p, q, s, t))
  }

  /** Then it has at least as many rectangles as there are spots. */
  lemma {:induction false} SpreadCount(list: seq<Orect>, p: nat, q: nat, spots: set<Spot>)
    requires Spread(list, p, q, spots)
    ensures |list| >= |spots|
    decreases |spots|
  {
    if |spots| > 0 {
      var s :| s in spots;
      var e :| 0 <= e < |list| && In(PosX(p, q, s), PosY(p, q, s), list[e].gr);
      SpreadWithout(list, p, q, spots, s, e);
      SpreadCount(list[..e] + list[e + 1..], p, q, spots - {s});
    }
  }

  /** Take a spot and the rectangle over it away: the others are still covered. */
  lemma SpreadWithout(list: seq<Orect>, p: nat, q: nat, spots: set<Spot>, s: Spot, e: nat)
    requires Spread(list, p, q, spots) && s in spots && e < |list| && In(PosX(p, q, s), PosY(p, q, s), list[e].gr)
    ensures Spread(list[..e] + list[e + 1..], p, q, spots - {s})
  {
    hide In, PosX, PosY, Between;
    var less := list[..e] + list[e + 1..];
    forall t | t in spots - {s}
      ensures Covered(less, PosX(p, q, t), PosY(p, q, t))
    {
      var d :| 0 <= d < |list| && In(PosX(p, q, t), PosY(p, q, t), list[d].gr);
      if d == e {
        assert Apart(list, p, q, s, t);
        OneRect(list, p, q, s, t, e);
      }
      assert less[if d < e then d else d - 1] == list[d];
    }
    forall t, u | t in spots - {s} && u in spots - {s} && t != u
      ensures Apart(less, p, q, t, u)
    {
      assert Apart(list, p, q, t, u);
      ApartLess(list, p, q, t, u, e);
    }
  }

  lemma ApartLess(list: seq<Orect>, p: nat, q: nat, s: Spot, t: Spot, e: nat)
    requires Apart(list, p, q, s, t) && e < |list|
    ensures Apart(list[..e] + list[e + 1..], p, q, s, t)
  {
    hide In, PosX, PosY, Between;
    var x, y :| Between(PosX(p, q, s), x, PosX(p, q, t)) && Between(PosY(p, q, s), y, PosY(p, q, t)) && !Covered(list, x, y);
    CoveredConcat(list[..e], list[e + 1..], x, y);
    assert !Covered(list[..e] + list[e + 1..], x, y);
  }

  /** A rectangle with two spots has all points between them. */
  lemma OneRect(list: seq<Orect>, p: nat, q: nat, s: Spot, t: Spot, e: nat)
    requires Apart(list, p, q, s, t) && e < |list|
    requires In(PosX(p, q, s), PosY(p, q, s), list[e].gr)
    ensures !In(PosX(p, q, t), PosY(p, q, t), list[e].gr)
  {
    hide PosX, PosY;
    var x, y :| Between(PosX(p, q, s), x, PosX(p, q, t)) && Between(PosY(p, q, s), y, PosY(p, q, t)) && !Covered(list, x, y);
    assert !In(x, y, list[e].gr);
  }

  // ---------- The spots of the desktop

  /** The spots on a lattice. */
  predicate OnDesk(p: nat, q: nat, s: Spot) {
    match s
    case Cell(i, j) => i <= p && j <= q
    case End(side, i) => if side <= 1 then i < p else side <= 3 && i < q
    case Segment(i, j) => false
  }

  /** A point of an upright window, within the height of the level ones or as far as it reaches. */
  lemma InUpright(p: nat, q: nat, i: nat, x: int, y: int)
    requires i < p && Vx(q, i) <= x <= Vx(q, i) + 2 && p + 6 - i <= y < Hy(p, q) + 1 + i
    ensures Barred(p, q, x, y)
  {
    assert In(x, y, TrueSize(Upright(p, q, i)));
  }

  lemma InLevel(p: nat, q: nat, j: nat, x: int, y: int)
    requires j < q && Hy(p, j) <= y <= Hy(p, j) + 2 && q + 6 - j <= x < Vx(q, p) + 1 + j
    ensures Barred(p, q, x, y)
  {
    assert In(x, y, TrueSize(Level(p, q, j)));
  }

  /** Two spots have a window between them. */
  lemma SpotsApart(p: nat, q: nat, s: Spot, t: Spot) returns (x: int, y: int)
    requires OnDesk(p, q, s) && OnDesk(p, q, t) && s != t
    ensures Between(PosX(p, q, s), x, PosX(p, q, t)) && Between(PosY(p, q, s), y, PosY(p, q, t)) && Barred(p, q, x, y)
  {
    hide Barred;
    if s.Cell? && t.Cell? {
      x, y := CellsApart(p, q, s, t);
    } else if s.End? && t.End? && (s.side <= 1) == (t.side <= 1) {
      x, y := EndsApart(p, q, s, t);
    } else {
      x, y := MixedApart(p, q, s, t);
    }
  }

  lemma CellsApart(p: nat, q: nat, s: Spot, t: Spot) returns (x: int, y: int)
    requires OnDesk(p, q, s) && OnDesk(p, q, t) && s != t && s.Cell? && t.Cell?
    ensures Between(PosX(p, q, s), x, PosX(p, q, t)) && Between(PosY(p, q, s), y, PosY(p, q, t)) && Barred(p, q, x, y)
  {
    hide Barred;
    if s.i != t.i {
      var i := if s.i < t.i then s.i else t.i;
      x, y := Vx(q, i), PosY(p, q, s);
      InUpright(p, q, i, x, y);
    } else {
      var j := if s.j < t.j then s.j else t.j;
      x, y := PosX(p, q, s), Hy(p, j);
      InLevel(p, q, j, x, y);
    }
  }

  lemma EndsApart(p: nat, q: nat, s: Spot, t: Spot) returns (x: int, y: int)
    requires OnDesk(p, q, s) && OnDesk(p, q, t) && s != t && s.End? && t.End? && (s.side <= 1 <==> t.side <= 1)
    ensures Between(PosX(p, q, s), x, PosX(p, q, t)) && Between(PosY(p, q, s), y, PosY(p, q, t)) && Barred(p, q, x, y)
  {
    hide Barred;
    var long, short := if s.i < t.i then t else s, if s.i < t.i then s else t;
    if s.side <= 1 {
      x, y := PosX(p, q, long), if s.side == t.side then PosY(p, q, short) else Hy(p, 0);
      InUpright(p, q, long.i, x, y);
    } else {
      x, y := if s.side == t.side then PosX(p, q, short) else Vx(q, 0), PosY(p, q, long);
      InLevel(p, q, long.i, x, y);
    }
  }

  lemma MixedApart(p: nat, q: nat, s: Spot, t: Spot) returns (x: int, y: int)
    requires OnDesk(p, q, s) && OnDesk(p, q, t) && !(s.Cell? && t.Cell?) && !(s.End? && t.End? && (s.side <= 1 <==> t.side <= 1))
    ensures Between(PosX(p, q, s), x, PosX(p, q, t)) && Between(PosY(p, q, s), y, PosY(p, q, t)) && Barred(p, q, x, y)
  {
    hide Barred;
    if s.End? && s.side <= 1 {
      x, y := PosX(p, q, s), PosY(p, q, t);
      InUpright(p, q, s.i, x, y);
    } else if t.End? && t.side <= 1 {
      x, y := PosX(p, q, t), PosY(p, q, s);
      InUpright(p, q, t.i, x, y);
    } else if s.End? {
      x, y := PosX(p, q, t), PosY(p, q, s);
      InLevel(p, q, s.i, x, y);
    } else {
      x, y := PosX(p, q, s), PosY(p, q, t);
      InLevel(p, q, t.i, x, y);
    }
  }

  /** The spots are on the desktop and in none of the windows. */
  lemma SpotFree(p: nat, q: nat, s: Spot)
    requires OnDesk(p, q, s)
    ensures !Barred(p, q, PosX(p, q, s), PosY(p, q, s)) && In(PosX(p, q, s), PosY(p, q, s), TrueSize(Lattice(p, q)[0]))
  {
    var x, y := PosX(p, q, s), PosY(p, q, s);
    forall i | 0 <= i < p
      ensures !In(x, y, TrueSize(Upright(p, q, i)))
    {
      NotUpright(p, q, s, i);
    }
    forall j | 0 <= j < q
      ensures !In(x, y, TrueSize(Level(p, q, j)))
    {
      NotLevel(p, q, s, j);
    }
  }

  lemma NotUpright(p: nat, q: nat, s: Spot, i: nat)
    requires OnDesk(p, q, s) && i < p
    ensures !In(PosX(p, q, s), PosY(p, q, s), TrueSize(Upright(p, q, i)))
  {
  }

  lemma NotLevel(p: nat, q: nat, s: Spot, j: nat)
    requires OnDesk(p, q, s) && j < q
    ensures !In(PosX(p, q, s), PosY(p, q, s), TrueSize(Level(p, q, j)))
  {
  }

  ghost function Ends(side: nat, n: nat): (s: set<Spot>)
    ensures |s| == n && forall e :: e in s <==> e.End? && e.side == side && e.i < n
  {
    if n == 0 then {} else Ends(side, n - 1) + {End(side, n - 1)}
  }

  ghost function Column(i: nat, n: nat): (s: set<Spot>)
    ensures |s| == n && forall e :: e in s <==> e.Cell? && e.i == i && e.j < n
  {
    if n == 0 then {} else Column(i, n - 1) + {Cell(i, n - 1)}
  }

  ghost function Cells(m: nat, n: nat): (s: set<Spot>)
    ensures forall e :: e in s <==> e.Cell? && e.i < m && e.j < n
  {
    if m == 0 then {} else Cells(m - 1, n) + Column(m - 1, n)
  }

  lemma Joined(a: set<Spot>, b: set<Spot>, c: set<Spot>)
    requires c == a + b && a !! b
    ensures |c| == |a| + |b|
  {
  }

  lemma {:induction false} CellsCount(m: nat, n: nat)
    ensures |Cells(m, n)| == m * n
  {
    hide Cells, Column;
    if m == 0 {
      NoCells(n);
    } else {
      CellsCount(m - 1, n);
      CellsMore(m - 1, m, n);
      OneMore(m - 1, m, n);
    }
  }

  lemma NoCells(n: nat)
    ensures |Cells(0, n)| == 0 * n
  {
    assert Cells(0, n) == {};
  }

  lemma OneMore(k: int, m: int, n: int)
    requires m == k + 1
    ensures k * n + n == m * n
  {
  }

  lemma CellsMore(k: nat, m: nat, n: nat)
    requires m == k + 1
    ensures |Cells(m, n)| == |Cells(k, n)| + n
  {
    var a, b := Cells(k, n), Column(k, n);
    assert a !! b;
    Joined(a, b, Cells(m, n));
  }

  ghost function Segments(i: nat, n: nat): (s: set<Spot>)
    ensures |s| == n && forall e :: e in s <==> e.Segment? && e.i == i && e.j < n
  {
    if n == 0 then {} else Segments(i, n - 1) + {Segment(i, n - 1)}
  }

  /** The ends of all windows of one kind. */
  ghost function BothEnds(side: nat, n: nat): (s: set<Spot>)
    ensures |s| == 2 * n && forall e :: e in s <==> e.End? && (e.side == side || e.side == side + 1) && e.i < n
  {
    assert Ends(side, n) !! Ends(side + 1, n);
    Ends(side, n) + Ends(side + 1, n)
  }

  ghost function DeskSpots(p: nat, q: nat): (s: set<Spot>) { Cells(p + 1, q + 1) + BothEnds(0, p) + BothEnds(2, q) }

  lemma DeskSpotsAre(p: nat, q: nat, s: Spot)
    ensures s in DeskSpots(p, q) <==> OnDesk(p, q, s)
  {
    hide Cells, BothEnds;
  }

  lemma DeskSpotsCount(p: nat, q: nat)
    ensures |DeskSpots(p, q)| == (p + 1) * (q + 1) + 2 * p + 2 * q
  {
    hide BothEnds, Cells, OnDesk;
    CellsCount(p + 1, q + 1);
    var c, u, l := Cells(p + 1, q + 1), BothEnds(0, p), BothEnds(2, q);
    assert c !! u;
    Joined(c, u, c + u);
    assert c + u !! l;
    Joined(c + u, l, DeskSpots(p, q));
  }

  // ---------- What the windows need

  /** The windows of the lattice, each in order. */
  ghost predicate Rebuilt(rlist: seq<seq<Orect>>, broken: seq<bool>, p: nat, q: nat) {
    |rlist| == |broken| == p + q + 1 && AllOk(rlist, broken, Lattice(p, q), Row(p + q + 1), p + q + 1)
  }

  ghost predicate AllOk(rlist: seq<seq<Orect>>, broken: seq<bool>, curr: seq<Rect>, order: seq<nat>, n: nat)
    requires |rlist| == |broken| == |curr| && n == |order| && forall k :: 0 <= k < |order| ==> order[k] < |curr|
  {
    forall k :: 0 <= k < n ==> PlaceOk(rlist, broken, curr, order, k, n)
  }

  /** What of the window in place k shows. */
  lemma Shown(rlist: seq<seq<Orect>>, broken: seq<bool>, p: nat, q: nat, k: nat, x: int, y: int)
    requires Rebuilt(rlist, broken, p, q) && k <= p + q
    ensures Covered(rlist[k], x, y) <==>
            In(x, y, TrueSize(Lattice(p, q)[k])) && !Hidden(Lattice(p, q), Row(p + q + 1), k, p + q + 1, x, y)
  {
    hide PlaceOk, Lattice, Covered, Hidden, In;
    var n := p + q + 1;
    assert AllOk(rlist, broken, Lattice(p, q), Row(n), n);
    assert PlaceOk(rlist, broken, Lattice(p, q), Row(n), k, n);
    Visible(rlist, broken, Lattice(p, q), Row(n), k, x, y);
  }

  lemma DeskHidden(p: nat, q: nat, x: int, y: int)
    ensures Hidden(Lattice(p, q), Row(p + q + 1), 0, p + q + 1, x, y) <==> Barred(p, q, x, y)
  {
    hide TrueSize, In, Upright, Level;
    var n, curr := p + q + 1, Lattice(p, q);
    if Hidden(curr, Row(n), 0, n, x, y) {
      var k :| 0 < k < n && In(x, y, TrueSize(curr[Row(n)[k]]));
      assert curr[k] == if k <= p then Upright(p, q, k - 1) else Level(p, q, k - 1 - p);
    }
    if i :| 0 <= i < p && In(x, y, TrueSize(Upright(p, q, i))) {
      assert curr[Row(n)[i + 1]] == Upright(p, q, i);
    }
    if j :| 0 <= j < q && In(x, y, TrueSize(Level(p, q, j))) {
      assert curr[Row(n)[p + 1 + j]] == Level(p, q, j);
    }
  }

  lemma DeskNeeds(rlist: seq<seq<Orect>>, broken: seq<bool>, p: nat, q: nat)
    requires Rebuilt(rlist, broken, p, q)
    ensures |rlist[0]| >= (p + 1) * (q + 1) + 2 * p + 2 * q
  {
    hide Covered, In, PosX, PosY, Barred, Hidden, Between, OnDesk, Lattice, Rebuilt, DeskSpots;
    var spots := DeskSpots(p, q);
    assert |rlist| > 0 by { RebuiltSize(rlist, broken, p, q); }
    forall s | s in spots
      ensures Covered(rlist[0], PosX(p, q, s), PosY(p, q, s))
    {
      DeskSpotsAre(p, q, s);
      SpotFree(p, q, s);
      DeskHidden(p, q, PosX(p, q, s), PosY(p, q, s));
      Shown(rlist, broken, p, q, 0, PosX(p, q, s), PosY(p, q, s));
    }
    forall s, t | s in spots && t in spots && s != t
      ensures Apart(rlist[0], p, q, s, t)
    {
      DeskSpotsAre(p, q, s);
      DeskSpotsAre(p, q, t);
      var x, y := SpotsApart(p, q, s, t);
      DeskHidden(p, q, x, y);
      Shown(rlist, broken, p, q, 0, x, y);
    }
    SpreadCount(rlist[0], p, q, spots);
    DeskSpotsCount(p, q);
  }

  lemma RebuiltSize(rlist: seq<seq<Orect>>, broken: seq<bool>, p: nat, q: nat)
    requires Rebuilt(rlist, broken, p, q)
    ensures |rlist| == |broken| == p + q + 1
  {
  }

  /** The part of an upright window between two level ones is not hidden ... */
  lemma SegmentFree(p: nat, q: nat, i: nat, j: nat, k: nat)
    requires i < p && j <= q && k == i + 1
    ensures var x, y := PosX(p, q, Segment(i, j)), PosY(p, q, Segment(i, j));
            && In(x, y, TrueSize(Lattice(p, q)[k]))
            && !Hidden(Lattice(p, q), Row(p + q + 1), k, p + q + 1, x, y)
  {
    var x, y := PosX(p, q, Segment(i, j)), PosY(p, q, Segment(i, j));
    var n, curr := p + q + 1, Lattice(p, q);
    assert curr[k] == Upright(p, q, i);
    forall m | k < m < n
      ensures !In(x, y, TrueSize(curr[Row(n)[m]]))
    {
      if m <= p {
        assert curr[m] == Upright(p, q, m - 1);
      } else {
        assert curr[m] == Level(p, q, m - 1 - p);
      }
    }
  }

  /** ... and a level window is between two such parts. */
  lemma SegmentsApart(p: nat, q: nat, i: nat, j: nat, x: int, y: int, k: nat)
    requires i < p && j < q && k == i + 1 && x == Vx(q, i) + 1 && y == Hy(p, j)
    ensures Hidden(Lattice(p, q), Row(p + q + 1), k, p + q + 1, x, y)
  {
    var n, curr := p + q + 1, Lattice(p, q);
    var m := p + 1 + j;
    assert curr[m] == Level(p, q, j);
    assert In(x, y, TrueSize(curr[Row(n)[m]]));
  }

  lemma UprightNeeds(rlist: seq<seq<Orect>>, broken: seq<bool>, p: nat, q: nat, i: nat, k: nat)
    requires Rebuilt(rlist, broken, p, q) && i < p && k == i + 1
    ensures |rlist[k]| >= q + 1
  {
    hide Covered, In, Hidden, Lattice, Rebuilt;
    RebuiltSize(rlist, broken, p, q);
    var spots := Segments(i, q + 1);
    forall s | s in spots
      ensures Covered(rlist[k], PosX(p, q, s), PosY(p, q, s))
    {
      SegmentFree(p, q, i, s.j, k);
      Shown(rlist, broken, p, q, k, PosX(p, q, s), PosY(p, q, s));
    }
    forall s, t | s in spots && t in spots && s != t
      ensures Apart(rlist[k], p, q, s, t)
    {
      var j := if s.j < t.j then s.j else t.j;
      var x, y := Vx(q, i) + 1, Hy(p, j);
      SegmentsApart(p, q, i, j, x, y, k);
      Shown(rlist, broken, p, q, k, x, y);
    }
    SpreadCount(rlist[k], p, q, spots);
  }

  lemma LevelNeeds(rlist: seq<seq<Orect>>, broken: seq<bool>, p: nat, q: nat, j: nat, k: nat)
    requires Rebuilt(rlist, broken, p, q) && j < q && k == p + 1 + j
    ensures |rlist[k]| >= 1
  {
    hide Rebuilt;
    RebuiltSize(rlist, broken, p, q);
    var n, curr := p + q + 1, Lattice(p, q);
    var x, y := Vx(q, 0) - 1, Hy(p, j) + 1;
    assert curr[k] == Level(p, q, j);
    forall m | k < m < n
      ensures !In(x, y, TrueSize(curr[Row(n)[m]]))
    {
      assert curr[m] == Level(p, q, m - 1 - p);
    }
    Shown(rlist, broken, p, q, k, x, y);
  }

  /** What a lattice of p and q windows needs. */
  function Needed(p: nat, q: nat): (n: nat) { 2 * (p * q) + 4 * p + 4 * q + 1 }

  lemma {:induction false} TotalNeeds(rlist: seq<seq<Orect>>, broken: seq<bool>, p: nat, q: nat, k: nat)
    requires Rebuilt(rlist, broken, p, q) && 0 < k <= p + q + 1
    ensures Total(rlist, Row(p + q + 1), k) >=
            (p + 1) * (q + 1) + 2 * p + 2 * q + (if k <= p + 1 then (k - 1) * (q + 1) else p * (q + 1) + k - 1 - p)
    decreases k
  {
    hide Rebuilt, PlaceOk;
    RebuiltSize(rlist, broken, p, q);
    if k == 1 {
      DeskNeeds(rlist, broken, p, q);
    } else {
      TotalNeeds(rlist, broken, p, q, k - 1);
      if k <= p + 1 {
        UprightNeeds(rlist, broken, p, q, k - 2, k - 1);
        assert (k - 1) * (q + 1) == (k - 2) * (q + 1) + (q + 1);
      } else {
        LevelNeeds(rlist, broken, p, q, k - 2 - p, k - 1);
      }
    }
  }

  /** The lists of n windows have as many records as the windows have rectangles. */
  lemma {:induction false} RecordsCount(lists: seq<seq<Orect>>, n: nat)
    requires |lists| == n
    ensures |AllIds(lists)| == Total(lists, Row(n), n)
    decreases n
  {
    hide Ids;
    if n > 0 {
      var front := lists[..n - 1];
      RecordsCount(front, n - 1);
      TotalFrame(front, lists, Row(n - 1), Row(n), n - 1);
      IdsCount(lists[n - 1]);
    }
  }

  lemma IdsCount(list: seq<Orect>)
    ensures |Ids(list)| == |list|
  {
  }

  /** However its lists are made up, a lattice with every window in order takes that many records. */
  lemma LatticeNeeds(rlist: seq<seq<Orect>>, broken: seq<bool>, p: nat, q: nat)
    requires Rebuilt(rlist, broken, p, q)
    ensures |AllIds(rlist)| >= Needed(p, q)
  {
    hide Rebuilt, AllIds, Total;
    RebuiltSize(rlist, broken, p, q);
    RecordsCount(rlist, p + q + 1);
    TotalNeeds(rlist, broken, p, q, p + q + 1);
    assert (p + 1) * (q + 1) == p * q + p + q + 1 && p * (q + 1) == p * q + p;
  }

  // ---------- Rebuilding them

  /** The windows after k in a window tree without further levels. */
  function Kids(k: nat, n: nat): (f: AesTree.Forest)
    decreases n - k
  {
    if k >= n then AesTree.Empty else AesTree.Node(k, AesTree.Empty, Kids(k + 1, n))
  }

  function WindowForest(n: nat): (f: AesTree.Forest) { AesTree.Node(AesTree.ROOT, Kids(1, n), AesTree.Empty) }

  /** The array for it: the desktop and its children. */
  function Tree(n: nat): (tree: seq<AesTree.Object>)
    ensures |tree| == n
  {
    seq(n, k requires 0 <= k < n =>
      if k == 0 then AesTree.Object(AesTree.NIL, if n > 1 then 1 else AesTree.NIL, if n > 1 then n - 1 else AesTree.NIL, false, 0, 0)
      else AesTree.Object(if k + 1 < n then k + 1 else AesTree.ROOT, AesTree.NIL, AesTree.NIL, false, 0, 0))
  }

  lemma {:induction false} KidsOk(k: nat, n: nat)
    requires 0 < k <= n
    ensures var f := Kids(k, n);
            && AesTree.Linked(Tree(n), f, AesTree.ROOT) && AesTree.Distinct(f) && AesTree.Within(f, n)
            && (forall e :: e in AesTree.Ids(f) <==> k <= e < n)
            && AesTree.FirstId(f) == (if k < n then k else AesTree.NIL) && AesTree.LastId(f) == if k < n then n - 1 else AesTree.NIL
    decreases n - k
  {
    if k < n {
      KidsOk(k + 1, n);
    }
  }

  lemma {:induction false} KidsOrder(k: nat, n: nat)
    requires 0 < k <= n && AesTree.Within(Kids(k, n), n)
    ensures AesTree.Objects(AesTree.Preorder(Tree(n), Kids(k, n), 2, AesTree.MAX_DEPTH, 0, 0)) == Row(n)[k..]
    decreases n - k
  {
    if k < n {
      KidsOrder(k + 1, n);
      assert Row(n)[k..] == [k] + Row(n)[k + 1..];
    }
  }

  /** The walk comes to the windows in the order of their handles. */
  lemma TreeOrder(n: nat)
    requires n > 0
    ensures IsOrder(Tree(n), WindowForest(n), Row(n))
  {
    KidsOk(1, n);
    KidsOrder(1, n);
    assert Row(n) == [0] + Row(n)[1..];
  }

  lemma LatticeInRange(p: nat, q: nat)
    ensures NoDups(Row(p + q + 1)) && forall k :: 0 <= k <= p + q ==> Lattice(p, q)[k].w >= 0 && Lattice(p, q)[k].h >= 0
  {
    var curr := Lattice(p, q);
    forall k | 0 <= k <= p + q
      ensures curr[k].w >= 0 && curr[k].h >= 0
    {
      assert 0 < k <= p ==> curr[k] == Upright(p, q, k - 1);
      assert k > p ==> curr[k] == Level(p, q, k - 1 - p);
    }
  }

  /** Rebuilding the lists of a lattice fails if there are fewer records than it needs. */
  method RefreshLattice(w: Windows, p: nat, q: nat) returns (ok: bool)
    requires |w.rlist| == |w.broken| == p + q + 1
    modifies w
    ensures |old(w.Pool())| < Needed(p, q) ==> !ok
    ensures ok ==> Rebuilt(w.rlist, w.broken, p, q)
    ensures !ok ==> w.rul == [] && |old(w.rul)| < Enough(p + q + 1)
  {
    hide PlaceOk, IsOrder, Lattice, AllIds, Ids, Needed, Enough;
    var n := p + q + 1;
    TreeOrder(n);
    LatticeInRange(p, q);
    ok := w.Refresh(Tree(n), Lattice(p, q), WindowForest(n), Row(n));
    if ok {
      LatticeNeeds(w.rlist, w.broken, p, q);
    }
  }

  // ---------- The pool of the system

  /** With an AES version above 0x0320; below that there are half as many. */
  const NUM_WIN := 16
  const NUM_ORECT := NUM_WIN * 10

  /** Seven upright and eight level windows and the desktop are NUM_WIN windows, and more records than there are. */
  lemma NotEnough(rlist: seq<seq<Orect>>, broken: seq<bool>)
    requires Rebuilt(rlist, broken, 7, 8)
    ensures |rlist| == NUM_WIN && |AllIds(rlist)| >= 173 > NUM_ORECT
  {
    hide Rebuilt, AllIds;
    RebuiltSize(rlist, broken, 7, 8);
    LatticeNeeds(rlist, broken, 7, 8);
  }

  /** So the list of free records runs out, whatever records there were in use before. */
  method RunsOut(w: Windows) returns (ok: bool)
    requires |w.rlist| == |w.broken| == NUM_WIN && |w.Pool()| <= NUM_ORECT
    modifies w
    ensures !ok && w.rul == []
  {
    ok := RefreshLattice(w, 7, 8);
  }

  /** For up to seven windows of those sixteen, or five where there are eight, a full free list is enough. */
  lemma EnoughFor(n: nat)
    ensures n <= 7 ==> Enough(n) <= NUM_ORECT
    ensures n <= 5 ==> Enough(n) <= NUM_ORECT / 2
  {
    if n <= 5 {
      EnoughGrows(n, 5);
    }
    if n <= 7 {
      EnoughGrows(n, 7);
    }
  }
}
