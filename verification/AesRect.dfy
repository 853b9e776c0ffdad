/** The visible-rectangle lists of the windows: breaking rectangles and rebuilding the lists. */
module AesRect {
  import opened Basics
  import AesTree

  /** A rectangle record; `id` stands for its address. */
  datatype Orect = Orect(id: nat, gr: Rect)

  predicate In(px: int, py: int, r: Rect) {
    r.x <= px < r.x + r.w && r.y <= py < r.y + r.h
  }

  predicate Positive(r: Rect) { r.w > 0 && r.h > 0 }

  /** The overlap test of brkrct. */
  predicate Overlap(a: Rect, r: Rect) {
    a.x < r.x + r.w && a.x + a.w > r.x && a.y < r.y + r.h && a.y + a.h > r.y
  }

  /** For rectangles with an area the test says whether they have a point in common. */
  lemma OverlapIff(a: Rect, r: Rect)
    requires Positive(a) && Positive(r)
    ensures Overlap(a, r) <==> exists px, py :: In(px, py, a) && In(px, py, r)
  {
    if Overlap(a, r) {
      var px, py := if a.x < r.x then r.x else a.x, if a.y < r.y then r.y else a.y;
      assert In(px, py, a) && In(px, py, r);
    }
  }

  datatype Side = Top | Left | Right | Bottom

  predicate HavePiece(s: Side, a: Rect, r: Rect) {
    match s
    case Top => a.y > r.y
    case Left => a.x > r.x
    case Right => a.x + a.w < r.x + r.w
    case Bottom => a.y + a.h < r.y + r.h
  }

  /** The part of `r` on one side of `a`. */
  function Piece(s: Side, a: Rect, r: Rect): (p: Rect) {
    var y := Max(r.y, a.y);
    var h := Min(r.y + r.h, a.y + a.h) - y;
    match s
    case Top => Rect(r.x, r.y, r.w, a.y - r.y)
    case Left => Rect(r.x, y, a.x - r.x, h)
    case Right => Rect(a.x + a.w, y, r.x + r.w - (a.x + a.w), h)
    case Bottom => Rect(r.x, a.y + a.h, r.w, r.y + r.h - (a.y + a.h))
  }

  /** The pieces have an area, lie in `r` outside `a`, do not overlap, and cover `r` outside `a`. */
  lemma PieceInside(s: Side, a: Rect, r: Rect, px: int, py: int)
    requires Overlap(a, r) && Positive(a) && Positive(r) && HavePiece(s, a, r)
    ensures Positive(Piece(s, a, r))
    ensures In(px, py, Piece(s, a, r)) ==> In(px, py, r) && !In(px, py, a)
  {
  }

  lemma PiecesApart(s: Side, t: Side, a: Rect, r: Rect, px: int, py: int)
    requires Overlap(a, r) && Positive(a) && Positive(r) && HavePiece(s, a, r) && HavePiece(t, a, r) && s != t
    ensures In(px, py, Piece(s, a, r)) ==> !In(px, py, Piece(t, a, r))
  {
  }

  lemma PiecesCover(a: Rect, r: Rect, px: int, py: int)
    requires Overlap(a, r) && Positive(a) && Positive(r) && In(px, py, r) && !In(px, py, a)
    ensures exists s :: HavePiece(s, a, r) && In(px, py, Piece(s, a, r))
  {
    var s := if py < a.y then Top else if py >= a.y + a.h then Bottom else if px < a.x then Left else Right;
    assert HavePiece(s, a, r) && In(px, py, Piece(s, a, r));
  }

  // ---------- Lists of rectangles

  ghost predicate Covered(list: seq<Orect>, px: int, py: int) {
    exists i :: 0 <= i < |list| && In(px, py, list[i].gr)
  }

  /** The rectangles have an area and no two of them have a point in common. */
  ghost predicate Clear(list: seq<Orect>) {
    && (forall i :: 0 <= i < |list| ==> Positive(list[i].gr))
    && (forall i, j, px, py :: 0 <= i < j < |list| && In(px, py, list[i].gr) ==> !In(px, py, list[j].gr))
  }

  ghost predicate CoveredBy(rects: seq<Rect>, px: int, py: int) {
    exists i :: 0 <= i < |rects| && In(px, py, rects[i])
  }

  /** The list tiles the part of `own` that no rectangle of `above` covers. */
  ghost predicate Tiles(list: seq<Orect>, own: Rect, above: seq<Rect>) {
    && Clear(list)
    && forall px, py :: Covered(list, px, py) <==> In(px, py, own) && !CoveredBy(above, px, py)
  }

  /** `done` tiles what `list` covers outside `a`. */
  ghost predicate Cut(list: seq<Orect>, a: Rect, done: seq<Orect>) {
    && Clear(done)
    && forall px, py :: Covered(done, px, py) <==> Covered(list, px, py) && !In(px, py, a)
  }

  /** `pieces` are the parts of `r` on those sides of `a` where there are any. */
  ghost predicate Split(a: Rect, r: Rect, pieces: seq<Orect>, sides: seq<Side>) {
    && |pieces| == |sides|
    && (forall i :: 0 <= i < |sides| ==> HavePiece(sides[i], a, r) && pieces[i].gr == Piece(sides[i], a, r))
    && (forall i, j :: 0 <= i < j < |sides| ==> sides[i] != sides[j])
    && (forall s :: HavePiece(s, a, r) ==> s in sides)
  }

  /** The pieces tile the rectangle outside `a`. */
  lemma SplitCuts(a: Rect, r: Orect, pieces: seq<Orect>, sides: seq<Side>)
    requires Overlap(a, r.gr) && Positive(a) && Positive(r.gr) && Split(a, r.gr, pieces, sides)
    ensures Cut([r], a, pieces)
  {
    forall i | 0 <= i < |pieces|
      ensures Positive(pieces[i].gr)
    {
      PieceInside(sides[i], a, r.gr, 0, 0);
    }
    forall i, j, px, py | 0 <= i < j < |pieces| && In(px, py, pieces[i].gr)
      ensures !In(px, py, pieces[j].gr)
    {
      PiecesApart(sides[i], sides[j], a, r.gr, px, py);
    }
    forall px, py
      ensures Covered(pieces, px, py) <==> Covered([r], px, py) && !In(px, py, a)
    {
      SplitPoint(a, r, pieces, sides, px, py);
    }
  }

  lemma SplitPoint(a: Rect, r: Orect, pieces: seq<Orect>, sides: seq<Side>, px: int, py: int)
    requires Overlap(a, r.gr) && Positive(a) && Positive(r.gr) && Split(a, r.gr, pieces, sides)
    ensures Covered(pieces, px, py) <==> Covered([r], px, py) && !In(px, py, a)
  {
    hide HavePiece, Piece, Overlap;
    var one := [r];
    assert In(px, py, r.gr) ==> In(px, py, one[0].gr);
    if Covered(pieces, px, py) {
      var i :| 0 <= i < |pieces| && In(px, py, pieces[i].gr);
      PieceInside(sides[i], a, r.gr, px, py);
    }
    if In(px, py, r.gr) && !In(px, py, a) {
      PiecesCover(a, r.gr, px, py);
      var s :| HavePiece(s, a, r.gr) && In(px, py, Piece(s, a, r.gr));
      var i :| 0 <= i < |sides| && sides[i] == s;
      assert In(px, py, pieces[i].gr);
    }
  }

  /** A rectangle that `a` does not touch stays as it is. */
  lemma WholeCuts(a: Rect, r: Orect)
    requires !Overlap(a, r.gr) && Positive(a) && Positive(r.gr)
    ensures Cut([r], a, [r])
  {
    OverlapIff(a, r.gr);
  }

  lemma CoveredConcat(s: seq<Orect>, t: seq<Orect>, px: int, py: int)
    ensures Covered(s + t, px, py) <==> Covered(s, px, py) || Covered(t, px, py)
  {
    if Covered(s, px, py) {
      var i :| 0 <= i < |s| && In(px, py, s[i].gr);
      assert (s + t)[i] == s[i];
    }
    if Covered(t, px, py) {
      var i :| 0 <= i < |t| && In(px, py, t[i].gr);
      assert (s + t)[|s| + i] == t[i];
    }
  }

  lemma ClearConcat(s: seq<Orect>, t: seq<Orect>)
    requires Clear(s) && Clear(t) && forall px, py :: Covered(s, px, py) ==> !Covered(t, px, py)
    ensures Clear(s + t)
  {
    forall i, j, px, py | 0 <= i < j < |s + t| && In(px, py, (s + t)[i].gr)
      ensures !In(px, py, (s + t)[j].gr)
    {
      if i < |s| <= j { assert Covered(s, px, py); assert !Covered(t, px, py); }
    }
  }

  /** Cutting a list is cutting its parts. */
  lemma CutConcat(s: seq<Orect>, t: seq<Orect>, a: Rect, s': seq<Orect>, t': seq<Orect>)
    requires Cut(s, a, s') && Cut(t, a, t') && forall px, py :: Covered(s, px, py) ==> !Covered(t, px, py)
    ensures Cut(s + t, a, s' + t')
  {
    ClearConcat(s', t');
    forall px, py
      ensures Covered(s' + t', px, py) <==> Covered(s + t, px, py) && !In(px, py, a)
    {
      CoveredConcat(s, t, px, py);
      CoveredConcat(s', t', px, py);
    }
  }

  /** In a clear list a rectangle has nothing in common with those before it. */
  lemma ClearPrefix(list: seq<Orect>, j: nat)
    requires Clear(list) && j < |list|
    ensures forall px, py :: Covered(list[..j], px, py) ==> !Covered([list[j]], px, py)
  {
  }

  /** Cutting one more rectangle of a clear list. */
  lemma CutNext(list: seq<Orect>, j: nat, a: Rect, done: seq<Orect>, part: seq<Orect>)
    requires Clear(list) && j < |list| && Cut(list[..j], a, done) && Cut([list[j]], a, part)
    ensures Cut(list[..j + 1], a, done + part)
  {
    hide Clear, Covered, Cut;
    ClearPrefix(list, j);
    assert list[..j + 1] == list[..j] + [list[j]];
    CutConcat(list[..j], [list[j]], a, done, part);
  }

  lemma ClearAt(list: seq<Orect>, j: nat)
    requires Clear(list) && j < |list|
    ensures Positive(list[j].gr)
  {
  }

  /** A window above takes its part out of the tiling. */
  lemma CutTiles(list: seq<Orect>, own: Rect, above: seq<Rect>, a: Rect, done: seq<Orect>)
    requires Tiles(list, own, above) && Cut(list, a, done)
    ensures Tiles(done, own, above + [a])
  {
    forall px, py
      ensures Covered(done, px, py) <==> In(px, py, own) && !CoveredBy(above + [a], px, py)
    {
      CoveredByMore(above, a, px, py);
    }
  }

  lemma CoveredByMore(above: seq<Rect>, a: Rect, px: int, py: int)
    ensures CoveredBy(above + [a], px, py) <==> CoveredBy(above, px, py) || In(px, py, a)
  {
    var all := above + [a];
    if CoveredBy(above, px, py) {
      var i :| 0 <= i < |above| && In(px, py, above[i]);
      assert all[i] == above[i];
    }
    assert all[|above|] == a;
  }

  ghost function Ids(list: seq<Orect>): (s: multiset<nat>) {
    multiset(seq(|list|, i requires 0 <= i < |list| => list[i].id))
  }

  lemma IdsConcat(a: seq<Orect>, b: seq<Orect>)
    ensures Ids(a + b) == Ids(a) + Ids(b)
  {
    var s, t := seq(|a|, i requires 0 <= i < |a| => a[i].id), seq(|b|, i requires 0 <= i < |b| => b[i].id);
    assert seq(|a + b|, i requires 0 <= i < |a + b| => (a + b)[i].id) == s + t;
  }

  lemma IdsOne(r: Orect)
    ensures Ids([r]) == multiset{r.id}
  {
    assert seq(|[r]|, i requires 0 <= i < |[r]| => [r][i].id) == [r.id];
  }

  // ---------- The windows

  const DROP_SHADOW_SIZE := 2

  /** The true size of a window: with its shadow, unless it has no size. */
  function TrueSize(r: Rect): (t: Rect) {
    if r.w != 0 && r.h != 0 then Rect(r.x, r.y, r.w + DROP_SHADOW_SIZE, r.h + DROP_SHADOW_SIZE) else r
  }

  /** All rectangle records on a set of lists. */
  ghost function AllIds(lists: seq<seq<Orect>>): (s: multiset<nat>) {
    if lists == [] then multiset{} else AllIds(lists[..|lists| - 1]) + Ids(lists[|lists| - 1])
  }

  lemma Shuffle(a': multiset<nat>, i: multiset<nat>, a: multiset<nat>, l: multiset<nat>, e: multiset<nat>)
    requires a' + i == a + l
    ensures (a' + e) + i == (a + e) + l
  {
    forall x: nat
      ensures ((a' + e) + i)[x] == ((a + e) + l)[x]
    {
      assert (a' + i)[x] == (a + l)[x];
    }
  }

  lemma Exchange(x: multiset<nat>, r: multiset<nat>, d: multiset<nat>, p: multiset<nat>, l': multiset<nat>, l: multiset<nat>, t: multiset<nat>)
    requires x + r == d + p && p + l' == r + l && d + l == t
    ensures x + l' == t
  {
    forall y: nat
      ensures (x + l')[y] == t[y]
    {
      assert (x + r)[y] == (d + p)[y] && (p + l')[y] == (r + l)[y] && (d + l)[y] == t[y];
    }
  }

  lemma {:induction false} AllIdsUpdate(lists: seq<seq<Orect>>, w: nat, l: seq<Orect>)
    requires w < |lists|
    ensures AllIds(lists[w := l]) + Ids(lists[w]) == AllIds(lists) + Ids(l)
    decreases |lists|
  {
    hide Ids;
    var n, new' := |lists| - 1, lists[w := l];
    assert AllIds(new') == AllIds(new'[..n]) + Ids(new'[n]);
    assert AllIds(lists) == AllIds(lists[..n]) + Ids(lists[n]);
    if w == n {
      assert new'[..n] == lists[..n];
    } else {
      assert new'[..n] == lists[..n][w := l];
      AllIdsUpdate(lists[..n], w, l);
      Shuffle(AllIds(new'[..n]), Ids(lists[w]), AllIds(lists[..n]), Ids(l), Ids(lists[n]));
    }
  }

  ghost predicate AnyOverlap(above: seq<Rect>, own: Rect) {
    exists i :: 0 <= i < |above| && Overlap(above[i], own)
  }

  /** Some rectangle of the list is hit by `a`, or one above has hit the window before, if and only if
      one of those above and `a` overlaps the window. */
  lemma HitIffOverlap(list: seq<Orect>, own: Rect, above: seq<Rect>, a: Rect)
    requires Tiles(list, own, above) && Positive(own) && Positive(a) && forall i :: 0 <= i < |above| ==> Positive(above[i])
    ensures AnyOverlap(above + [a], own) <==>
            AnyOverlap(above, own) || exists i :: 0 <= i < |list| && Overlap(a, list[i].gr)
  {
    var all := above + [a];
    assert all[|above|] == a && forall i :: 0 <= i < |above| ==> all[i] == above[i];
    assert AnyOverlap(all, own) <==> AnyOverlap(above, own) || Overlap(a, own);
    OverlapIff(a, own);
    if Overlap(a, own) {
      var px, py :| In(px, py, a) && In(px, py, own);
      HitPoint(list, own, above, a, px, py);
    }
    if i :| 0 <= i < |list| && Overlap(a, list[i].gr) {
      OverlapIff(a, list[i].gr);
      var px, py :| In(px, py, a) && In(px, py, list[i].gr);
      assert Covered(list, px, py);
    }
  }

  lemma HitPoint(list: seq<Orect>, own: Rect, above: seq<Rect>, a: Rect, px: int, py: int)
    requires Tiles(list, own, above) && Positive(own) && Positive(a) && forall i :: 0 <= i < |above| ==> Positive(above[i])
    requires In(px, py, a) && In(px, py, own)
    ensures AnyOverlap(above, own) || exists i :: 0 <= i < |list| && Overlap(a, list[i].gr)
  {
    if CoveredBy(above, px, py) {
      var i :| 0 <= i < |above| && In(px, py, above[i]);
      OverlapIff(above[i], own);
    } else {
      assert Covered(list, px, py);
      var i :| 0 <= i < |list| && In(px, py, list[i].gr);
      OverlapIff(a, list[i].gr);
    }
  }

  // ---------- Where the corners of the pieces lie

  /** Left edges there can be: that of the window, and the right edges of those above. */
  ghost function Lefts(own: Rect, above: seq<Rect>): (s: set<int>)
    decreases |above|
  {
    var n := |above|;
    if n == 0 then {own.x} else Lefts(own, above[..n - 1]) + {above[n - 1].x + above[n - 1].w}
  }

  /** Top edges there can be: that of the window, and the top and bottom edges of those above. */
  ghost function Tops(own: Rect, above: seq<Rect>): (s: set<int>)
    decreases |above|
  {
    var n := |above|;
    if n == 0 then {own.y} else Tops(own, above[..n - 1]) + {above[n - 1].y, above[n - 1].y + above[n - 1].h}
  }

  lemma MoreEdges(own: Rect, above: seq<Rect>, a: Rect)
    ensures Lefts(own, above + [a]) == Lefts(own, above) + {a.x + a.w}
    ensures Tops(own, above + [a]) == Tops(own, above) + {a.y, a.y + a.h}
  {
    assert (above + [a])[..|above|] == above;
  }

  ghost predicate EdgedAt(r: Rect, own: Rect, above: seq<Rect>) { r.x in Lefts(own, above) && r.y in Tops(own, above) }

  ghost predicate Edged(list: seq<Orect>, own: Rect, above: seq<Rect>) {
    forall i :: 0 <= i < |list| ==> EdgedAt(list[i].gr, own, above)
  }

  /** Cutting brings no other edges in than those of the window that cuts. */
  lemma PieceEdged(s: Side, a: Rect, r: Rect, own: Rect, above: seq<Rect>)
    requires EdgedAt(r, own, above)
    ensures EdgedAt(Piece(s, a, r), own, above + [a]) && EdgedAt(r, own, above + [a])
  {
    MoreEdges(own, above, a);
  }

  lemma EdgedConcat(s: seq<Orect>, t: seq<Orect>, own: Rect, above: seq<Rect>)
    requires Edged(s, own, above) && Edged(t, own, above)
    ensures Edged(s + t, own, above)
  {
    hide EdgedAt;
  }

  lemma EdgedMore(list: seq<Orect>, own: Rect, above: seq<Rect>, a: Rect)
    requires Edged(list, own, above)
    ensures Edged(list, own, above + [a])
  {
    hide EdgedAt;
    forall i | 0 <= i < |list|
      ensures EdgedAt(list[i].gr, own, above + [a])
    {
      PieceEdged(Top, a, list[i].gr, own, above);
    }
  }

  lemma SplitEdged(a: Rect, r: Orect, pieces: seq<Orect>, sides: seq<Side>, own: Rect, above: seq<Rect>)
    requires Split(a, r.gr, pieces, sides) && EdgedAt(r.gr, own, above)
    ensures Edged(pieces, own, above + [a])
  {
    hide EdgedAt, Piece;
    forall i | 0 <= i < |pieces|
      ensures EdgedAt(pieces[i].gr, own, above + [a])
    {
      PieceEdged(sides[i], a, r.gr, own, above);
    }
  }

  function At(r: Orect): (c: (int, int)) { (r.gr.x, r.gr.y) }

  /** The corners of a list. */
  ghost function Corners(list: seq<Orect>): (s: set<(int, int)>)
    decreases |list|
  {
    var n := |list|;
    if n == 0 then {} else Corners(list[..n - 1]) + {At(list[n - 1])}
  }

  ghost function Pairs<A, B>(a: set<A>, b: set<B>): (s: set<(A, B)>) { set x, y | x in a && y in b :: (x, y) }

  lemma {:induction false} PairsCount<A, B>(a: set<A>, b: set<B>)
    ensures |Pairs(a, b)| == |a| * |b|
    decreases |a|
  {
    if |a| > 0 {
      var x :| x in a;
      var c := a - {x};
      PairsCount(c, b);
      RowCount(x, b);
      MoreRows(x, c, b);
      assert a == c + {x};
      assert |a| == |c| + 1;
      assert (|c| + 1) * |b| == |c| * |b| + |b|;
    } else {
      assert a == {};
      assert Pairs(a, b) == {};
    }
  }

  lemma MoreRows<A, B>(x: A, c: set<A>, b: set<B>)
    requires x !in c
    ensures |Pairs(c + {x}, b)| == |Pairs(c, b)| + |Pairs({x}, b)|
  {
    assert Pairs(c + {x}, b) == Pairs(c, b) + Pairs({x}, b) && Pairs(c, b) !! Pairs({x}, b);
  }

  lemma {:induction false} RowCount<A, B>(x: A, b: set<B>)
    ensures |Pairs({x}, b)| == |b|
    decreases |b|
  {
    if |b| > 0 {
      var y :| y in b;
      var c := b - {y};
      RowCount(x, c);
      assert Pairs({x}, b) == Pairs({x}, c) + {(x, y)} && (x, y) !in Pairs({x}, c);
    } else {
      assert b == {};
      assert Pairs({x}, b) == {};
    }
  }

  /** No two rectangles of a clear list have the same corner. */
  lemma {:induction false} CornersCount(list: seq<Orect>)
    requires Clear(list)
    ensures |Corners(list)| == |list| && forall c :: c in Corners(list) ==> exists i :: 0 <= i < |list| && c == At(list[i])
    decreases |list|
  {
    if list != [] {
      var n := |list| - 1;
      var t, r := list[..n], list[n].gr;
      ClearFront(list, n);
      CornersCount(t);
      assert In(r.x, r.y, r);
      forall c | c in Corners(t)
        ensures c != (r.x, r.y) && exists i :: 0 <= i < |list| && c == At(list[i])
      {
        var i :| 0 <= i < n && c == At(t[i]);
        assert t[i] == list[i];
        assert In(list[i].gr.x, list[i].gr.y, list[i].gr);
      }
      assert list[n].gr == r;
    }
  }

  lemma ClearFront(list: seq<Orect>, n: nat)
    requires Clear(list) && n <= |list|
    ensures Clear(list[..n])
  {
  }

  /** What has been cut so far, with what has not, is still clear. */
  lemma ClearSoFar(list: seq<Orect>, j: nat, a: Rect, done: seq<Orect>)
    requires Clear(list) && j <= |list| && Cut(list[..j], a, done)
    ensures Clear(done + list[j..])
  {
    hide In, Positive;
    var rest := list[j..];
    forall px, py | Covered(done, px, py)
      ensures !Covered(rest, px, py)
    {
      assert Covered(list[..j], px, py);
    }
    ClearRest(list, j);
    ClearConcat(done, rest);
  }

  lemma ClearRest(list: seq<Orect>, j: nat)
    requires Clear(list) && j <= |list|
    ensures Clear(list[j..])
  {
    hide In, Positive;
    var t := list[j..];
    assert forall i :: 0 <= i < |t| ==> t[i] == list[j + i];
  }

  /** `done` is what `a` leaves of the first j rectangles of the list. */
  ghost predicate HalfCut(list: seq<Orect>, j: nat, a: Rect, done: seq<Orect>, own: Rect, above: seq<Rect>) {
    && Clear(list) && Edged(list, own, above) && Positive(a)
    && j <= |list| && Cut(list[..j], a, done) && Edged(done, own, above + [a])
  }

  lemma HalfCutStart(list: seq<Orect>, a: Rect, own: Rect, above: seq<Rect>)
    requires Clear(list) && Edged(list, own, above) && Positive(a)
    ensures HalfCut(list, 0, a, [], own, above)
  {
    CutNothing(a);
    assert list[..0] == [];
  }

  lemma HalfCutEnd(list: seq<Orect>, a: Rect, done: seq<Orect>, own: Rect, above: seq<Rect>)
    requires HalfCut(list, |list|, a, done, own, above)
    ensures Cut(list, a, done) && Edged(done, own, above + [a])
  {
    hide Clear, Cut, Edged;
    assert list[..|list|] == list;
  }

  /** A clear list that covers no more than `list`, with edges as if it were cut by `a`. */
  ghost predicate Partly(list: seq<Orect>, a: Rect, half: seq<Orect>, own: Rect, above: seq<Rect>) {
    && Clear(half) && Edged(half, own, above + [a])
    && forall px, py :: Covered(half, px, py) ==> Covered(list, px, py)
  }

  /** So is the list while it is being cut. */
  lemma HalfCutPartly(list: seq<Orect>, j: nat, a: Rect, done: seq<Orect>, own: Rect, above: seq<Rect>)
    requires HalfCut(list, j, a, done, own, above)
    ensures Partly(list, a, done + list[j..], own, above)
  {
    hide Clear, EdgedAt, Covered;
    ClearSoFar(list, j, a, done);
    EdgedMore(list[j..], own, above, a);
    EdgedConcat(done, list[j..], own, above + [a]);
    assert list == list[..j] + list[j..];
    forall px, py | Covered(done + list[j..], px, py)
      ensures Covered(list, px, py)
    {
      CoveredConcat(done, list[j..], px, py);
      CoveredConcat(list[..j], list[j..], px, py);
    }
  }

  lemma HitNext(list: seq<Orect>, j: nat, j1: nat, a: Rect, done: seq<Orect>, pieces: seq<Orect>, sides: seq<Side>, own: Rect, above: seq<Rect>)
    requires HalfCut(list, j, a, done, own, above) && j < |list| && j1 == j + 1
    requires Overlap(a, list[j].gr) && Split(a, list[j].gr, pieces, sides)
    ensures HalfCut(list, j1, a, done + pieces, own, above)
  {
    hide Split, EdgedAt, Clear, Cut, Overlap, Positive;
    ClearAt(list, j);
    SplitCuts(a, list[j], pieces, sides);
    CutNext(list, j, a, done, pieces);
    SplitEdged(a, list[j], pieces, sides, own, above);
    EdgedConcat(done, pieces, own, above + [a]);
  }

  lemma MissNext(list: seq<Orect>, j: nat, j1: nat, a: Rect, done: seq<Orect>, own: Rect, above: seq<Rect>)
    requires HalfCut(list, j, a, done, own, above) && j < |list| && j1 == j + 1 && !Overlap(a, list[j].gr)
    ensures HalfCut(list, j1, a, done + [list[j]], own, above)
  {
    hide EdgedAt, Clear, Cut, Overlap, Positive;
    ClearAt(list, j);
    WholeCuts(a, list[j]);
    CutNext(list, j, a, done, [list[j]]);
    EdgedMore([list[j]], own, above, a);
    EdgedConcat(done, [list[j]], own, above + [a]);
  }

  /** What a window's list and flag are to be, given its true size and those of the windows above it. */
  ghost predicate WinOk(list: seq<Orect>, flag: bool, own: Rect, above: seq<Rect>) {
    && (forall i :: 0 <= i < |above| ==> Positive(above[i])) && Edged(list, own, above)
    && Tiles(list, own, above) && (flag <==> Positive(own) && AnyOverlap(above, own))
  }

  /** One more window above. */
  lemma WinCut(list: seq<Orect>, flag: bool, own: Rect, above: seq<Rect>, a: Rect, list': seq<Orect>, flag': bool)
    requires WinOk(list, flag, own, above) && Positive(a) && Cut(list, a, list') && Edged(list', own, above + [a])
    requires flag' <==> flag || exists i :: 0 <= i < |list| && Overlap(a, list[i].gr)
    ensures WinOk(list', flag', own, above + [a])
  {
    CutTiles(list, own, above, a, list');
    if Positive(own) {
      HitIffOverlap(list, own, above, a);
    } else if list != [] {
      assert In(list[0].gr.x, list[0].gr.y, list[0].gr);
      assert Covered(list, list[0].gr.x, list[0].gr.y);
    }
  }

  /** The true sizes of the windows from place `j + 1` up to place `i` of the order, as far as they have one. */
  ghost function Above(curr: seq<Rect>, order: seq<nat>, j: nat, i: nat): (above: seq<Rect>)
    requires i <= |order| && forall k :: 0 <= k < |order| ==> order[k] < |curr|
    decreases i
  {
    if i <= j + 1 then [] else
      var t := TrueSize(curr[order[i - 1]]);
      Above(curr, order, j, i - 1) + (if Positive(t) then [t] else [])
  }

  /** The window in place `j` is in order with respect to those up to place `i`. */
  ghost predicate PlaceOk(rlist: seq<seq<Orect>>, broken: seq<bool>, curr: seq<Rect>, order: seq<nat>, j: nat, i: nat)
    requires |rlist| == |broken| == |curr| && j < |order| && i <= |order|
    requires forall k :: 0 <= k < |order| ==> order[k] < |curr|
  {
    WinOk(rlist[order[j]], broken[order[j]], TrueSize(curr[order[j]]), Above(curr, order, j, i))
  }

  /** The point is in a window further up the order. */
  ghost predicate Hidden(curr: seq<Rect>, order: seq<nat>, j: nat, i: nat, px: int, py: int)
    requires i <= |order| && forall k :: 0 <= k < |order| ==> order[k] < |curr|
  {
    exists k :: j < k < i && In(px, py, TrueSize(curr[order[k]]))
  }

  lemma {:induction false} AbovePoints(curr: seq<Rect>, order: seq<nat>, j: nat, i: nat, px: int, py: int)
    requires i <= |order| && forall k :: 0 <= k < |order| ==> order[k] < |curr|
    ensures CoveredBy(Above(curr, order, j, i), px, py) <==> Hidden(curr, order, j, i, px, py)
    decreases i
  {
    hide TrueSize, In;
    if i > j + 1 {
      AbovePoints(curr, order, j, i - 1, px, py);
      var t := TrueSize(curr[order[i - 1]]);
      CoveredByMore(Above(curr, order, j, i - 1), t, px, py);
      NoPoint(t, px, py);
      assert Above(curr, order, j, i - 1) + [] == Above(curr, order, j, i - 1);
      assert Hidden(curr, order, j, i, px, py) <==> Hidden(curr, order, j, i - 1, px, py) || In(px, py, t);
    }
  }

  lemma NoPoint(t: Rect, px: int, py: int)
    ensures In(px, py, t) ==> Positive(t)
  {
  }

  /** The list of a window in order covers just the points of the window that no window above it has. */
  lemma Visible(rlist: seq<seq<Orect>>, broken: seq<bool>, curr: seq<Rect>, order: seq<nat>, j: nat, px: int, py: int)
    requires |rlist| == |broken| == |curr| && j < |order| && forall k :: 0 <= k < |order| ==> order[k] < |curr|
    requires PlaceOk(rlist, broken, curr, order, j, |order|)
    ensures Clear(rlist[order[j]])
    ensures Covered(rlist[order[j]], px, py) <==>
            In(px, py, TrueSize(curr[order[j]])) && !Hidden(curr, order, j, |order|, px, py)
  {
    hide TrueSize, In, Clear;
    AbovePoints(curr, order, j, |order|, px, py);
  }

  /** One more window below place `i` cut by the window there. */
  lemma PlacesStep(lists: seq<seq<Orect>>, flags: seq<bool>, lists': seq<seq<Orect>>, flags': seq<bool>,
                   curr: seq<Rect>, order: seq<nat>, i: nat, upto: nat, k: nat, k1: nat, a: Rect)
    requires |lists| == |flags| == |lists'| == |flags'| == |curr| && k < i < |order| && upto == i + 1 && k1 == k + 1
    requires NoDups(order) && forall j :: 0 <= j < |order| ==> order[j] < |curr|
    requires Positive(a) && a == TrueSize(curr[order[i]])
    requires forall j :: 0 <= j < k ==> PlaceOk(lists, flags, curr, order, j, upto)
    requires forall j :: k <= j < i ==> PlaceOk(lists, flags, curr, order, j, i)
    requires var w := order[k];
             && lists' == lists[w := lists'[w]] && flags' == flags[w := flags'[w]] && Cut(lists[w], a, lists'[w])
             && (flags'[w] <==> flags[w] || exists e :: 0 <= e < |lists[w]| && Overlap(a, lists[w][e].gr))
             && Edged(lists'[w], TrueSize(curr[w]), Above(curr, order, k, i) + [a])
    ensures forall j :: 0 <= j < k1 ==> PlaceOk(lists', flags', curr, order, j, upto)
    ensures forall j :: k1 <= j < i ==> PlaceOk(lists', flags', curr, order, j, i)
  {
    hide WinOk, TrueSize, Cut, Overlap, Edged;
    var w := order[k];
    assert PlaceOk(lists, flags, curr, order, k, i);
    assert Above(curr, order, k, upto) == Above(curr, order, k, i) + [a];
    WinCut(lists[w], flags[w], TrueSize(curr[w]), Above(curr, order, k, i), a, lists'[w], flags'[w]);
    forall j | 0 <= j < k
      ensures PlaceOk(lists', flags', curr, order, j, upto)
    {
      assert PlaceOk(lists, flags, curr, order, j, upto);
    }
    forall j | k < j < i
      ensures PlaceOk(lists', flags', curr, order, j, i)
    {
      assert PlaceOk(lists, flags, curr, order, j, i);
    }
  }

  // ---- How many rectangle records are enough

  /** How many rectangles the first k windows of `ids` have. */
  ghost function Total(lists: seq<seq<Orect>>, ids: seq<nat>, k: nat): (n: nat)
    requires k <= |ids| && forall j :: 0 <= j < |ids| ==> ids[j] < |lists|
    decreases k
  {
    if k == 0 then 0 else Total(lists, ids, k - 1) + |lists[ids[k - 1]]|
  }

  lemma {:induction false} TotalFrame(lists: seq<seq<Orect>>, lists': seq<seq<Orect>>, ids: seq<nat>, ids': seq<nat>, k: nat)
    requires k <= |ids| && k <= |ids'| && (forall j :: 0 <= j < |ids| ==> ids[j] < |lists|) && forall j :: 0 <= j < |ids'| ==> ids'[j] < |lists'|
    requires forall j :: 0 <= j < k ==> ids[j] == ids'[j] && lists[ids[j]] == lists'[ids[j]]
    ensures Total(lists, ids, k) == Total(lists', ids', k)
    decreases k
  {
    if k > 0 {
      TotalFrame(lists, lists', ids, ids', k - 1);
    }
  }

  lemma TotalNone(lists: seq<seq<Orect>>, order: seq<nat>)
    requires forall j :: 0 <= j < |order| ==> order[j] < |lists|
    ensures Total(lists, order, 0) == 0
  {
  }

  /** What replacing the list of one window does to the total. */
  lemma {:induction false} TotalSwap(lists: seq<seq<Orect>>, ids: seq<nat>, k: nat, n: nat, l: seq<Orect>)
    requires k < n <= |ids| && NoDups(ids) && forall j :: 0 <= j < |ids| ==> ids[j] < |lists|
    ensures Total(lists[ids[k] := l], ids, n) + |lists[ids[k]]| == Total(lists, ids, n) + |l|
    decreases n
  {
    if k == n - 1 {
      TotalFrame(lists, lists[ids[k] := l], ids, ids, k);
    } else {
      TotalSwap(lists, ids, k, n - 1, l);
    }
  }

  /** The total of one more window, whose list becomes `own`; `upto` is one more than i. */
  lemma TotalWith(lists: seq<seq<Orect>>, order: seq<nat>, i: nat, own: seq<Orect>, upto: nat)
    requires i < |order| && upto == i + 1 && NoDups(order) && forall j :: 0 <= j < |order| ==> order[j] < |lists|
    ensures var now := lists[order[i] := own];
            Total(now, order, i) == Total(lists, order, i) && Total(now, order, upto) == Total(lists, order, i) + |own|
  {
    TotalFrame(lists, lists[order[i] := own], order, order, i);
  }

  /** The true sizes of the windows in their order. */
  ghost function Sizes(curr: seq<Rect>, order: seq<nat>): (s: seq<Rect>)
    requires forall k :: 0 <= k < |order| ==> order[k] < |curr|
  {
    seq(|order|, k requires 0 <= k < |order| => TrueSize(curr[order[k]]))
  }

  /** The right edges of the first n windows but the lowest. */
  ghost function Rights(sizes: seq<Rect>, n: nat): (s: set<int>)
    requires n <= |sizes|
    ensures |s| <= if n == 0 then 0 else n - 1
  {
    if n <= 1 then {} else Rights(sizes, n - 1) + {sizes[n - 1].x + sizes[n - 1].w}
  }

  /** The top edges of the windows from place j to before n, and the bottom edges of those above place j. */
  ghost function Levels(sizes: seq<Rect>, j: nat, n: nat): (s: set<int>)
    requires n <= |sizes|
    ensures |s| <= if n <= j then 0 else 2 * (n - j) - 1
    decreases n
  {
    if n <= j then {} else if n == j + 1 then {sizes[j].y} else Levels(sizes, j, n - 1) + {sizes[n - 1].y, sizes[n - 1].y + sizes[n - 1].h}
  }

  lemma {:induction false} EdgeIn(sizes: seq<Rect>, j: nat, k: nat, n: nat)
    requires j < k < n <= |sizes|
    ensures sizes[k].x + sizes[k].w in Rights(sizes, n)
    ensures sizes[j].y in Levels(sizes, j, n) && sizes[k].y in Levels(sizes, j, n) && sizes[k].y + sizes[k].h in Levels(sizes, j, n)
    decreases n
  {
    if k < n - 1 {
      EdgeIn(sizes, j, k, n - 1);
    } else if j + 1 < k {
      EdgeIn(sizes, j, k - 1, n - 1);
    }
  }

  lemma {:induction false} LevelsDown(sizes: seq<Rect>, j: nat, n: nat)
    requires j < n <= |sizes|
    ensures Levels(sizes, j, n) <= Levels(sizes, 0, n)
    decreases n
  {
    if 0 < j == n - 1 {
      EdgeIn(sizes, 0, j, n);
    } else if j < n - 1 {
      LevelsDown(sizes, j, n - 1);
    }
  }

  /** Where a piece of the window in place j can have its corner. */
  ghost predicate CornerOk(sizes: seq<Rect>, j: nat, n: nat, r: Rect)
    requires j < n <= |sizes|
  {
    (r.x == sizes[j].x || r.x in Rights(sizes, n)) && r.y in Levels(sizes, j, n)
  }

  lemma {:induction false} OwnTop(sizes: seq<Rect>, j: nat, n: nat)
    requires j < n <= |sizes|
    ensures sizes[j].y in Levels(sizes, j, n)
    decreases n
  {
    if j < n - 1 {
      OwnTop(sizes, j, n - 1);
    }
  }

  lemma {:induction false} AboveEdges(curr: seq<Rect>, order: seq<nat>, j: nat, i: nat, n: nat)
    requires j < n && i <= n <= |order| && forall k :: 0 <= k < |order| ==> order[k] < |curr|
    ensures var sizes := Sizes(curr, order);
            && Lefts(sizes[j], Above(curr, order, j, i)) <= {sizes[j].x} + Rights(sizes, n)
            && Tops(sizes[j], Above(curr, order, j, i)) <= Levels(sizes, j, n)
    decreases i
  {
    hide TrueSize, Rights, Levels;
    var sizes := Sizes(curr, order);
    OwnTop(sizes, j, n);
    if i > j + 1 {
      AboveEdges(curr, order, j, i - 1, n);
      EdgeIn(sizes, j, i - 1, n);
      var before := Above(curr, order, j, i - 1);
      assert sizes[i - 1] == TrueSize(curr[order[i - 1]]);
      MoreEdges(sizes[j], before, sizes[i - 1]);
      assert before + [] == before;
    }
  }

  /** What the list of the window in place j is at any time while the windows below place i + 1 are being cut by the one in
      place i: clear, with corners at those places, inside the window and clear of all others above it up to place i. */
  ghost predicate Fits(list: seq<Orect>, curr: seq<Rect>, order: seq<nat>, j: nat, i: nat, n: nat)
    requires j < n <= |order| && i <= n && forall k :: 0 <= k < |order| ==> order[k] < |curr|
  {
    && Clear(list)
    && (forall e :: 0 <= e < |list| ==> CornerOk(Sizes(curr, order), j, n, list[e].gr))
    && (forall px, py :: Covered(list, px, py) ==> In(px, py, TrueSize(curr[order[j]])) && !Hidden(curr, order, j, i, px, py))
  }

  /** A list with the edges of the windows above has its corners at those places. */
  lemma EdgedCorners(list: seq<Orect>, curr: seq<Rect>, order: seq<nat>, j: nat, i: nat, n: nat)
    requires j < n && i <= n <= |order| && forall k :: 0 <= k < |order| ==> order[k] < |curr|
    requires Edged(list, TrueSize(curr[order[j]]), Above(curr, order, j, i))
    ensures forall e :: 0 <= e < |list| ==> CornerOk(Sizes(curr, order), j, n, list[e].gr)
  {
    hide TrueSize, Lefts, Tops, Rights, Levels, Above;
    AboveEdges(curr, order, j, i, n);
    var sizes := Sizes(curr, order);
    forall e | 0 <= e < |list|
      ensures CornerOk(sizes, j, n, list[e].gr)
    {
      assert EdgedAt(list[e].gr, sizes[j], Above(curr, order, j, i));
    }
  }

  /** A window in order with respect to i or more windows fits. */
  lemma OkFits(rlist: seq<seq<Orect>>, broken: seq<bool>, curr: seq<Rect>, order: seq<nat>, j: nat, i: nat, i': nat, n: nat)
    requires |rlist| == |broken| == |curr| && j < n <= |order| && i <= i' <= n
    requires forall k :: 0 <= k < |order| ==> order[k] < |curr|
    requires PlaceOk(rlist, broken, curr, order, j, i')
    ensures Fits(rlist[order[j]], curr, order, j, i, n)
  {
    hide TrueSize, Clear, Covered, CornerOk, Above, Edged, In, Sizes;
    var list := rlist[order[j]];
    EdgedCorners(list, curr, order, j, i', n);
    forall px, py | Covered(list, px, py)
      ensures In(px, py, TrueSize(curr[order[j]])) && !Hidden(curr, order, j, i, px, py)
    {
      AbovePoints(curr, order, j, i', px, py);
    }
  }

  /** So does one that is half cut. */
  lemma PartlyFits(rlist: seq<seq<Orect>>, broken: seq<bool>, curr: seq<Rect>, order: seq<nat>, j: nat, i: nat, n: nat, a: Rect, half: seq<Orect>)
    requires |rlist| == |broken| == |curr| && j < i < n <= |order| && n == i + 1
    requires forall k :: 0 <= k < |order| ==> order[k] < |curr|
    requires PlaceOk(rlist, broken, curr, order, j, i) && Positive(a) && a == TrueSize(curr[order[i]])
    requires Partly(rlist[order[j]], a, half, TrueSize(curr[order[j]]), Above(curr, order, j, i))
    ensures Fits(half, curr, order, j, i, n)
  {
    hide TrueSize, Clear, Covered, CornerOk, Edged, In, Sizes, PlaceOk, Hidden;
    assert Above(curr, order, j, n) == Above(curr, order, j, i) + [a];
    EdgedCorners(half, curr, order, j, n, n);
    OkFits(rlist, broken, curr, order, j, i, i, n);
  }

  /** The rectangles of the first k windows, one list after the other. */
  ghost function Flat(lists: seq<seq<Orect>>, ids: seq<nat>, k: nat): (s: seq<Orect>)
    requires k <= |ids| && forall j :: 0 <= j < |ids| ==> ids[j] < |lists|
    decreases k
  {
    if k == 0 then [] else Flat(lists, ids, k - 1) + lists[ids[k - 1]]
  }

  /** The places where corners of rectangles of the first k windows can be. */
  ghost function Places(sizes: seq<Rect>, k: nat, n: nat): (s: set<(int, int)>)
    requires k <= n <= |sizes|
    decreases k
  {
    if k == 0 then Pairs(Rights(sizes, n), Levels(sizes, 0, n))
    else Places(sizes, k - 1, n) + Pairs({sizes[k - 1].x}, Levels(sizes, k - 1, n))
  }

  /** There are so many of them; `d` is n - k. */
  lemma {:induction false} PlacesCount(sizes: seq<Rect>, k: nat, n: nat, d: nat)
    requires 0 < n <= |sizes| && k + d == n
    ensures |Places(sizes, k, n)| <= (n - 1) * (2 * n - 1) + n * n - d * d
    decreases k
  {
    hide Rights, Levels, Pairs;
    if k == 0 {
      var r, l := Rights(sizes, n), Levels(sizes, 0, n);
      PairsCount(r, l);
      EdgeCount(sizes, 0, n);
      ProductBound(|r|, |l|, n - 1, 2 * n - 1);
    } else {
      PlacesCount(sizes, k - 1, n, d + 1);
      PairsCount({sizes[k - 1].x}, Levels(sizes, k - 1, n));
      EdgeCount(sizes, k - 1, n);
      assert (d + 1) * (d + 1) == d * d + 2 * d + 1;
    }
  }

  lemma EdgeCount(sizes: seq<Rect>, j: nat, n: nat)
    requires j < n <= |sizes|
    ensures |Rights(sizes, n)| <= n - 1 && |Levels(sizes, j, n)| <= 2 * (n - j) - 1
  {
  }

  lemma ProductBound(a: nat, b: nat, c: nat, d: nat)
    requires a <= c && b <= d
    ensures a * b <= c * d
  {
    assert c * d - a * b == (c - a) * d + a * (d - b);
    assert (c - a) * d >= 0 && a * (d - b) >= 0;
  }

  lemma {:induction false} FlatPoint(lists: seq<seq<Orect>>, ids: seq<nat>, k: nat, px: int, py: int)
    requires k <= |ids| && forall j :: 0 <= j < |ids| ==> ids[j] < |lists|
    requires Covered(Flat(lists, ids, k), px, py)
    ensures exists j :: 0 <= j < k && Covered(lists[ids[j]], px, py)
    decreases k
  {
    hide In;
    if k > 0 {
      CoveredConcat(Flat(lists, ids, k - 1), lists[ids[k - 1]], px, py);
      if Covered(Flat(lists, ids, k - 1), px, py) {
        FlatPoint(lists, ids, k - 1, px, py);
      }
    }
  }

  /** The rectangles of all windows together do not overlap either, and there are as many as the windows have. */
  lemma {:induction false} FlatClear(lists: seq<seq<Orect>>, curr: seq<Rect>, order: seq<nat>, k: nat, i: nat, n: nat)
    requires k <= i <= n <= |order| && |lists| == |curr| && (forall j :: 0 <= j < |order| ==> order[j] < |curr|)
    requires forall j :: 0 <= j < k ==> Fits(lists[order[j]], curr, order, j, i, n)
    ensures |Flat(lists, order, k)| == Total(lists, order, k) && Clear(Flat(lists, order, k))
    decreases k
  {
    hide Clear, Covered, CornerOk, In, Sizes, TrueSize;
    if k == 0 {
      NoneClear();
    } else {
      var m := k - 1;
      FlatClear(lists, curr, order, m, i, n);
      forall px, py | Covered(Flat(lists, order, m), px, py)
        ensures !Covered(lists[order[m]], px, py)
      {
        FlatPoint(lists, order, m, px, py);
      }
      ClearConcat(Flat(lists, order, m), lists[order[m]]);
    }
  }

  lemma NoneClear()
    ensures Clear([])
  {
  }

  /** Their corners are at those places. */
  lemma {:induction false} FlatCorners(lists: seq<seq<Orect>>, curr: seq<Rect>, order: seq<nat>, k: nat, i: nat, n: nat)
    requires k <= i <= n <= |order| && |lists| == |curr| && (forall j :: 0 <= j < |order| ==> order[j] < |curr|)
    requires forall j :: 0 <= j < k ==> Fits(lists[order[j]], curr, order, j, i, n)
    ensures forall e :: 0 <= e < |Flat(lists, order, k)| ==> At(Flat(lists, order, k)[e]) in Places(Sizes(curr, order), k, n)
    decreases k
  {
    hide Clear, Covered, In, Sizes, TrueSize, Rights, Levels, Hidden;
    if k > 0 {
      var m := k - 1;
      var sizes, list, flat := Sizes(curr, order), lists[order[m]], Flat(lists, order, m);
      SizesSize(curr, order);
      FlatCorners(lists, curr, order, m, i, n);
      forall e | 0 <= e < |Flat(lists, order, k)|
        ensures At(Flat(lists, order, k)[e]) in Places(sizes, k, n)
      {
        if e < |flat| {
          assert Flat(lists, order, k)[e] == flat[e];
        } else {
          assert Flat(lists, order, k)[e] == list[e - |flat|];
          CornerPlace(sizes, m, n, list[e - |flat|]);
        }
      }
    }
  }

  lemma CornerPlace(sizes: seq<Rect>, j: nat, n: nat, r: Orect)
    requires j < n <= |sizes| && CornerOk(sizes, j, n, r.gr)
    ensures At(r) in Places(sizes, j + 1, n)
  {
    hide Rights, Levels;
    if r.gr.x != sizes[j].x {
      LevelsDown(sizes, j, n);
      assert At(r) in Pairs(Rights(sizes, n), Levels(sizes, 0, n));
      PlacesGrow(sizes, j + 1, n);
    } else {
      assert At(r) in Pairs({sizes[j].x}, Levels(sizes, j, n));
    }
  }

  lemma {:induction false} PlacesGrow(sizes: seq<Rect>, k: nat, n: nat)
    requires k <= n <= |sizes|
    ensures Places(sizes, 0, n) <= Places(sizes, k, n)
    decreases k
  {
    if k > 0 {
      PlacesGrow(sizes, k - 1, n);
    }
  }

  /** Free records that are enough to rebuild the lists of n windows: the places of the corners, and three for the pieces of a
      rectangle whose own record is not free yet. */
  function Enough(n: nat): (r: nat) { 3 * (n * (if n == 0 then 0 else n - 1)) + 4 }

  lemma {:induction false} EnoughGrows(i: nat, n: nat)
    requires i <= n
    ensures Enough(i) <= Enough(n)
    decreases n
  {
    if i < n {
      EnoughGrows(i, n - 1);
      assert n * (n - 1) == (n - 1) * (n - 2) + 2 * (n - 1);
    }
  }

  /** While the windows below place i are being cut by the one there they have fewer rectangles than that. */
  lemma FitsSize(lists: seq<seq<Orect>>, curr: seq<Rect>, order: seq<nat>, i: nat, upto: nat)
    requires i < |order| && upto == i + 1 && |lists| == |curr| && (forall j :: 0 <= j < |order| ==> order[j] < |curr|)
    requires forall j :: 0 <= j < i ==> Fits(lists[order[j]], curr, order, j, i, upto)
    ensures Total(lists, order, i) + 4 <= Enough(upto)
  {
    hide Fits, Clear, Sizes, Places, Total, Flat;
    var flat, sizes := Flat(lists, order, i), Sizes(curr, order);
    SizesSize(curr, order);
    FlatClear(lists, curr, order, i, i, upto);
    FlatCorners(lists, curr, order, i, i, upto);
    CornersCount(flat);
    forall c | c in Corners(flat)
      ensures c in Places(sizes, i, upto)
    {
      var e :| 0 <= e < |flat| && c == At(flat[e]);
    }
    CornersFit(Corners(flat), Places(sizes, i, upto));
    PlacesCount(sizes, i, upto, 1);
    Squares(i);
  }

  lemma Squares(i: nat)
    ensures i * (2 * i + 1) + (i + 1) * (i + 1) - 1 + 4 == Enough(i + 1)
  {
    var q := i * i;
    assert i * (2 * i + 1) == 2 * q + i && (i + 1) * (i + 1) == q + 2 * i + 1 && (i + 1) * i == q + i;
  }

  lemma SizesSize(curr: seq<Rect>, order: seq<nat>)
    requires forall k :: 0 <= k < |order| ==> order[k] < |curr|
    ensures |Sizes(curr, order)| == |order|
  {
  }

  lemma CornersFit(a: set<(int, int)>, b: set<(int, int)>)
    requires a <= b
    ensures |a| <= |b|
  {
    assert b == a + (b - a);
  }

  /** If there is no room to cut the window in place k, there were not enough records. */
  lemma NoRoom(lists: seq<seq<Orect>>, flags: seq<bool>, curr: seq<Rect>, order: seq<nat>, below: seq<nat>, i: nat, upto: nat, k: nat, free: nat,
               a: Rect, half: seq<Orect>)
    requires |lists| == |flags| == |curr| && k < i < |order| && upto == i + 1 && below == order[..i] && NoDups(order)
    requires (forall j :: 0 <= j < |order| ==> order[j] < |curr|) && Positive(a) && a == TrueSize(curr[order[i]])
    requires forall j :: 0 <= j < k ==> PlaceOk(lists, flags, curr, order, j, upto)
    requires forall j :: k <= j < i ==> PlaceOk(lists, flags, curr, order, j, i)
    requires Partly(lists[order[k]], a, half, TrueSize(curr[order[k]]), Above(curr, order, k, i))
    requires free + |lists[below[k]]| <= |half| + 3
    ensures free + Total(lists, below, |below|) < Enough(upto)
  {
    hide PlaceOk, Above, Total, Fits, Partly, Enough, TrueSize, Positive;
    var now := lists[order[k] := half];
    forall j | 0 <= j < i
      ensures Fits(now[order[j]], curr, order, j, i, upto)
    {
      if j == k {
        assert PlaceOk(lists, flags, curr, order, k, i);
        PartlyFits(lists, flags, curr, order, k, i, upto, a, half);
      } else {
        assert now[order[j]] == lists[order[j]];
        OkFits(lists, flags, curr, order, j, i, if j < k then upto else i, upto);
      }
    }
    FitsSize(now, curr, order, i, upto);
    TotalSwap(lists, order, k, i, half);
    TotalFrame(lists, lists, order, below, i);
  }

  /** The windows below place `i` leave room for one rectangle more. */
  lemma BelowSize(lists: seq<seq<Orect>>, flags: seq<bool>, curr: seq<Rect>, order: seq<nat>, i: nat, upto: nat)
    requires |lists| == |flags| == |curr| && i < |order| && upto == i + 1
    requires forall j :: 0 <= j < |order| ==> order[j] < |curr|
    requires forall j :: 0 <= j < i ==> PlaceOk(lists, flags, curr, order, j, upto)
    ensures Total(lists, order, i) < Enough(upto)
  {
    hide PlaceOk, Above, Total, Fits, Enough;
    forall j | 0 <= j < i
      ensures Fits(lists[order[j]], curr, order, j, i, upto)
    {
      OkFits(lists, flags, curr, order, j, i, upto, upto);
    }
    FitsSize(lists, curr, order, i, upto);
  }

  class Windows {
    /** The free list of rectangle records. */
    var rul: seq<Orect>
    /** The rectangle list and the "broken" flag of each window. */
    var rlist: seq<seq<Orect>>
    var broken: seq<bool>

    /** Cut up rectangle `r`, which overlaps `a`. Fails, where the original would follow a null pointer,
        if the free list runs out. */
    method Break(a: Rect, r: Orect) returns (ok: bool, pieces: seq<Orect>, ghost sides: seq<Side>)
      modifies this`rul
      ensures !ok ==> rul == [] && |old(rul)| < 4
      ensures ok ==> Split(a, r.gr, pieces, sides) && Ids(pieces) + Ids(rul) == Ids([r]) + old(Ids(rul))
      ensures ok ==> |pieces| <= 4 && |pieces| + |rul| == 1 + |old(rul)|
    {
      hide Ids, Piece, HavePiece;
      pieces, sides := [], [];
      var order := [Top, Left, Right, Bottom];
      NoIds();
      var i := 0;
      while i < 4
        invariant 0 <= i <= 4 && |pieces| == |sides| <= i && |rul| == |old(rul)| - |pieces|
        invariant forall j :: 0 <= j < |sides| ==> HavePiece(sides[j], a, r.gr) && pieces[j].gr == Piece(sides[j], a, r.gr)
        invariant forall j, k :: 0 <= j < k < |sides| ==> sides[j] != sides[k]
        invariant forall s :: s in order[..i] && HavePiece(s, a, r.gr) ==> s in sides
        invariant forall s :: s in sides ==> s in order[..i]
        invariant Ids(pieces) + Ids(rul) == old(Ids(rul))
      {
        if HavePiece(order[i], a, r.gr) {
          if rul == [] {
            return false, [], [];
          }
          var rl := rul[0];
          TakeIds(pieces, rul, Piece(order[i], a, r.gr));
          rul := rul[1..];
          pieces := pieces + [Orect(rl.id, Piece(order[i], a, r.gr))];
          sides := sides + [order[i]];
        }
        i := i + 1;
      }
      AllSides(order);
      IdsConcat([r], rul);
      rul := [r] + rul;
      ok := true;
    }

    /** Take rectangle `a` out of the list of window `wh`, which has rectangle `own` and those of `above` over it. */
    method MkRect(a: Rect, wh: nat, ghost own: Rect, ghost above: seq<Rect>) returns (ok: bool, ghost half: seq<Orect>)
      requires wh < |rlist| == |broken| && Positive(a) && Clear(rlist[wh]) && Edged(rlist[wh], own, above)
      modifies this
      ensures |rlist| == |old(rlist)| && (!ok ==> rul == [])
      ensures !ok ==> Partly(old(rlist)[wh], a, half, own, above) && |old(rlist)[wh]| + |old(rul)| <= |half| + 3
      ensures ok ==> Edged(rlist[wh], own, above + [a]) && |rlist[wh]| + |rul| == |old(rlist)[wh]| + |old(rul)|
      ensures ok ==> Cut(old(rlist)[wh], a, rlist[wh]) && rlist == old(rlist)[wh := rlist[wh]]
      ensures ok ==> broken == old(broken)[wh := old(broken)[wh] || exists i :: 0 <= i < |old(rlist)[wh]| && Overlap(a, old(rlist)[wh][i].gr)]
      ensures ok ==> Ids(rlist[wh]) + Ids(rul) == old(Ids(rlist[wh]) + Ids(rul))
    {
      hide Ids, Overlap, Cut, Clear, Split, Positive, Edged, Partly, HalfCut;
      ghost var all := rlist[wh];
      var done, rest := [], rlist[wh];
      ghost var j := 0;
      var hit := false;
      HalfCutStart(all, a, own, above);
      assert [] + all == all;
      while rest != []
        invariant j <= |all| && rest == all[j..] && HalfCut(all, j, a, done, own, above)
        invariant rlist == old(rlist) && broken == old(broken)
        invariant Ids(done + rest) + Ids(rul) == Ids(all) + old(Ids(rul))
        invariant hit <==> exists i :: 0 <= i < j && Overlap(a, all[i].gr)
        invariant |done| + |rest| + |rul| == |all| + |old(rul)|
        decreases |rest|
      {
        var r := rest[0];
        if Overlap(a, r.gr) {
          var pieces; ghost var sides;
          var b;
          ghost var free := Ids(rul);
          b, pieces, sides := Break(a, r);
          if !b {
            HalfCutPartly(all, j, a, done, own, above);
            return false, done + rest;
          }
          HitNext(all, j, j + 1, a, done, pieces, sides, own, above);
          SwapIds(done, r, pieces, rest);
          Exchange(Ids(done + pieces + rest[1..]), Ids([r]), Ids(done + rest), Ids(pieces), Ids(rul), free, Ids(all) + old(Ids(rul)));
          done := done + pieces;
          hit := true;
        } else {
          MissNext(all, j, j + 1, a, done, own, above);
          assert done + rest == done + [r] + rest[1..];
          done := done + [r];
        }
        rest, j := rest[1..], j + 1;
      }
      HalfCutEnd(all, a, done, own, above);
      assert done + [] == done;
      rlist := rlist[wh := done];
      if hit {
        broken := broken[wh := true];
      }
      ok, half := true, [];
    }

    ghost predicate InRange(curr: seq<Rect>, order: seq<nat>)
      reads this
    {
      && |rlist| == |broken| == |curr| && NoDups(order)
      && (forall k :: 0 <= k < |order| ==> order[k] < |curr|)
      && (forall w :: 0 <= w < |curr| ==> curr[w].w >= 0 && curr[w].h >= 0)
    }

    /** Every rectangle record there is. */
    ghost function Pool(): (s: multiset<nat>)
      reads this
    {
      AllIds(rlist) + Ids(rul)
    }

    /** Break the rectangles of the windows before place `i` by the rectangle of the window there. */
    method BreakBelow(a: Rect, below: seq<nat>, ghost curr: seq<Rect>, ghost order: seq<nat>, ghost i: nat, ghost upto: nat) returns (ok: bool)
      requires InRange(curr, order) && i < |order| && upto == i + 1 && below == order[..i]
      requires Positive(a) && a == TrueSize(curr[order[i]])
      requires forall j :: 0 <= j < i ==> PlaceOk(rlist, broken, curr, order, j, i)
      modifies this
      ensures !ok ==> rul == [] && |old(rul)| + Total(old(rlist), below, |below|) < Enough(upto)
      ensures ok ==> InRange(curr, order) && Pool() == old(Pool())
      ensures ok ==> |rul| + Total(rlist, below, |below|) == |old(rul)| + Total(old(rlist), below, |below|)
      ensures ok ==> forall j :: 0 <= j < i ==> PlaceOk(rlist, broken, curr, order, j, upto)
      ensures ok ==> forall w :: 0 <= w < |curr| && w !in below ==> rlist[w] == old(rlist)[w] && broken[w] == old(broken)[w]
    {
      hide Ids, AllIds, WinOk, TrueSize, Cut, Total, Edged, Partly, Enough;
      assert NoDups(below);
      var k: nat := 0;
      while k < |below|
        invariant 0 <= k <= |below| && InRange(curr, order) && Pool() == old(Pool())
        invariant |rul| + Total(rlist, below, |below|) == |old(rul)| + Total(old(rlist), below, |below|)
        invariant forall j :: 0 <= j < k ==> PlaceOk(rlist, broken, curr, order, j, upto)
        invariant forall j :: k <= j < i ==> PlaceOk(rlist, broken, curr, order, j, i)
        invariant forall w :: 0 <= w < |curr| && w !in below ==> rlist[w] == old(rlist)[w] && broken[w] == old(broken)[w]
      {
        var w := below[k];
        assert w == order[k];
        ghost var lists, flags, free := rlist, broken, rul;
        assert PlaceOk(rlist, broken, curr, order, k, i);
        WinIsClear(rlist[w], broken[w], TrueSize(curr[w]), Above(curr, order, k, i));
        var b; ghost var half;
        b, half := MkRect(a, w, TrueSize(curr[w]), Above(curr, order, k, i));
        if !b {
          NoRoom(lists, flags, curr, order, below, i, upto, k, |free|, a, half);
          return false;
        }
        TotalSwap(lists, below, k, |below|, rlist[w]);
        PlacesStep(lists, flags, rlist, broken, curr, order, i, upto, k, k + 1, a);
        AllIdsUpdate(lists, w, rlist[w]);
        KeepsPool(AllIds(rlist), Ids(lists[w]), AllIds(lists), Ids(rlist[w]), Ids(rul), Ids(free));
        k := k + 1;
      }
      ok := true;
    }

    /** Put the list of a window back on the free list. */
    method Dump(wh: nat)
      requires wh < |rlist| == |broken|
      modifies this
      ensures rlist == old(rlist)[wh := []] && broken == old(broken)[wh := false] && Pool() == old(Pool())
      ensures |rul| == |old(rul)| + |old(rlist)[wh]|
    {
      hide Ids, AllIds;
      IdsConcat(rlist[wh], rul);
      AllIdsUpdate(rlist, wh, []);
      NoIds();
      KeepsPool(AllIds(rlist[wh := []]), Ids(rlist[wh]), AllIds(rlist), Ids([]), Ids(rlist[wh] + rul), Ids(rul));
      rul := rlist[wh] + rul;
      rlist := rlist[wh := []];
      broken := broken[wh := false];
    }

    /** Rebuild the list of the window in place `i` of the tree walk and break those of the windows before it. */
    method NewRect(tree: seq<AesTree.Object>, curr: seq<Rect>, wh: nat, ghost f: AesTree.Forest, ghost order: seq<nat>, ghost i: nat, ghost upto: nat)
      returns (ok: bool)
      requires IsOrder(tree, f, order) && InRange(curr, order) && i < |order| && upto == i + 1 && order[i] == wh
      requires forall j :: 0 <= j < i ==> PlaceOk(rlist, broken, curr, order, j, i)
      modifies this
      ensures !ok ==> rul == [] && |old(rul)| + Total(old(rlist), order, i) < Enough(upto)
      ensures ok ==> InRange(curr, order) && Pool() == old(Pool())
      ensures ok ==> |rul| + Total(rlist, order, upto) >= |old(rul)| + Total(old(rlist), order, i)
      ensures ok ==> forall j :: 0 <= j < upto ==> PlaceOk(rlist, broken, curr, order, j, upto)
    {
      hide Ids, AllIds, WinOk, TrueSize, Total, Enough, AesTree.Preorder, AesTree.Before, AesTree.Linked, AesTree.Distinct;
      ghost var lists, flags := rlist, broken;
      Dump(wh);
      OthersOk(lists, flags, rlist, broken, curr, order, i, i);
      TotalWith(lists, order, i, [], upto);
      var t := TrueSize(curr[wh]);
      TrueSizePositive(curr[wh]);
      if t.w == 0 || t.h == 0 {
        lists, flags := rlist, broken;
        forall j | 0 <= j < i
          ensures PlaceOk(rlist, broken, curr, order, j, upto)
        {
          assert PlaceOk(rlist, broken, curr, order, j, i);
          assert Above(curr, order, j, upto) == Above(curr, order, j, i);
        }
        NoTiles(t);
        assert PlaceOk(rlist, broken, curr, order, i, upto);
        return true;
      }
      var calls := AesTree.EveryObj(tree, AesTree.ROOT, wh, 0, 0, AesTree.MAX_DEPTH, f, AesTree.NIL);
      StopAt(tree, f, order, i, calls);
      ghost var below := order[..i];
      TotalFrame(rlist, rlist, order, below, i);
      ok := BreakBelow(t, AesTree.Objects(calls), curr, order, i, upto);
      if !ok {
        return;
      }
      TotalFrame(rlist, rlist, order, below, i);
      if rul == [] {
        BelowSize(rlist, broken, curr, order, i, upto);
        return false;
      }
      assert wh !in order[..i] && rlist[wh] == [];
      lists, flags := rlist, broken;
      OwnRect(lists, rul, wh, t);
      var rl := Orect(rul[0].id, t);
      rul := rul[1..];
      TotalWith(lists, order, i, [rl], upto);
      rlist := rlist[wh := [rl]];
      OthersOk(lists, flags, rlist, broken, curr, order, i, upto);
      OneTile(rl);
      assert PlaceOk(rlist, broken, curr, order, i, upto);
    }

    /** Rebuild the lists of all windows in the tree. */
    method Refresh(tree: seq<AesTree.Object>, curr: seq<Rect>, ghost f: AesTree.Forest, ghost order: seq<nat>) returns (ok: bool)
      requires IsOrder(tree, f, order) && InRange(curr, order)
      modifies this
      ensures !ok ==> rul == [] && |old(rul)| < Enough(|order|)
      ensures ok ==> InRange(curr, order) && Pool() == old(Pool())
      ensures ok ==> forall j :: 0 <= j < |order| ==> PlaceOk(rlist, broken, curr, order, j, |order|)
    {
      hide Ids, AllIds, WinOk, TrueSize, Total, Enough, AesTree.Preorder, AesTree.Before, AesTree.Linked, AesTree.Distinct;
      var calls := AesTree.EveryObj(tree, AesTree.ROOT, AesTree.NIL, 0, 0, AesTree.MAX_DEPTH, f, AesTree.NIL);
      StopNowhere(tree, f, order, calls);
      TotalNone(rlist, order);
      var i: nat := 0;
      while i < |calls|
        invariant i <= |order| && (forall j :: 0 <= j < |order| ==> order[j] < |rlist|)
        invariant |rul| + Total(rlist, order, i) >= |old(rul)|
        invariant 0 <= i <= |calls| == |order| && InRange(curr, order) && Pool() == old(Pool())
        invariant forall j :: 0 <= j < i ==> PlaceOk(rlist, broken, curr, order, j, i)
      {
        ok := NewRect(tree, curr, calls[i].obj, f, order, i, i + 1);
        EnoughGrows(i + 1, |order|);
        if !ok {
          return;
        }
        i := i + 1;
      }
      ok := true;
    }
  }

  /** The order in which the walk over the window tree comes to the windows: from the bottom up. */
  ghost predicate IsOrder(tree: seq<AesTree.Object>, f: AesTree.Forest, order: seq<nat>) {
    && f.Node? && f.id == AesTree.ROOT && f.next.Empty? && AesTree.Linked(tree, f, AesTree.NIL) && AesTree.Distinct(f)
    && AesTree.Within(f, |tree|)
    && order == AesTree.Objects(AesTree.Preorder(tree, f, 1, AesTree.MAX_DEPTH, 0, 0))
  }

  lemma StopAt(tree: seq<AesTree.Object>, f: AesTree.Forest, order: seq<nat>, i: nat, calls: seq<AesTree.Call>)
    requires IsOrder(tree, f, order) && i < |order|
    requires calls == AesTree.Before(AesTree.Preorder(tree, f, 1, AesTree.MAX_DEPTH, 0, 0), order[i])
    ensures AesTree.Objects(calls) == order[..i]
  {
    AesTree.PreorderDistinct(tree, f, 1, AesTree.MAX_DEPTH, 0, 0);
    AesTree.BeforeIndex(AesTree.Preorder(tree, f, 1, AesTree.MAX_DEPTH, 0, 0), i);
  }

  lemma StopNowhere(tree: seq<AesTree.Object>, f: AesTree.Forest, order: seq<nat>, calls: seq<AesTree.Call>)
    requires IsOrder(tree, f, order)
    requires calls == AesTree.Before(AesTree.Preorder(tree, f, 1, AesTree.MAX_DEPTH, 0, 0), AesTree.NIL)
    ensures |calls| == |order| && forall i :: 0 <= i < |calls| ==> calls[i].obj == order[i]
  {
    AesTree.BeforeNil(AesTree.Preorder(tree, f, 1, AesTree.MAX_DEPTH, 0, 0));
  }

  /** A window whose list and flag have not changed is as much in order as it was. */
  lemma OthersOk(lists: seq<seq<Orect>>, flags: seq<bool>, rlist: seq<seq<Orect>>, broken: seq<bool>,
                 curr: seq<Rect>, order: seq<nat>, i: nat, upto: nat)
    requires |lists| == |flags| == |rlist| == |broken| == |curr| && i < |order| && upto <= |order| && NoDups(order)
    requires forall k :: 0 <= k < |order| ==> order[k] < |curr|
    requires forall w :: 0 <= w < |curr| && w != order[i] ==> rlist[w] == lists[w] && broken[w] == flags[w]
    requires forall j :: 0 <= j < i ==> PlaceOk(lists, flags, curr, order, j, upto)
    ensures forall j :: 0 <= j < i ==> PlaceOk(rlist, broken, curr, order, j, upto)
  {
    forall j | 0 <= j < i
      ensures PlaceOk(rlist, broken, curr, order, j, upto)
    {
      assert PlaceOk(lists, flags, curr, order, j, upto);
    }
  }

  lemma TrueSizePositive(r: Rect)
    requires r.w >= 0 && r.h >= 0
    ensures Positive(TrueSize(r)) <==> !(TrueSize(r).w == 0 || TrueSize(r).h == 0)
  {
  }

  lemma NoTiles(t: Rect)
    requires !Positive(t)
    ensures WinOk([], false, t, [])
  {
  }

  lemma OneTile(r: Orect)
    requires Positive(r.gr)
    ensures WinOk([r], false, r.gr, [])
  {
    var l := [r];
    assert forall px, py :: In(px, py, r.gr) ==> In(px, py, l[0].gr);
  }

  lemma OwnRect(lists: seq<seq<Orect>>, rul: seq<Orect>, wh: nat, t: Rect)
    requires wh < |lists| && lists[wh] == [] && rul != []
    ensures AllIds(lists[wh := [Orect(rul[0].id, t)]]) + Ids(rul[1..]) == AllIds(lists) + Ids(rul)
  {
    hide Ids, AllIds;
    var l := [Orect(rul[0].id, t)];
    AllIdsUpdate(lists, wh, l);
    NoIds();
    TakeIds([], rul, t);
    assert [] + l == l;
    KeepsPool(AllIds(lists[wh := l]), Ids([]), AllIds(lists), Ids(l), Ids(rul[1..]), Ids(rul));
  }

  lemma WinIsClear(list: seq<Orect>, flag: bool, own: Rect, above: seq<Rect>)
    requires WinOk(list, flag, own, above)
    ensures Clear(list) && Edged(list, own, above)
  {
  }

  lemma KeepsPool(all': multiset<nat>, l: multiset<nat>, all: multiset<nat>, l': multiset<nat>, free': multiset<nat>, free: multiset<nat>)
    requires all' + l == all + l' && l' + free' == l + free
    ensures all' + free' == all + free
  {
    forall y: nat
      ensures (all' + free')[y] == (all + free)[y]
    {
      assert (all' + l)[y] == (all + l')[y] && (l' + free')[y] == (l + free)[y];
    }
  }

  lemma CutNothing(a: Rect)
    ensures Cut([], a, [])
  {
  }

  /** A rectangle replaced by its pieces. */
  lemma SwapIds(done: seq<Orect>, r: Orect, pieces: seq<Orect>, rest: seq<Orect>)
    requires rest != [] && rest[0] == r
    ensures Ids(done + pieces + rest[1..]) + Ids([r]) == Ids(done + rest) + Ids(pieces)
  {
    IdsConcat(done + pieces, rest[1..]);
    IdsConcat(done, pieces);
    IdsConcat(done, rest);
    assert rest == [r] + rest[1..];
    IdsConcat([r], rest[1..]);
  }

  lemma NoIds()
    ensures Ids([]) == multiset{}
  {
  }

  lemma AllSides(order: seq<Side>)
    requires order == [Top, Left, Right, Bottom]
    ensures order[..4] == order && forall s :: s in order
  {
    assert order[0] == Top && order[1] == Left && order[2] == Right && order[3] == Bottom;
    forall s: Side
      ensures s in order
    {
      match s case Top => case Left => case Right => case Bottom =>
    }
  }

  lemma TakeIds(pieces: seq<Orect>, rul: seq<Orect>, gr: Rect)
    requires rul != []
    ensures Ids(pieces + [Orect(rul[0].id, gr)]) + Ids(rul[1..]) == Ids(pieces) + Ids(rul)
  {
    assert rul == [rul[0]] + rul[1..];
    IdsConcat([rul[0]], rul[1..]);
    IdsConcat(pieces, [Orect(rul[0].id, gr)]);
    IdsOne(rul[0]);
    IdsOne(Orect(rul[0].id, gr));
  }
}
