/** A file as the sequence of bytes of its clusters, and how transfers change it. */
module FsFile {
  import opened Basics
  import opened FsMedia
  import opened FsCache
  import opened FsFat
  import opened FsChain

  /** `img` is a data region of clusters of `cb` bytes, and `ch` a list of clusters in it. */
  ghost predicate Fits(img: seq<Byte>, cb: nat, ch: seq<nat>) {
    cb > 0 && forall i :: 0 <= i < |ch| ==> 2 <= ch[i] && (ch[i] - 2) * cb + cb <= |img|
  }

  /** Where byte `j` of the file with clusters `ch` is in the data region. */
  ghost function PlaceIn(cb: nat, ch: seq<nat>, j: nat): (i: int)
    requires cb > 0 && j < |ch| * cb
  {
    RecordOf(|ch|, cb, j);
    (ch[j / cb] - 2) * cb + j % cb
  }

  lemma PlaceInBounds(img: seq<Byte>, cb: nat, ch: seq<nat>, j: nat)
    requires Fits(img, cb, ch) && j < |ch| * cb
    ensures 0 <= PlaceIn(cb, ch, j) < |img|
  {
    RecordOf(|ch|, cb, j);
    assert (ch[j / cb] - 2) * cb >= 0;
  }

  ghost function FileByte(img: seq<Byte>, cb: nat, ch: seq<nat>, j: nat): (b: Byte)
    requires Fits(img, cb, ch) && j < |ch| * cb
  {
    PlaceInBounds(img, cb, ch, j);
    img[PlaceIn(cb, ch, j)]
  }

  /** The bytes of the clusters of a file. */
  ghost function FileBytes(img: seq<Byte>, cb: nat, ch: seq<nat>): (s: seq<Byte>)
    requires Fits(img, cb, ch)
    ensures |s| == |ch| * cb
  {
    seq(|ch| * cb, j requires 0 <= j < |ch| * cb => FileByte(img, cb, ch, j))
  }

  /** Clusters `k`, `k + 1`, ..., `k + n - 1` of the chain lie next to each other. */
  ghost predicate Contiguous(ch: seq<nat>, k: nat, n: nat) {
    k + n <= |ch| && forall i :: k <= i < k + n ==> ch[i] == ch[k] + (i - k)
  }

  /** A run of contiguous clusters is a piece of the data region. */
  lemma RunPlace(cb: nat, ch: seq<nat>, k: nat, n: nat, x: nat)
    requires cb > 0 && Contiguous(ch, k, n) && x < n * cb
    ensures k * cb + x < |ch| * cb
    ensures PlaceIn(cb, ch, k * cb + x) == (ch[k] - 2) * cb + x
  {
    RecordOf(n, cb, x);
    var q, r := x / cb, x % cb;
    var j := k * cb + x;
    assert j == (k + q) * cb + r;
    DivModUnique(cb, k + q, r, j);
    MulGap(cb, k + q, |ch|);
    assert (ch[k] + q - 2) * cb == (ch[k] - 2) * cb + q * cb;
  }

  lemma Between(cb: nat, a: int, q: int, n: nat, r: nat)
    requires r < cb && a * cb <= q * cb + r < a * cb + n * cb
    ensures a <= q < a + n
  {
    if q < a { MulGap(cb, q, a); }
    assert a * cb + n * cb == (a + n) * cb;
    if q > a + n { MulGap(cb, a + n, q); }
  }

  /** Only the bytes of the run lie in that piece. */
  lemma RunOnly(cb: nat, ch: seq<nat>, k: nat, n: nat, j: nat)
    requires cb > 0 && NoDups(ch) && Contiguous(ch, k, n) && j < |ch| * cb
    requires n > 0 && (ch[k] - 2) * cb <= PlaceIn(cb, ch, j) < (ch[k] - 2) * cb + n * cb
    ensures k * cb <= j < k * cb + n * cb
    ensures PlaceIn(cb, ch, j) == (ch[k] - 2) * cb + (j - k * cb)
  {
    RecordOf(|ch|, cb, j);
    var q, r := j / cb, j % cb;
    var a: int, b: int := ch[k] as int - 2, ch[q] as int - 2;
    Between(cb, a, b, n, r);
    assert ch[k] <= ch[q] < ch[k] + n;
    var i: nat := ch[q] - ch[k];
    assert ch[k + i] == ch[q] && q == k + i;
    RunMember(cb, ch[k], k, i, n, r);
  }

  lemma RunMember(cb: nat, c: nat, k: nat, i: nat, n: nat, r: nat)
    requires i < n && r < cb
    ensures k * cb <= (k + i) * cb + r < k * cb + n * cb
    ensures (c + i - 2) * cb + r == (c - 2) * cb + ((k + i) * cb + r - k * cb)
  {
    MulGap(cb, i, n);
    assert (k + i) * cb == k * cb + i * cb;
    assert (c + i - 2) * cb == (c - 2) * cb + i * cb;
  }

  /** Bytes `[k * cb + x, k * cb + x + len)` of a file whose clusters from `k` on are a run of `n`. */
  ghost predicate InRun(cb: nat, ch: seq<nat>, k: nat, n: nat, x: nat, len: nat) {
    cb > 0 && n > 0 && Contiguous(ch, k, n) && x + len <= n * cb
  }

  lemma RunBounds(img: seq<Byte>, cb: nat, ch: seq<nat>, k: nat, n: nat, x: nat, len: nat)
    requires Fits(img, cb, ch) && InRun(cb, ch, k, n, x, len)
    ensures 0 <= (ch[k] - 2) * cb + x && (ch[k] - 2) * cb + x + len <= |img|
    ensures k * cb + x + len <= |ch| * cb
  {
    var last := ch[k + n - 1];
    assert last == ch[k] + n - 1;
    Sums(cb, ch[k] as int - 2, n);
    Sums(cb, k, n);
    if k + n < |ch| { MulGap(cb, k + n, |ch|); }
  }

  lemma Sums(cb: nat, a: nat, n: nat)
    requires n > 0
    ensures 0 <= a * cb && (a + n - 1) * cb + cb == a * cb + n * cb == (a + n) * cb
  {
  }

  /** Reading a piece of the data region reads the corresponding piece of the file. */
  lemma ReadRun(img: seq<Byte>, cb: nat, ch: seq<nat>, k: nat, n: nat, x: nat, len: nat, j: nat)
    requires Fits(img, cb, ch) && InRun(cb, ch, k, n, x, len)
    requires 0 <= (ch[k] - 2) * cb + x && (ch[k] - 2) * cb + x + len <= |img|
    requires k * cb + x <= j < k * cb + x + len <= |ch| * cb
    ensures FileByte(img, cb, ch, j) == img[(ch[k] - 2) * cb + x + (j - k * cb - x)]
  {
    RunPlace(cb, ch, k, n, j - k * cb);
  }

  /** Writing a piece of the data region writes the corresponding piece of the file and no other byte. */
  lemma WriteRun(img: seq<Byte>, cb: nat, ch: seq<nat>, k: nat, n: nat, x: nat, bytes: seq<Byte>, j: nat)
    requires Fits(img, cb, ch) && NoDups(ch) && InRun(cb, ch, k, n, x, |bytes|) && j < |ch| * cb
    requires 0 <= (ch[k] - 2) * cb + x && (ch[k] - 2) * cb + x + |bytes| <= |img|
    ensures var img' := Splice(img, (ch[k] - 2) * cb + x, bytes);
            && Fits(img', cb, ch)
            && FileByte(img', cb, ch, j) ==
               if k * cb + x <= j < k * cb + x + |bytes| then bytes[j - k * cb - x] else FileByte(img, cb, ch, j)
  {
    var at, base := PlaceIn(cb, ch, j), (ch[k] - 2) * cb;
    PlaceInBounds(img, cb, ch, j);
    if base <= at < base + n * cb {
      RunOnly(cb, ch, k, n, j);
    } else if k * cb + x <= j < k * cb + x + |bytes| {
      RunPlace(cb, ch, k, n, j - k * cb);
    }
  }

  /** Every byte of a run is in a cluster of the file. */
  lemma RunCovers(cb: nat, ch: seq<nat>, k: nat, n: nat, x: nat, len: nat, i: nat)
    requires InRun(cb, ch, k, n, x, len) && (ch[k] - 2) * cb + x <= i < (ch[k] - 2) * cb + x + len
    ensures i / cb + 2 in ch
  {
    Between(cb, ch[k] as int - 2, i / cb, n, i % cb);
    assert ch[k + (i / cb + 2 - ch[k])] == i / cb + 2;
  }

  // ---------- Progress of a transfer between a file and a buffer

  /** The first `n` bytes of buffer `s` have been exchanged with the file from byte `b0` on: written to
      it, or read from it. Nothing else has changed, neither in the file nor outside it. */
  ghost predicate BytesMoved(wrt: bool, img0: seq<Byte>, img: seq<Byte>, cb: nat, ch: seq<nat>,
                             s0: seq<Byte>, s: seq<Byte>, b0: nat, n: nat)
  {
    && Fits(img0, cb, ch) && |img| == |img0| && |s| == |s0| && n <= |s| && b0 + n <= |ch| * cb
    && (!wrt ==> img == img0) && (wrt ==> s == s0)
    && (forall i :: 0 <= i < |img| && i / cb + 2 !in ch ==> img[i] == img0[i])
    && (forall j :: 0 <= j < |ch| * cb ==>
          FileByte(img, cb, ch, j) == if wrt && b0 <= j < b0 + n then s0[j - b0] else FileByte(img0, cb, ch, j))
    && (forall i :: 0 <= i < |s| ==> s[i] == if !wrt && i < n then FileByte(img0, cb, ch, b0 + i) else s0[i])
  }

  lemma NothingMoved(wrt: bool, img: seq<Byte>, cb: nat, ch: seq<nat>, s: seq<Byte>, b0: nat)
    requires Fits(img, cb, ch) && b0 <= |ch| * cb
    ensures BytesMoved(wrt, img, img, cb, ch, s, s, b0, 0)
  {
  }

  lemma WriteMoves(img0: seq<Byte>, img: seq<Byte>, cb: nat, ch: seq<nat>, s: seq<Byte>, b0: nat, n: nat,
                   k: nat, r: nat, x: nat, len: nat)
    requires BytesMoved(true, img0, img, cb, ch, s, s, b0, n) && NoDups(ch)
    requires InRun(cb, ch, k, r, x, len) && k * cb + x == b0 + n && n + len <= |s|
    requires 0 <= (ch[k] - 2) * cb + x && (ch[k] - 2) * cb + x + len <= |img|
    ensures BytesMoved(true, img0, Splice(img, (ch[k] - 2) * cb + x, s[n..n + len]), cb, ch, s, s, b0, n + len)
  {
    hide Splice;
    RunBounds(img, cb, ch, k, r, x, len);
    var bytes := s[n..n + len];
    var img' := Splice(img, (ch[k] - 2) * cb + x, bytes);
    forall j | 0 <= j < |ch| * cb
      ensures FileByte(img', cb, ch, j) == if b0 <= j < b0 + n + len then s[j - b0] else FileByte(img0, cb, ch, j)
    {
      WriteRun(img, cb, ch, k, r, x, bytes, j);
    }
    forall i | 0 <= i < |img| && i / cb + 2 !in ch
      ensures img'[i] == img0[i]
    {
      NotInRun(cb, ch, k, r, x, len, i);
    }
  }

  lemma NotInRun(cb: nat, ch: seq<nat>, k: nat, n: nat, x: nat, len: nat, i: nat)
    requires InRun(cb, ch, k, n, x, len) && i / cb + 2 !in ch
    ensures !((ch[k] - 2) * cb + x <= i < (ch[k] - 2) * cb + x + len)
  {
    if (ch[k] - 2) * cb + x <= i < (ch[k] - 2) * cb + x + len { RunCovers(cb, ch, k, n, x, len, i); }
  }

  lemma ReadMoves(img: seq<Byte>, cb: nat, ch: seq<nat>, s0: seq<Byte>, s: seq<Byte>, b0: nat, n: nat,
                  k: nat, r: nat, x: nat, len: nat)
    requires BytesMoved(false, img, img, cb, ch, s0, s, b0, n)
    requires InRun(cb, ch, k, r, x, len) && k * cb + x == b0 + n && n + len <= |s|
    requires 0 <= (ch[k] - 2) * cb + x && (ch[k] - 2) * cb + x + len <= |img|
    ensures var at := (ch[k] - 2) * cb + x;
            BytesMoved(false, img, img, cb, ch, s0, Splice(s, n, img[at..at + len]), b0, n + len)
  {
    RunBounds(img, cb, ch, k, r, x, len);
    var at := (ch[k] - 2) * cb + x;
    var s' := Splice(s, n, img[at..at + len]);
    forall i | 0 <= i < |s|
      ensures s'[i] == if i < n + len then FileByte(img, cb, ch, b0 + i) else s0[i]
    {
      if n <= i < n + len { ReadRun(img, cb, ch, k, r, x, len, b0 + i); }
    }
  }

  lemma SameFileByte(img: seq<Byte>, cb: nat, ch: seq<nat>, ch': seq<nat>, j: nat)
    requires Fits(img, cb, ch) && Fits(img, cb, ch') && ch <= ch' && j < |ch| * cb
    ensures j < |ch'| * cb && FileByte(img, cb, ch', j) == FileByte(img, cb, ch, j)
  {
    RecordOf(|ch|, cb, j);
    if |ch| < |ch'| { MulGap(cb, |ch|, |ch'|); }
  }

  /** A file that grows while it is being written has old contents in its new clusters. */
  lemma GrowMoved(img0: seq<Byte>, img: seq<Byte>, cb: nat, ch: seq<nat>, ch': seq<nat>, s: seq<Byte>, b0: nat, n: nat)
    requires BytesMoved(true, img0, img, cb, ch, s, s, b0, n) && Fits(img0, cb, ch') && ch <= ch' && NoDups(ch')
    ensures BytesMoved(true, img0, img, cb, ch', s, s, b0, n)
  {
    if |ch| < |ch'| { MulGap(cb, |ch|, |ch'|); }
    forall j | 0 <= j < |ch'| * cb
      ensures FileByte(img, cb, ch', j) == if b0 <= j < b0 + n then s[j - b0] else FileByte(img0, cb, ch', j)
    {
      if j < |ch| * cb {
        SameFileByte(img, cb, ch, ch', j);
        SameFileByte(img0, cb, ch, ch', j);
      } else {
        NewByte(cb, ch, ch', j);
        PlaceInBounds(img, cb, ch', j);
      }
    }
  }

  lemma NewByte(cb: nat, ch: seq<nat>, ch': seq<nat>, j: nat)
    requires cb > 0 && ch <= ch' && NoDups(ch') && |ch| * cb <= j < |ch'| * cb
    ensures PlaceIn(cb, ch', j) / cb + 2 !in ch
  {
    RecordOf(|ch'|, cb, j);
    var q := j / cb;
    if q < |ch| { MulGap(cb, q, |ch|); }
    DivModUnique(cb, ch'[q] as int - 2, j % cb, PlaceIn(cb, ch', j));
  }

  // ---------- Direct transfers in terms of the bytes of the data region

  lemma {:induction false} GatherImage(m: Medium, dm: Dmd, strt: nat, num: nat)
    requires HasRegion(m, dm, Data) && strt + num <= dm.RegionLen(Data) && HasRecords(m, dm, strt, num)
    ensures (strt + num) * dm.recsiz <= |Image(m, dm, Data)| && strt * dm.recsiz <= (strt + num) * dm.recsiz
    ensures Gather(m, dm, strt, num) == Image(m, dm, Data)[strt * dm.recsiz..(strt + num) * dm.recsiz]
  {
    hide Image, Gather, HasRecords;
    var n, img := dm.recsiz, Image(m, dm, Data);
    RunInside(m, dm, strt, num);
    if num == 0 {
      GatherNone(m, dm, strt);
      assert img[strt * n..strt * n] == [];
    } else {
      var r := strt + num - 1;
      GatherLast(m, dm, strt, num);
      GatherImage(m, dm, strt, num - 1);
      RecordImage(m, dm, r);
      Adjoin(img, strt * n, r * n, (r + 1) * n);
    }
  }

  lemma Adjoin(s: seq<Byte>, a: nat, b: nat, c: nat)
    requires a <= b <= c <= |s|
    ensures s[a..b] + s[b..c] == s[a..c]
  {
  }

  lemma RunInside(m: Medium, dm: Dmd, strt: nat, num: nat)
    requires HasRegion(m, dm, Data) && strt + num <= dm.RegionLen(Data)
    ensures 0 <= strt * dm.recsiz <= (strt + num) * dm.recsiz <= |Image(m, dm, Data)|
  {
    hide Image;
    var n := dm.recsiz;
    if strt + num < dm.RegionLen(Data) { MulGap(n, strt + num, dm.RegionLen(Data)); }
    if num > 0 { MulGap(n, strt, strt + num); }
  }

  lemma GatherNone(m: Medium, dm: Dmd, strt: nat)
    requires dm.recsiz > 0 && HasRecords(m, dm, strt, 0)
    ensures Gather(m, dm, strt, 0) == []
  {
  }

  lemma GatherLast(m: Medium, dm: Dmd, strt: nat, num: nat)
    requires num > 0 && dm.recsiz > 0 && HasRecords(m, dm, strt, num)
    ensures HasRecords(m, dm, strt, num - 1) && dm.At(Data, strt + num - 1) in m && |m[dm.At(Data, strt + num - 1)]| == dm.recsiz
    ensures Gather(m, dm, strt, num) == Gather(m, dm, strt, num - 1) + m[dm.At(Data, strt + num - 1)]
  {
  }

  lemma RecordImage(m: Medium, dm: Dmd, r: nat)
    requires HasRegion(m, dm, Data) && r < dm.RegionLen(Data) && dm.At(Data, r) in m && |m[dm.At(Data, r)]| == dm.recsiz
    ensures 0 <= r * dm.recsiz <= (r + 1) * dm.recsiz <= |Image(m, dm, Data)|
    ensures Image(m, dm, Data)[r * dm.recsiz..(r + 1) * dm.recsiz] == m[dm.At(Data, r)]
  {
    hide Image;
    var n, img := dm.recsiz, Image(m, dm, Data);
    SplitLast(r, 1, n);
    MulGap(n, r, r + 1);
    if r + 1 < dm.RegionLen(Data) { MulGap(n, r + 1, dm.RegionLen(Data)); }
    assert (r + 1) * n == r * n + n;
    forall i | 0 <= i < n
      ensures img[r * n + i] == m[dm.At(Data, r)][i]
    {
      ImageAt(m, dm, Data, r, i);
    }
  }

  lemma SplitLast(strt: nat, num: nat, n: nat)
    requires num > 0
    ensures strt * n >= 0 && (num - 1) * n >= 0 && num * n == (num - 1) * n + n
    ensures (strt + num - 1) * n == strt * n + (num - 1) * n
  {
  }

  lemma ScatterNone(m: Medium, dm: Dmd, strt: nat)
    requires HasRegion(m, dm, Data) && strt <= dm.RegionLen(Data)
    ensures 0 <= strt * dm.recsiz <= |Image(m, dm, Data)|
    ensures Splice(Image(m, dm, Data), strt * dm.recsiz, []) == Image(m, dm, Data)
  {
    if strt < dm.RegionLen(Data) { MulGap(dm.recsiz, strt, dm.RegionLen(Data)); }
  }

  lemma {:induction false} ScatterImage(m: Medium, dm: Dmd, strt: nat, num: nat, data: seq<Byte>, m': Medium)
    requires HasDrive(m, dm) && strt + num <= dm.RegionLen(Data) && |data| == num * dm.recsiz
    requires dm.recsiz > 0 && m' == m + Scatter(dm, strt, num, data)
    requires HasRegion(m, dm, Data)
    ensures HasDrive(m', dm) && SameOutside(m, m', dm, Data)
    ensures strt * dm.recsiz + |data| <= |Image(m, dm, Data)|
    ensures HasRegion(m', dm, Data) && Image(m', dm, Data) == Splice(Image(m, dm, Data), strt * dm.recsiz, data)
    decreases num
  {
    hide Image, HasDrive, Splice, HasRegion, Scatter;
    if num == 0 {
      ScatterZero(m, dm, strt, data);
      ScatterNone(m, dm, strt);
    } else {
      SplitLast(strt, num, dm.recsiz);
      var n := (num - 1) * dm.recsiz;
      var m1 := m + Scatter(dm, strt, num - 1, data[..n]);
      ScatterImage(m, dm, strt, num - 1, data[..n], m1);
      ScatterLast(m, dm, strt, num, data, n);
      AppendRecord(m, m1, dm, strt * dm.recsiz, data[..n], strt + num - 1, data[n..], m');
      assert data == data[..n] + data[n..];
    }
  }

  lemma ScatterZero(m: Medium, dm: Dmd, strt: nat, data: seq<Byte>)
    requires |data| == 0 * dm.recsiz && dm.recsiz > 0
    ensures m + Scatter(dm, strt, 0, data) == m && data == []
  {
  }

  lemma ScatterLast(m: Medium, dm: Dmd, strt: nat, num: nat, data: seq<Byte>, n: nat)
    requires num > 0 && |data| == num * dm.recsiz && n == (num - 1) * dm.recsiz && dm.recsiz > 0 && n + dm.recsiz == |data|
    ensures m + Scatter(dm, strt, num, data) == (m + Scatter(dm, strt, num - 1, data[..n]))[dm.At(Data, strt + num - 1) := data[n..]]
  {
  }

  /** One more record written after a piece of the region. */
  lemma AppendRecord(m: Medium, m1: Medium, dm: Dmd, off: nat, a: seq<Byte>, r: nat, b: seq<Byte>, m': Medium)
    requires HasDrive(m1, dm) && SameOutside(m, m1, dm, Data) && dm.InRegion(Data, r) && |b| == dm.recsiz
    requires HasRegion(m, dm, Data) && HasRegion(m1, dm, Data)
    requires off + |a| <= |Image(m, dm, Data)| && Image(m1, dm, Data) == Splice(Image(m, dm, Data), off, a)
    requires r * dm.recsiz == off + |a| && m' == m1[dm.At(Data, r) := b]
    ensures HasDrive(m', dm) && SameOutside(m, m', dm, Data) && HasRegion(m', dm, Data)
    ensures off + |a + b| <= |Image(m, dm, Data)|
    ensures Image(m', dm, Data) == Splice(Image(m, dm, Data), off, a + b)
  {
    hide Image, Splice;
    assert Splice(m1[dm.At(Data, r)], 0, b) == b;
    PokeImage(m1, dm, Data, r, 0, b, m');
    SameOutsideTrans(m, m1, m', dm, Data);
    SpliceAppend(Image(m, dm, Data), off, a, b);
  }

  lemma SpliceAppend(s: seq<Byte>, off: nat, a: seq<Byte>, b: seq<Byte>)
    requires off + |a| + |b| <= |s|
    ensures Splice(Splice(s, off, a), off + |a|, b) == Splice(s, off, a + b)
  {
  }
}
