/** Drive geometry as set up when a drive is logged in, and the addresses of its records.

  Sizes of records and clusters are powers of two, so the shifts and masks of the C code on
  non-negative operands are written here as `/` and `%`.
 */
module FsMedia {
  import opened Basics

  /** BT_FAT, BT_ROOT, BT_DATA. */
  datatype BufType = Fat | Root | Data

  /** A physical record of a drive. */
  datatype Addr = Addr(drv: nat, rec: nat)

  /** The drive media descriptor. `rootlen` is the length of the root directory in records. */
  datatype Dmd = Dmd(drvnum: nat, fatrec: nat, rootrec: nat, datarec: nat, fsiz: nat, rootlen: nat,
                     clsiz: nat, recsiz: nat, numcl: nat, is16: bool, oneFat: bool)
  {
    /** m_recoff[]. */
    function RecOff(t: BufType): (off: nat) {
      match t case Fat => fatrec case Root => rootrec case Data => datarec
    }

    function RegionLen(t: BufType): (len: nat) {
      match t case Fat => fsiz case Root => rootlen case Data => numcl * clsiz
    }

    /** Cluster size in bytes. */
    function ClBytes(): (n: nat) { clsiz * recsiz }

    /** What logging in a drive establishes: the three regions follow one another, the other copy of
        the FAT lies directly below the FAT in use, and the FAT is long enough for every cluster. */
    ghost predicate Valid() {
      && recsiz >= 2 && recsiz % 2 == 0 && clsiz >= 1 && ClBytes() < 0x8000
      && fatrec + fsiz <= rootrec && rootrec + rootlen <= datarec
      && (!oneFat ==> fsiz <= fatrec)
      && numcl + 1 <= (if is16 then 0xfff7 else 0xff7)
      && (if is16 then 2 * (numcl + 2) else numcl + 1 + (numcl + 1) / 2 + 2) <= fsiz * recsiz
    }

    ghost predicate InRegion(t: BufType, rec: nat) { rec < RegionLen(t) }

    /** The physical record lies in one of the three regions that go through the buffers. */
    ghost predicate Holds(rec: nat) {
      || fatrec <= rec < fatrec + fsiz
      || rootrec <= rec < rootrec + rootlen
      || datarec <= rec < datarec + numcl * clsiz
    }

    function At(t: BufType, rec: nat): (a: Addr) { Addr(drvnum, RecOff(t) + rec) }

    /** The record of the other FAT copy that mirrors FAT record `rec`. */
    function MirrorAt(rec: nat): (a: Addr)
      requires Valid() && !oneFat
    {
      Addr(drvnum, fatrec - fsiz + rec)
    }
  }

  /** Records of different types, or different records of one type, never share a sector. */
  lemma AtInjective(dm: Dmd, t: BufType, r: nat, u: BufType, s: nat)
    requires dm.Valid() && dm.InRegion(t, r) && dm.InRegion(u, s)
    ensures dm.Holds(dm.At(t, r).rec)
    ensures dm.At(t, r) == dm.At(u, s) ==> t == u && r == s
  {
  }

  lemma MulGap(n: nat, a: int, b: int)
    requires a < b
    ensures a * n + n <= b * n
  {
    assert (b - a - 1) * n >= 0;
    assert b * n == (b - a - 1) * n + (a + 1) * n;
  }

  /** Quotient and remainder are determined by the division equation. */
  lemma DivModUnique(n: nat, q: int, r: nat, x: int)
    requires n > 0 && r < n && x == q * n + r
    ensures x / n == q && x % n == r
  {
    var p, s := x / n, x % n;
    assert x == p * n + s;
    if p < q { MulGap(n, p, q); }
    if q < p { MulGap(n, q, p); }
  }

  /** `x >> log n` and `x & (n - 1)` for a power of two `n`. */
  function Quot(x: nat, n: nat): (q: nat)
    requires n > 0
  {
    x / n
  }

  function Rem(x: nat, n: nat): (r: nat)
    requires n > 0
    ensures r < n
  {
    x % n
  }

  /** `s` with `bytes` written over it from `off` on. */
  function Splice<T>(s: seq<T>, off: nat, bytes: seq<T>): (r: seq<T>)
    requires off + |bytes| <= |s|
    ensures |r| == |s|
    ensures forall i :: 0 <= i < |s| ==> r[i] == if off <= i < off + |bytes| then bytes[i - off] else s[i]
  {
    s[..off] + bytes + s[off + |bytes|..]
  }
}
