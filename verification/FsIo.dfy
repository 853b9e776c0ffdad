/** Reading, writing and seeking: xrw and its parts, ixlseek, ixread and ixwrite. */
module FsIo {
  import opened Basics
  import opened FsMedia
  import opened FsCache
  import opened FsFat
  import opened FsChain
  import opened FsFile

  lemma MulAssoc(a: nat, b: nat, c: nat)
    ensures a * b * c == a * (b * c)
  {
  }

  lemma ClBytesPositive(dm: Dmd)
    requires dm.Valid()
    ensures dm.ClBytes() > 0
  {
    MulGap(dm.recsiz, 0, dm.clsiz);
  }

  /** The data region of a drive holds the clusters of every chain. */
  lemma ChainFits(m: Medium, dm: Dmd, start: Link, ch: seq<nat>)
    requires HasDrive(m, dm) && IsChain(Table(m, dm), start, ch)
    ensures HasRegion(m, dm, Data) && Fits(Image(m, dm, Data), dm.ClBytes(), ch)
  {
    hide Image, Table;
    assert HasRegion(m, dm, Data);
    var cb := dm.ClBytes();
    MulAssoc(dm.numcl, dm.clsiz, dm.recsiz);
    ClBytesPositive(dm);
    forall i | 0 <= i < |ch|
      ensures (ch[i] - 2) * cb + cb <= dm.numcl * cb
    {
      MulGap(cb, ch[i] as int - 2, dm.numcl);
    }
  }

  lemma FitsByLength(img: seq<Byte>, img': seq<Byte>, cb: nat, ch: seq<nat>)
    requires Fits(img, cb, ch) && |img| == |img'|
    ensures Fits(img', cb, ch)
  {
  }

  /** Outside the FAT and the data region of drive `dm` nothing has changed. */
  ghost predicate OnlyFiles(m: Medium, m': Medium, dm: Dmd) {
    && m.Keys == m'.Keys
    && forall a :: a in m
         && !(a.drv == dm.drvnum && dm.fatrec <= a.rec < dm.fatrec + dm.fsiz)
         && !(a.drv == dm.drvnum && dm.datarec <= a.rec < dm.datarec + dm.RegionLen(Data))
         ==> m'[a] == m[a]
  }

  /** How a transfer started: direction, medium, chain, user buffer and position. */
  datatype Io = Io(dm: Dmd, wrt: bool, m0: Medium, ch0: seq<nat>, s0: seq<Byte>, b0: nat, len0: nat, mirrored: bool)

  /** What holds of medium, chain and buffer once `n` bytes have been transferred. */
  ghost predicate Moved(io: Io, m: Medium, ch: seq<nat>, s: seq<Byte>, n: nat) {
    && HasDrive(io.m0, io.dm) && HasDrive(m, io.dm) && OnlyFiles(io.m0, m, io.dm)
    && HasRegion(io.m0, io.dm, Data) && HasRegion(m, io.dm, Data)
    && Grown(Table(io.m0, io.dm), Table(m, io.dm), io.ch0, ch)
    && (!io.wrt ==> m == io.m0 && ch == io.ch0)
    && BytesMoved(io.wrt, Image(io.m0, io.dm, Data), Image(m, io.dm, Data), io.dm.ClBytes(), ch, io.s0, s, io.b0, n)
  }

  lemma MovedStart(io: Io, start: Link)
    requires HasDrive(io.m0, io.dm) && IsChain(Table(io.m0, io.dm), start, io.ch0)
    requires io.b0 <= |io.ch0| * io.dm.ClBytes()
    ensures Moved(io, io.m0, io.ch0, io.s0, 0)
  {
    hide BytesMoved, Table, Image, HasDrive;
    ChainFits(io.m0, io.dm, start, io.ch0);
    GrownRefl(Table(io.m0, io.dm), io.ch0);
    NothingMoved(io.wrt, Image(io.m0, io.dm, Data), io.dm.ClBytes(), io.ch0, io.s0, io.b0);
  }

  /** Links and data lie in different regions. */
  lemma SameTable(m: Medium, m': Medium, dm: Dmd)
    requires HasDrive(m, dm) && HasDrive(m', dm) && SameOutside(m, m', dm, Data)
    ensures Table(m', dm) == Table(m, dm)
  {
    hide TableOf, Image;
    OtherImage(m, m', dm, Data, Fat);
  }

  lemma MovedWrite(io: Io, m: Medium, ch: seq<nat>, n: nat, start: Link, k: nat, r: nat, x: nat, len: nat, m': Medium)
    requires io.wrt && Moved(io, m, ch, io.s0, n) && IsChain(Table(m, io.dm), start, ch)
    requires InRun(io.dm.ClBytes(), ch, k, r, x, len) && k * io.dm.ClBytes() + x == io.b0 + n && n + len <= |io.s0|
    requires HasDrive(m', io.dm) && SameOutside(m, m', io.dm, Data) && HasRegion(m', io.dm, Data)
    requires 0 <= (ch[k] - 2) * io.dm.ClBytes() + x && (ch[k] - 2) * io.dm.ClBytes() + x + len <= |Image(m, io.dm, Data)|
    requires Image(m', io.dm, Data) == Splice(Image(m, io.dm, Data), (ch[k] - 2) * io.dm.ClBytes() + x, io.s0[n..n + len])
    ensures Moved(io, m', ch, io.s0, n + len) && Table(m', io.dm) == Table(m, io.dm)
  {
    hide BytesMoved, Table, Image, Splice, HasRegion, InRun;
    ChainAcyclic(Table(m, io.dm), start, ch);
    SameTable(m, m', io.dm);
    WriteMoves(Image(io.m0, io.dm, Data), Image(m, io.dm, Data), io.dm.ClBytes(), ch, io.s0, io.b0, n, k, r, x, len);
  }

  lemma MovedRead(io: Io, ch: seq<nat>, s: seq<Byte>, n: nat, k: nat, r: nat, x: nat, len: nat, s': seq<Byte>)
    requires !io.wrt && Moved(io, io.m0, ch, s, n)
    requires InRun(io.dm.ClBytes(), ch, k, r, x, len) && k * io.dm.ClBytes() + x == io.b0 + n && n + len <= |s|
    requires 0 <= (ch[k] - 2) * io.dm.ClBytes() + x && (ch[k] - 2) * io.dm.ClBytes() + x + len <= |Image(io.m0, io.dm, Data)|
    requires var at := (ch[k] - 2) * io.dm.ClBytes() + x; s' == Splice(s, n, Image(io.m0, io.dm, Data)[at..at + len])
    ensures Moved(io, io.m0, ch, s', n + len)
  {
    hide BytesMoved, Table, Image, Splice, HasRegion, HasDrive, InRun;
    ReadMoves(Image(io.m0, io.dm, Data), io.dm.ClBytes(), ch, io.s0, s, io.b0, n, k, r, x, len);
  }

  lemma MovedGrow(io: Io, m: Medium, ch: seq<nat>, s: seq<Byte>, n: nat, start: Link, m': Medium, start': Link, ch': seq<nat>)
    requires Moved(io, m, ch, s, n) && IsChain(Table(m, io.dm), start, ch)
    requires HasDrive(m', io.dm) && SameOutside(m, m', io.dm, Fat)
    requires Grown(Table(m, io.dm), Table(m', io.dm), ch, ch') && IsChain(Table(m', io.dm), start', ch')
    requires !io.wrt ==> ch' == ch && m' == m
    ensures Moved(io, m', ch', s, n)
  {
    hide Table, Image, Grown, BytesMoved, Fits, HasRegion, IsChain;
    if io.wrt {
      assert HasRegion(io.m0, io.dm, Data) && HasRegion(m, io.dm, Data);
      var img0, img, cb := Image(io.m0, io.dm, Data), Image(m, io.dm, Data), io.dm.ClBytes();
      OtherImage(m, m', io.dm, Fat, Data);
      ChainFits(m', io.dm, start', ch');
      FitsByLength(img, img0, cb, ch');
      ChainAcyclic(Table(m', io.dm), start', ch');
      GrownTrans(Table(io.m0, io.dm), Table(m, io.dm), Table(m', io.dm), start, io.ch0, ch, ch');
      GrownPrefix(Table(m, io.dm), Table(m', io.dm), ch, ch');
      SameBuffer(img0, img, cb, ch, io.s0, s, io.b0, n);
      GrowMoved(img0, img, cb, ch, ch', s, io.b0, n);
    }
  }

  lemma GrownPrefix(tab: seq<Link>, tab': seq<Link>, ch: seq<nat>, ch': seq<nat>)
    requires Grown(tab, tab', ch, ch')
    ensures ch <= ch'
  {
  }

  lemma SameBuffer(img0: seq<Byte>, img: seq<Byte>, cb: nat, ch: seq<nat>, s0: seq<Byte>, s: seq<Byte>, b0: nat, n: nat)
    requires BytesMoved(true, img0, img, cb, ch, s0, s, b0, n)
    ensures s == s0 && |img| == |img0|
  {
  }

  /** The position of a descriptor: byte `o` (counting from 1) of cluster `k` of its chain. At a cluster
      boundary it is still at the end of the cluster before, which `curbyt` may give as 0; before the
      first cluster `k` is -1. */
  ghost predicate PosAt(p: Ofd, dm: Dmd, ch: seq<nat>, k: int, o: nat)
    reads p
  {
    && -1 <= k < |ch| && 0 < o <= dm.ClBytes() && p.bytnum == k * dm.ClBytes() + o
    && (if k == -1 then o == dm.ClBytes() && p.curcl == 0 && p.currec == 0 && p.curbyt == 0
        else
          && 2 <= ch[k] && p.curcl == ch[k] && p.currec == Cl2Rec(ch[k], dm)
          && (p.curbyt == o || (p.curbyt == 0 && o == dm.ClBytes())))
  }

  /** A transfer under way: `n` bytes are done, and a chain that has grown has grown up to the current cluster. */
  ghost predicate Running(io: Io, c: Cache, p: Ofd, ubuf: array<Byte>, ch: seq<nat>, n: nat)
    reads c, p, p.dfd, ubuf
  {
    && (|ch| > |io.ch0| ==> p.curcl == ch[|ch| - 1])
    && c.Valid() && c.Mounted(io.dm) && (io.mirrored ==> c.CopiesMirrored())
    && Moved(io, c.contents, ch, ubuf[..], n)
    && IsChain(Table(c.contents, io.dm), p.dfd.strtcl, ch)
  }

  /** Update the descriptor after `siz` bytes: `curbyt` only moves for less than a cluster. */
  method Addit(p: Ofd, dm: Dmd, siz: nat)
    modifies p`curbyt, p`bytnum, p.dfd`fileln, p.dfd`dirty
    ensures p.curbyt == old(p.curbyt) + (if siz < dm.ClBytes() then siz else 0)
    ensures p.bytnum == old(p.bytnum) + siz
    ensures p.dfd.fileln == if p.bytnum > old(p.dfd.fileln) then p.bytnum else old(p.dfd.fileln)
    ensures p.dfd.dirty == (old(p.dfd.dirty) || p.dfd.fileln > old(p.dfd.fileln))
  {
    if siz < dm.ClBytes() {
      p.curbyt := p.curbyt + siz;
    }
    p.bytnum := p.bytnum + siz;
    if p.bytnum > p.dfd.fileln {
      p.dfd.fileln := p.bytnum;
      p.dfd.dirty := true;
    }
  }

  /** memcpy into the user's buffer. */
  method CopyIn(ubuf: array<Byte>, u: nat, bytes: seq<Byte>)
    requires u + |bytes| <= ubuf.Length
    modifies ubuf
    ensures ubuf[..] == Splice(old(ubuf[..]), u, bytes)
  {
    var i := 0;
    while i < |bytes|
      invariant i <= |bytes|
      invariant forall j :: 0 <= j < ubuf.Length ==> ubuf[j] == if u <= j < u + i then bytes[j - u] else old(ubuf[..])[j]
    {
      ubuf[u + i] := bytes[i];
      i := i + 1;
    }
  }

  /** The bytes of the data region that a transfer is about: a piece of a run of clusters. */
  ghost predicate Target(io: Io, ch: seq<nat>, n: nat, k: nat, r: nat, x: nat, len: nat, at: nat) {
    && InRun(io.dm.ClBytes(), ch, k, r, x, len) && k * io.dm.ClBytes() + x == io.b0 + n
    && at == (ch[k] - 2) * io.dm.ClBytes() + x
  }

  lemma TargetInImage(io: Io, m: Medium, ch: seq<nat>, s: seq<Byte>, n: nat, start: Link, k: nat, r: nat, x: nat, len: nat, at: nat)
    requires Moved(io, m, ch, s, n) && IsChain(Table(m, io.dm), start, ch) && Target(io, ch, n, k, r, x, len, at)
    ensures HasDrive(m, io.dm) && HasRegion(m, io.dm, Data) && at + len <= |Image(m, io.dm, Data)|
    ensures |s| == |io.s0| && (io.wrt ==> s == io.s0) && (!io.wrt ==> m == io.m0)
  {
    hide Table, Image;
    ChainFits(m, io.dm, start, ch);
    RunBounds(Image(m, io.dm, Data), io.dm.ClBytes(), ch, k, r, x, len);
  }

  /** Transfer of part of a record through a buffer. */
  method XferPart(ghost io: Io, c: Cache, dm: Dmd, wrt: bool, p: Ofd, rec: nat, off: nat, len: nat, ubuf: array<Byte>, n: nat,
                  ghost ch: seq<nat>, ghost k: nat, ghost x: nat, ghost at: nat)
    requires Running(io, c, p, ubuf, ch, n) && dm == io.dm && wrt == io.wrt && n + len <= ubuf.Length
    requires dm.InRegion(Data, rec) && off + len <= dm.recsiz && at == rec * dm.recsiz + off
    requires Target(io, ch, n, k, 1, x, len, at)
    modifies c, ubuf
    ensures Running(io, c, p, ubuf, ch, n + len)
  {
    hide ListOk, MediumOk, DrivesOk, Mirrored, MruFirst, Renewed, Evicted, Table, Image, Moved, IsChain, Splice, HasRegion;
    ghost var m, s := c.contents, ubuf[..];
    TargetInImage(io, m, ch, s, n, p.dfd.strtcl, k, 1, x, len, at);
    var buf := c.GetRec(dm, Data, rec, wrt);
    if wrt {
      c.Poke(dm, Data, rec, off, ubuf[n..n + len]);
      PokeImage(m, dm, Data, rec, off, ubuf[n..n + len], c.contents);
      assert ubuf[n..n + len] == io.s0[n..n + len];
      MovedWrite(io, m, ch, n, p.dfd.strtcl, k, 1, x, len, c.contents);
    } else {
      SectorSlice(m, dm, rec, off, len);
      CopyIn(ubuf, n, buf[off..off + len]);
      MovedRead(io, ch, s, n, k, 1, x, len, ubuf[..]);
    }
  }

  lemma SectorSlice(m: Medium, dm: Dmd, rec: nat, off: nat, len: nat)
    requires HasRegion(m, dm, Data) && dm.InRegion(Data, rec) && off + len <= dm.recsiz
    requires rec * dm.recsiz + off + len <= |Image(m, dm, Data)|
    ensures |m[dm.At(Data, rec)]| == dm.recsiz
    ensures m[dm.At(Data, rec)][off..off + len] == Image(m, dm, Data)[rec * dm.recsiz + off..rec * dm.recsiz + off + len]
  {
    hide Image;
    var sec, img, base := m[dm.At(Data, rec)], Image(m, dm, Data), rec * dm.recsiz;
    forall i | off <= i < off + len
      ensures sec[i] == img[base + i]
    {
      ImageAt(m, dm, Data, rec, i);
    }
    assert sec[off..off + len] == img[base + off..base + off + len];
  }

  /** Transfer of whole records straight between the user's buffer and the medium. */
  method Usrio(ghost io: Io, c: Cache, dm: Dmd, wrt: bool, p: Ofd, num: nat, strt: nat, ubuf: array<Byte>, n: nat,
               ghost ch: seq<nat>, ghost k: nat, ghost r: nat, ghost x: nat, ghost at: nat, len: nat)
    requires Running(io, c, p, ubuf, ch, n) && dm == io.dm && wrt == io.wrt && n + len <= ubuf.Length
    requires num <= CNTMAX && strt + num <= dm.RegionLen(Data) && at == strt * dm.recsiz && len == num * dm.recsiz
    requires Target(io, ch, n, k, r, x, len, at)
    modifies c, ubuf
    ensures HasDrive(old(c.contents), dm) && HasDrive(c.contents, dm) && Table(c.contents, dm) == Table(old(c.contents), dm)
    ensures Running(io, c, p, ubuf, ch, n + len)
  {
    hide ListOk, MediumOk, DrivesOk, Mirrored, MruFirst, Renewed, Evicted, Table, Image, Moved, IsChain, Splice, HasRegion, Gather, Scatter;
    ghost var m, s := c.contents, ubuf[..];
    TargetInImage(io, m, ch, s, n, p.dfd.strtcl, k, r, x, len, at);
    if wrt {
      c.WriteDirect(dm, strt, num, ubuf[n..n + len]);
      ScatterImage(m, dm, strt, num, ubuf[n..n + len], c.contents);
      assert ubuf[n..n + len] == io.s0[n..n + len];
      MovedWrite(io, m, ch, n, p.dfd.strtcl, k, r, x, len, c.contents);
    } else {
      var data := c.ReadDirect(dm, strt, num);
      GatherImage(m, dm, strt, num);
      assert (strt + num) * dm.recsiz == at + len;
      CopyIn(ubuf, n, data);
      MovedRead(io, ch, s, n, k, r, x, len, ubuf[..]);
    }
  }

  /** Position and file length after `n` bytes. */
  ghost predicate Counted(io: Io, p: Ofd, n: nat)
    reads p, p.dfd
  {
    && p.bytnum == io.b0 + n
    && p.dfd.fileln == if p.bytnum > io.len0 then p.bytnum else io.len0
  }

  /** A transfer under way with the descriptor in step. */
  ghost predicate Here(io: Io, c: Cache, p: Ofd, ubuf: array<Byte>, ch: seq<nat>, n: nat, k: int, o: nat)
    reads c, p, p.dfd, ubuf
  {
    Running(io, c, p, ubuf, ch, n) && Counted(io, p, n) && PosAt(p, io.dm, ch, k, o)
  }

  lemma RunArithmetic(dm: Dmd, j: nat, c: nat)
    requires c >= 2
    ensures j * dm.clsiz * dm.recsiz == j * dm.ClBytes()
    ensures Cl2Rec(c, dm) * dm.recsiz == (c - 2) * dm.ClBytes()
  {
    MulAssoc(j, dm.clsiz, dm.recsiz);
    MulAssoc(c - 2, dm.clsiz, dm.recsiz);
  }

  /** The records of a run of clusters lie in the data region. */
  lemma RunRecords(dm: Dmd, tab: seq<Link>, start: Link, ch: seq<nat>, k: nat, j: nat)
    requires |tab| == dm.numcl + 2 && IsChain(tab, start, ch) && j > 0 && Contiguous(ch, k, j)
    ensures ch[k] >= 2 && Cl2Rec(ch[k], dm) + j * dm.clsiz <= dm.RegionLen(Data)
  {
    assert ch[k + j - 1] == ch[k] + j - 1;
    var a, b: nat := ch[k] as int - 2 + j, dm.numcl;
    assert (ch[k] - 2) * dm.clsiz + j * dm.clsiz == a * dm.clsiz;
    if a < b { MulGap(dm.clsiz, a, b); }
  }

  /** Transfer the clusters that have been collected: `j` contiguous ones after cluster `k`. */
  method Complete(ghost io: Io, c: Cache, dm: Dmd, wrt: bool, p: Ofd, nrecs: nat, last: nat, ubuf: array<Byte>, n: nat,
                  ghost ch: seq<nat>, ghost k: int, ghost j: nat) returns (n': nat)
    requires Running(io, c, p, ubuf, ch, n) && Counted(io, p, n) && dm == io.dm && wrt == io.wrt
    requires j > 0 && k >= -1 && Contiguous(ch, k + 1, j) && ch[k + 1] >= 2 && last == Cl2Rec(ch[k + 1], dm)
    requires nrecs == j * dm.clsiz <= CNTMAX && p.bytnum == (k + 1) * dm.ClBytes()
    requires n + j * dm.ClBytes() <= ubuf.Length
    modifies c, ubuf, p`curbyt, p`bytnum, p.dfd`fileln, p.dfd`dirty
    ensures n' == n + j * dm.ClBytes() && Running(io, c, p, ubuf, ch, n') && Counted(io, p, n')
    ensures HasDrive(old(c.contents), dm) && HasDrive(c.contents, dm) && Table(c.contents, dm) == Table(old(c.contents), dm)
    ensures p.bytnum == (k + j + 1) * dm.ClBytes() && p.curbyt == old(p.curbyt)
  {
    hide Cache.Valid, Cache.CopiesMirrored, Table, Moved, IsChain, HasDrive, Cl2Rec;
    MovedDrive(io, c.contents, ch, ubuf[..], n);
    RunArithmetic(dm, j, ch[k + 1]);
    RunRecords(dm, Table(c.contents, dm), p.dfd.strtcl, ch, k + 1, j);
    ClusterRun(dm, ch, k + 1, j);
    var nbytes := nrecs * dm.recsiz;
    Usrio(io, c, dm, wrt, p, nrecs, last, ubuf, n, ch, k + 1, j, 0, last * dm.recsiz, nbytes);
    Addit(p, dm, nbytes);
    n' := n + nbytes;
  }

  lemma MovedDrive(io: Io, m: Medium, ch: seq<nat>, s: seq<Byte>, n: nat)
    requires Moved(io, m, ch, s, n)
    ensures HasDrive(io.m0, io.dm) && HasDrive(m, io.dm) && io.dm.Valid() && io.dm.recsiz > 0 && io.dm.ClBytes() > 0
  {
    ClBytesPositive(io.dm);
  }

  lemma ClusterRun(dm: Dmd, ch: seq<nat>, k: nat, j: nat)
    requires j > 0 && dm.ClBytes() > 0 && Contiguous(ch, k, j)
    ensures InRun(dm.ClBytes(), ch, k, j, 0, j * dm.ClBytes()) && j * dm.ClBytes() >= dm.ClBytes()
    ensures k * dm.ClBytes() + j * dm.ClBytes() == (k + j) * dm.ClBytes()
  {
  }

  /** Move on to the next cluster in the course of a transfer. */
  method Advance(ghost io: Io, c: Cache, dm: Dmd, wrt: bool, p: Ofd, ubuf: array<Byte>, ghost n: nat, ghost ch: seq<nat>, ghost k: int)
    returns (ok: bool, ghost ch': seq<nat>)
    requires Running(io, c, p, ubuf, ch, n) && Counted(io, p, n) && dm == io.dm && wrt == io.wrt && AtCluster(p, ch, k)
    modifies c, p, p.dfd
    ensures Running(io, c, p, ubuf, ch', n) && Counted(io, p, n) && ch <= ch' && p.bytnum == old(p.bytnum)
    ensures ok <==> k + 1 < |ch'|
    ensures !ok ==> ch' == ch && (wrt ==> HasDrive(c.contents, dm) && Full(Table(c.contents, dm)))
    ensures ok ==> ch'[k + 1] >= 2 && p.curcl == ch'[k + 1] && p.currec == Cl2Rec(ch'[k + 1], dm) && p.curbyt == 0
    ensures !ok ==> p.curcl == old(p.curcl) && p.currec == old(p.currec) && p.curbyt == old(p.curbyt)
  {
    hide Cache.Valid, Cache.CopiesMirrored, Table, Moved, HasDrive, Grown, SameOutside, Full;
    MovedDrive(io, c.contents, ch, ubuf[..], n);
    ghost var m, start := c.contents, p.dfd.strtcl;
    ChainAcyclic(Table(m, dm), start, ch);
    ok, ch' := NextCl(c, dm, p, wrt, ch, k);
    GrownPrefix(Table(m, dm), Table(c.contents, dm), ch, ch');
    MovedGrow(io, m, ch, ubuf[..], n, start, c.contents, p.dfd.strtcl, ch');
  }

  /** `j` clusters after cluster `k` have been collected but not yet transferred; the descriptor is
      already at the last of them. */
  ghost predicate Pending(p: Ofd, dm: Dmd, ch: seq<nat>, k: int, j: nat, last: nat)
    reads p
  {
    && k >= -1 && j > 0 && k + j < |ch| && Contiguous(ch, k + 1, j) && 2 <= ch[k + 1] && 2 <= ch[k + j]
    && last == Cl2Rec(ch[k + 1], dm) && p.bytnum == (k + 1) * dm.ClBytes()
    && p.curcl == ch[k + j] && p.currec == Cl2Rec(ch[k + j], dm) && p.curbyt == 0
  }

  lemma ExtendRun(dm: Dmd, ch: seq<nat>, k: nat, j: nat)
    requires dm.clsiz > 0 && j > 0 && Contiguous(ch, k, j) && k + j < |ch| && ch[k] >= 2 && ch[k + j] >= 2
    requires Cl2Rec(ch[k + j], dm) == Cl2Rec(ch[k], dm) + j * dm.clsiz
    ensures Contiguous(ch, k, j + 1)
  {
    var a, b: int := ch[k + j] as int - 2, ch[k] as int - 2 + j;
    assert b * dm.clsiz == (ch[k] - 2) * dm.clsiz + j * dm.clsiz;
    if a < b { MulGap(dm.clsiz, a, b); }
    if b < a { MulGap(dm.clsiz, b, a); }
  }

  lemma SmallClusters(dm: Dmd)
    requires dm.Valid()
    ensures 0 < dm.clsiz <= CNTMAX
  {
    MulGap(dm.clsiz, 0, dm.recsiz);
  }

  /** The end of the chain has been reached, and if it was to be extended there is no free cluster. */
  ghost predicate AtEnd(io: Io, m: Medium, ch: seq<nat>, k: int, o: nat) {
    k == |ch| - 1 && o == io.dm.ClBytes() && (io.wrt ==> HasDrive(m, io.dm) && Full(Table(m, io.dm)))
  }

  /** One more cluster collected. */
  lemma PendingMore(p: Ofd, dm: Dmd, ch: seq<nat>, k: int, j: nat, last: nat)
    requires dm.clsiz > 0 && k >= -1 && k + j + 1 < |ch| && 2 <= ch[k + j + 1] && p.bytnum == (k + 1) * dm.ClBytes()
    requires p.curcl == ch[k + j + 1] && p.currec == Cl2Rec(ch[k + j + 1], dm) && p.curbyt == 0
    requires if j == 0 then last == p.currec
             else Contiguous(ch, k + 1, j) && 2 <= ch[k + 1] && last == Cl2Rec(ch[k + 1], dm) && p.currec == last + j * dm.clsiz
    ensures Pending(p, dm, ch, k, j + 1, last)
  {
    hide Cl2Rec, Contiguous;
    if j == 0 {
      SingleRun(ch, k + 1);
    } else {
      ExtendRun(dm, ch, k + 1, j);
    }
  }

  /** One round of the loop over whole clusters: get the next one, transfer what has been collected if
      it cannot be extended by that cluster, and collect the cluster. */
  method Collect(ghost io: Io, c: Cache, dm: Dmd, wrt: bool, p: Ofd, first: bool, last: nat, nrecs: nat, ubuf: array<Byte>, n: nat,
                 ghost ch: seq<nat>, ghost k: int, ghost j: nat)
    returns (ok: bool, last': nat, nrecs': nat, n': nat, ghost ch': seq<nat>, ghost k': int, ghost j': nat)
    requires Running(io, c, p, ubuf, ch, n) && Counted(io, p, n) && dm == io.dm && wrt == io.wrt
    requires if first then j == 0 && PosAt(p, dm, ch, k, dm.ClBytes()) else Pending(p, dm, ch, k, j, last)
    requires nrecs == j * dm.clsiz <= CNTMAX && n + j * dm.ClBytes() <= ubuf.Length
    modifies c, p, p.dfd, ubuf
    ensures Running(io, c, p, ubuf, ch', n') && Counted(io, p, n')
    ensures ok ==> Pending(p, dm, ch', k', j', last') && nrecs' == j' * dm.clsiz <= CNTMAX
    ensures ok ==> n' + j' * dm.ClBytes() == n + j * dm.ClBytes() + dm.ClBytes()
    ensures !ok ==> n' == n + j * dm.ClBytes() && PosAt(p, dm, ch', k', dm.ClBytes()) && AtEnd(io, c.contents, ch', k', dm.ClBytes())
  {
    hide Running, Counted, HasDrive, Table, Cl2Rec, Contiguous, Full;
    DriveOf(io, c, p, ubuf, ch, n);
    ok, ch' := Advance(io, c, dm, wrt, p, ubuf, n, ch, k + j);
    OneMore(j, dm.clsiz, dm.ClBytes());
    last', nrecs', n', k', j' := if first then p.currec else last, nrecs, n, k, j;
    if !first {
      PrefixRun(ch, ch', k + 1, j);
    }
    if !ok || p.currec != last' + nrecs' || nrecs' + dm.clsiz > CNTMAX {
      if nrecs' != 0 {
        n' := Complete(io, c, dm, wrt, p, nrecs', last', ubuf, n, ch', k, j);
        last', nrecs', k', j' := p.currec, 0, k + j, 0;
      }
    }
    if ok {
      PendingMore(p, dm, ch', k', j', last');
      nrecs', j' := nrecs' + dm.clsiz, j' + 1;
    } else if !first {
      AtBoundary(p, dm, ch', k');
    }
  }

  lemma OneMore(j: nat, a: nat, b: nat)
    ensures (j + 1) * a == j * a + a && (j + 1) * b == j * b + b && (j > 0 && a > 0 ==> j * a > 0)
  {
  }

  lemma PrefixRun(ch: seq<nat>, ch': seq<nat>, k: nat, j: nat)
    requires Contiguous(ch, k, j) && ch <= ch'
    ensures Contiguous(ch', k, j)
  {
  }

  lemma SingleRun(ch: seq<nat>, k: nat)
    requires k < |ch|
    ensures Contiguous(ch, k, 1)
  {
  }

  lemma DriveOf(io: Io, c: Cache, p: Ofd, ubuf: array<Byte>, ch: seq<nat>, n: nat)
    requires Running(io, c, p, ubuf, ch, n)
    ensures io.dm.Valid() && io.dm.recsiz > 0 && io.dm.ClBytes() > 0 && 0 < io.dm.clsiz <= CNTMAX
  {
    MovedDrive(io, c.contents, ch, ubuf[..], n);
    SmallClusters(io.dm);
  }

  /** The loop over whole clusters: contiguous ones are collected and transferred together. */
  method WholeClusters(ghost io: Io, c: Cache, dm: Dmd, wrt: bool, p: Ofd, total: nat, ubuf: array<Byte>, n0: nat,
                       ghost ch0: seq<nat>, ghost k0: int, ghost o: nat)
    returns (ok: bool, n: nat, ghost ch: seq<nat>, ghost k: int)
    requires Here(io, c, p, ubuf, ch0, n0, k0, o) && dm == io.dm && wrt == io.wrt
    requires (total > 0 ==> o == dm.ClBytes()) && n0 + total * dm.ClBytes() <= ubuf.Length
    modifies c, p, p.dfd, ubuf
    ensures Here(io, c, p, ubuf, ch, n, k, o)
    ensures ok ==> n == n0 + total * dm.ClBytes()
    ensures !ok ==> n < n0 + total * dm.ClBytes() && AtEnd(io, c.contents, ch, k, o)
  {
    hide Running, Counted, HasDrive, Table, Cl2Rec, Contiguous, Full, PosAt, AtEnd;
    n, ch, k, ok := n0, ch0, k0, true;
    DriveOf(io, c, p, ubuf, ch, n);
    var numclus: nat, last: nat, nrecs: nat, first := total, 0, 0, true;
    ghost var j: nat := 0;
    while numclus != 0
      invariant Running(io, c, p, ubuf, ch, n) && Counted(io, p, n) && numclus <= total && ok
      invariant first <==> numclus == total
      invariant if first then j == 0 && PosAt(p, dm, ch, k, o) else Pending(p, dm, ch, k, j, last)
      invariant nrecs == j * dm.clsiz <= CNTMAX && n + j * dm.ClBytes() + numclus * dm.ClBytes() == n0 + total * dm.ClBytes()
    {
      OneMore(numclus - 1, dm.clsiz, dm.ClBytes());
      ok, last, nrecs, n, ch, k, j := Collect(io, c, dm, wrt, p, first, last, nrecs, ubuf, n, ch, k, j);
      if !ok {
        return;
      }
      numclus, first := numclus - 1, false;
    }
    if nrecs != 0 {
      n := Complete(io, c, dm, wrt, p, nrecs, last, ubuf, n, ch, k, j);
      k := k + j;
      AtBoundary(p, dm, ch, k);
    }
  }

  lemma AtBoundary(p: Ofd, dm: Dmd, ch: seq<nat>, k: int)
    requires 0 <= k < |ch| && dm.ClBytes() > 0 && p.bytnum == (k + 1) * dm.ClBytes() && 2 <= ch[k]
    requires p.curcl == ch[k] && p.currec == Cl2Rec(ch[k], dm) && p.curbyt == 0
    ensures PosAt(p, dm, ch, k, dm.ClBytes())
  {
  }

  /** Where a position inside a cluster is, in records and in bytes of the data region. */
  lemma RecordPlace(dm: Dmd, cl: nat, o: nat, q: nat)
    requires dm.Valid() && 2 <= cl < dm.numcl + 2 && o == q * dm.recsiz && 0 < o < dm.ClBytes()
    ensures 0 < q < dm.clsiz && Rem(Cl2Rec(cl, dm) + q, dm.clsiz) == q
    ensures (Cl2Rec(cl, dm) + q) * dm.recsiz == (cl - 2) * dm.ClBytes() + o
    ensures Cl2Rec(cl, dm) + dm.clsiz <= dm.RegionLen(Data)
  {
    hide Rem;
    RecordIn(q, dm.clsiz, dm.recsiz, o);
    RecordRem(cl, q, dm);
    MulAssoc(cl - 2, dm.clsiz, dm.recsiz);
    MulDist(Cl2Rec(cl, dm), q, dm.recsiz);
    MulGap(dm.clsiz, cl - 2, dm.numcl);
  }

  lemma RecordIn(q: nat, clsiz: nat, recsiz: nat, o: nat)
    requires o == q * recsiz && 0 < o < clsiz * recsiz
    ensures 0 < q < clsiz
  {
    if q > clsiz { MulGap(recsiz, clsiz, q); }
  }

  lemma RecordRem(cl: nat, q: nat, dm: Dmd)
    requires cl >= 2 && q < dm.clsiz
    ensures Rem(Cl2Rec(cl, dm) + q, dm.clsiz) == q
  {
    DivModUnique(dm.clsiz, cl - 2, q, Cl2Rec(cl, dm) + q);
  }

  /** The record a position starts in. */
  ghost predicate StartsAt(p: Ofd, dm: Dmd, startrec: nat)
    reads p
  {
    dm.recsiz > 0 && Rem(p.curbyt, dm.recsiz) == 0 && startrec == p.currec + Quot(p.curbyt, dm.recsiz)
  }

  lemma QuotRem(x: nat, n: nat)
    requires n > 0
    ensures x == Quot(x, n) * n + Rem(x, n)
  {
  }

  /** A position at a cluster boundary has no header records. */
  lemma NoHeader(p: Ofd, dm: Dmd, ch: seq<nat>, k: int, startrec: nat)
    requires dm.Valid() && PosAt(p, dm, ch, k, dm.ClBytes()) && StartsAt(p, dm, startrec)
    ensures Rem(startrec, dm.clsiz) == 0
  {
    if p.curbyt == 0 {
      DivModUnique(dm.recsiz, 0, 0, 0);
    } else {
      DivModUnique(dm.recsiz, dm.clsiz, 0, p.curbyt);
    }
    var a: nat := (if k == -1 then 0 else ch[k] - 2) + (if p.curbyt == 0 then 0 else 1);
    assert startrec == a * dm.clsiz;
    DivModUnique(dm.clsiz, a, 0, startrec);
  }

  /** A position inside a cluster, `q` records from its start. */
  lemma HeaderPlace(p: Ofd, dm: Dmd, tab: seq<Link>, start: Link, ch: seq<nat>, k: int, o: nat, startrec: nat)
    requires dm.Valid() && |tab| == dm.numcl + 2 && IsChain(tab, start, ch)
    requires PosAt(p, dm, ch, k, o) && o < dm.ClBytes() && StartsAt(p, dm, startrec)
    ensures k >= 0 && p.curbyt == o
    ensures var q := Rem(startrec, dm.clsiz);
            && 0 < q < dm.clsiz && o == q * dm.recsiz && startrec + (dm.clsiz - q) <= dm.RegionLen(Data)
            && startrec * dm.recsiz == (ch[k] - 2) * dm.ClBytes() + o
  {
    QuotRem(o, dm.recsiz);
    RecordPlace(dm, ch[k], o, Quot(o, dm.recsiz));
  }

  lemma HeaderEnd(dm: Dmd, q: nat, h: nat, num: nat)
    requires q + h <= dm.clsiz && h <= num
    ensures q * dm.recsiz + h * dm.recsiz <= dm.ClBytes() && (num - h) * dm.recsiz >= 0
    ensures q + h == dm.clsiz ==> q * dm.recsiz + h * dm.recsiz == dm.ClBytes()
    ensures h * dm.recsiz + (num - h) * dm.recsiz == num * dm.recsiz
    ensures 0 < q && dm.recsiz > 0 ==> h * dm.recsiz < dm.ClBytes()
  {
    assert q * dm.recsiz + h * dm.recsiz == (q + h) * dm.recsiz;
    if q + h < dm.clsiz { MulGap(dm.recsiz, q + h, dm.clsiz); }
    if 0 < q { MulGap(dm.recsiz, 0, q); }
  }

  lemma InCluster(dm: Dmd, ch: seq<nat>, k: nat, o: nat, len: nat)
    requires k < |ch| && dm.ClBytes() > 0 && o + len <= dm.ClBytes()
    ensures InRun(dm.ClBytes(), ch, k, 1, o, len)
  {
  }

  /** A run of records at the position, inside the current cluster; the descriptor moves on. */
  method HeadRun(ghost io: Io, c: Cache, dm: Dmd, wrt: bool, p: Ofd, startrec: nat, num: nat, ubuf: array<Byte>, n: nat,
                 ghost ch: seq<nat>, ghost k: nat, ghost o: nat, nbytes: nat)
    requires Here(io, c, p, ubuf, ch, n, k, o) && dm == io.dm && wrt == io.wrt && n + nbytes <= ubuf.Length
    requires num <= CNTMAX && startrec + num <= dm.RegionLen(Data) && nbytes == num * dm.recsiz
    requires k < |ch| && p.curbyt == o && o + nbytes <= dm.ClBytes() && nbytes < dm.ClBytes()
    requires startrec * dm.recsiz == (ch[k] - 2) * dm.ClBytes() + o
    modifies c, ubuf, p`curbyt, p`bytnum, p.dfd`fileln, p.dfd`dirty
    ensures Here(io, c, p, ubuf, ch, n + nbytes, k, o + nbytes)
  {
    hide Cache.Valid, Cache.CopiesMirrored, Table, Moved, IsChain, HasDrive, Cl2Rec, InRun;
    InCluster(dm, ch, k, o, nbytes);
    Usrio(io, c, dm, wrt, p, num, startrec, ubuf, n, ch, k, 1, o, startrec * dm.recsiz, nbytes);
    Addit(p, dm, nbytes);
  }

  /** Whether there are header records, and where they lie. */
  lemma HeaderIs(io: Io, c: Cache, p: Ofd, ubuf: array<Byte>, ch: seq<nat>, n: nat, k: int, o: nat, startrec: nat)
    requires Here(io, c, p, ubuf, ch, n, k, o) && StartsAt(p, io.dm, startrec) && io.dm.Valid()
    ensures var q := Rem(startrec, io.dm.clsiz);
            && o <= io.dm.ClBytes() && (q == 0 <==> o == io.dm.ClBytes())
            && (q > 0 ==> 0 <= k < |ch| && p.curbyt == o == q * io.dm.recsiz && q < io.dm.clsiz)
            && (q > 0 ==> startrec + (io.dm.clsiz - q) <= io.dm.RegionLen(Data))
            && (q > 0 ==> startrec * io.dm.recsiz == (ch[k] - 2) * io.dm.ClBytes() + o)
  {
    hide Cache.Valid, Cache.CopiesMirrored, Table, Moved, HasDrive, Rem, Quot;
    TableSize(io, c, p, ubuf, ch, n);
    if o == io.dm.ClBytes() {
      NoHeader(p, io.dm, ch, k, startrec);
    } else {
      HeaderPlace(p, io.dm, Table(c.contents, io.dm), p.dfd.strtcl, ch, k, o, startrec);
    }
  }

  /** The records up to the end of the current cluster. */
  method HeadRecs(ghost io: Io, c: Cache, dm: Dmd, wrt: bool, p: Ofd, startrec: nat, numrecs: nat, ubuf: array<Byte>, n: nat,
                  ghost ch: seq<nat>, ghost k: int, ghost o: nat) returns (left: nat, n': nat, ghost o': nat)
    requires Here(io, c, p, ubuf, ch, n, k, o) && dm == io.dm && wrt == io.wrt && StartsAt(p, dm, startrec)
    requires n + numrecs * dm.recsiz <= ubuf.Length
    modifies c, ubuf, p`curbyt, p`bytnum, p.dfd`fileln, p.dfd`dirty
    ensures Here(io, c, p, ubuf, ch, n', k, o')
    ensures left <= numrecs && n' + left * dm.recsiz == n + numrecs * dm.recsiz
    ensures left > 0 ==> o' == dm.ClBytes() && n' == n + (dm.ClBytes() - o)
    ensures left == 0 ==> numrecs * dm.recsiz <= dm.ClBytes() - o
  {
    hide Running, Counted, PosAt, StartsAt, Rem, Quot;
    DriveOf(io, c, p, ubuf, ch, n);
    HeaderIs(io, c, p, ubuf, ch, n, k, o, startrec);
    left, n', o' := numrecs, n, o;
    var hdrrec := Rem(startrec, dm.clsiz);
    if hdrrec != 0 {
      ghost var q := hdrrec;
      hdrrec := dm.clsiz - hdrrec;
      if hdrrec > numrecs {
        hdrrec := numrecs;
      }
      HeaderEnd(dm, q, hdrrec, numrecs);
      var nbytes := hdrrec * dm.recsiz;
      HeadRun(io, c, dm, wrt, p, startrec, hdrrec, ubuf, n, ch, k, o, nbytes);
      left, n', o' := numrecs - hdrrec, n + nbytes, o + nbytes;
    }
  }

  lemma TableSize(io: Io, c: Cache, p: Ofd, ubuf: array<Byte>, ch: seq<nat>, n: nat)
    requires Running(io, c, p, ubuf, ch, n)
    ensures HasDrive(c.contents, io.dm) && |Table(c.contents, io.dm)| == io.dm.numcl + 2
    ensures IsChain(Table(c.contents, io.dm), p.dfd.strtcl, ch)
  {
  }

  lemma TailPlace(dm: Dmd, tab: seq<Link>, start: Link, ch: seq<nat>, k: nat, t: nat)
    requires dm.Valid() && |tab| == dm.numcl + 2 && IsChain(tab, start, ch) && k < |ch| && 0 < t <= dm.clsiz
    ensures Cl2Rec(ch[k], dm) + t <= dm.RegionLen(Data) && Cl2Rec(ch[k], dm) * dm.recsiz == (ch[k] - 2) * dm.ClBytes()
    ensures 0 < t * dm.recsiz <= dm.ClBytes() && (t < dm.clsiz ==> t * dm.recsiz < dm.ClBytes())
  {
    MulAssoc(ch[k] - 2, dm.clsiz, dm.recsiz);
    MulGap(dm.clsiz, ch[k] - 2, dm.numcl);
    MulGap(dm.recsiz, 0, t);
    if t < dm.clsiz { MulGap(dm.recsiz, t, dm.clsiz); }
  }

  /** The records at the start of one more cluster. */
  method TailRecs(ghost io: Io, c: Cache, dm: Dmd, wrt: bool, p: Ofd, tailrec: nat, ubuf: array<Byte>, n: nat,
                  ghost ch: seq<nat>, ghost k: int) returns (ok: bool, n': nat, ghost ch': seq<nat>, ghost k': int, ghost o': nat)
    requires Here(io, c, p, ubuf, ch, n, k, dm.ClBytes()) && dm == io.dm && wrt == io.wrt
    requires 0 < tailrec < dm.clsiz && n + tailrec * dm.recsiz <= ubuf.Length
    modifies c, p, p.dfd, ubuf
    ensures Here(io, c, p, ubuf, ch', n', k', o')
    ensures ok ==> n' == n + tailrec * dm.recsiz
    ensures !ok ==> n' == n && AtEnd(io, c.contents, ch', k', o')
  {
    hide Running, Counted, Table, HasDrive, Cl2Rec, Full;
    DriveOf(io, c, p, ubuf, ch, n);
    n', k', o' := n, k, dm.ClBytes();
    NextBoundary(p, dm, ch, k);
    ok, ch' := Advance(io, c, dm, wrt, p, ubuf, n, ch, k);
    if !ok {
      return;
    }
    var nbytes := tailrec * dm.recsiz;
    TailRun(io, c, dm, wrt, p, tailrec, ubuf, n, ch', k + 1, nbytes);
    n', k', o' := n + nbytes, k + 1, nbytes;
  }

  lemma NextBoundary(p: Ofd, dm: Dmd, ch: seq<nat>, k: int)
    requires PosAt(p, dm, ch, k, dm.ClBytes())
    ensures p.bytnum == (k + 1) * dm.ClBytes()
  {
  }

  /** Records at the start of the current cluster; the descriptor moves on. */
  method TailRun(ghost io: Io, c: Cache, dm: Dmd, wrt: bool, p: Ofd, num: nat, ubuf: array<Byte>, n: nat,
                 ghost ch: seq<nat>, ghost k: nat, nbytes: nat)
    requires Running(io, c, p, ubuf, ch, n) && Counted(io, p, n) && dm == io.dm && wrt == io.wrt && n + nbytes <= ubuf.Length
    requires k < |ch| && 2 <= ch[k] && p.curcl == ch[k] && p.currec == Cl2Rec(ch[k], dm) && p.curbyt == 0
    requires p.bytnum == k * dm.ClBytes() && 0 < num < dm.clsiz && nbytes == num * dm.recsiz
    modifies c, ubuf, p`curbyt, p`bytnum, p.dfd`fileln, p.dfd`dirty
    ensures Here(io, c, p, ubuf, ch, n + nbytes, k, nbytes)
  {
    hide Cache.Valid, Cache.CopiesMirrored, Table, Moved, HasDrive, Cl2Rec, InRun;
    DriveOf(io, c, p, ubuf, ch, n);
    TableSize(io, c, p, ubuf, ch, n);
    TailPlace(dm, Table(c.contents, dm), p.dfd.strtcl, ch, k, num);
    InCluster(dm, ch, k, 0, nbytes);
    Usrio(io, c, dm, wrt, p, num, p.currec, ubuf, n, ch, k, 1, 0, p.currec * dm.recsiz, nbytes);
    Addit(p, dm, nbytes);
  }

  lemma Pieces(dm: Dmd, left: nat)
    requires dm.clsiz > 0
    ensures left * dm.recsiz == Quot(left, dm.clsiz) * dm.ClBytes() + Rem(left, dm.clsiz) * dm.recsiz
    ensures Quot(left, dm.clsiz) * dm.ClBytes() >= 0 && Rem(left, dm.clsiz) * dm.recsiz >= 0
    ensures left == 0 ==> Quot(left, dm.clsiz) == 0 && Rem(left, dm.clsiz) == 0
  {
    QuotRem(left, dm.clsiz);
    var q, r := Quot(left, dm.clsiz), Rem(left, dm.clsiz);
    MulAssoc(q, dm.clsiz, dm.recsiz);
    assert left * dm.recsiz == (q * dm.clsiz) * dm.recsiz + r * dm.recsiz;
    if left == 0 { DivModUnique(dm.clsiz, 0, 0, 0); }
  }

  // ---------- How much of a request is tried

  /** A cluster count of type CLNO: 16 bits, unsigned. */
  function Clno(x: int): (r: Link) { x % 0x10000 }

  /** The whole clusters of a request of `len` bytes, after the `room` bytes that are left in the current one. */
  function Clusters(cb: nat, room: nat, len: nat): (n: nat)
    requires cb > 0
  {
    if len <= room then 0 else Quot(len - room, cb)
  }

  /** The bytes that are tried: the number of whole clusters is kept in 16 bits. */
  function Tried(cb: nat, room: nat, len: nat): (n: int)
    requires cb > 0
  {
    len - (Clusters(cb, room, len) - Clno(Clusters(cb, room, len))) * cb
  }

  /** A request is tried as a whole exactly if it has fewer than 65536 whole clusters. */
  lemma TriedWholeIff(cb: nat, room: nat, len: nat)
    requires cb > 0
    ensures 0 <= Tried(cb, room, len) <= len
    ensures Tried(cb, room, len) == len <==> Clusters(cb, room, len) < 0x10000
    ensures Tried(cb, room, len) == len <==> len < room + 0x10000 * cb
  {
    hide Quot;
    var q := Clusters(cb, room, len);
    var d := q - Clno(q);
    if len > room {
      QuotRem(len - room, cb);
      DroppedPart(q, d, cb);
      ClustersBelow(cb, len - room);
    } else {
      MulZero(cb);
    }
  }

  lemma MulZero(cb: nat)
    ensures 0 * cb == 0 && 0x10000 * cb >= cb
  {
  }

  lemma DroppedPart(q: nat, d: int, cb: nat)
    requires 0 <= d <= q && cb > 0
    ensures 0 <= d * cb <= q * cb && (d * cb == 0 <==> d == 0)
  {
    if d < q { MulGap(cb, d, q); }
    if d > 0 { MulGap(cb, 0, d); }
  }

  lemma ClustersBelow(cb: nat, x: nat)
    requires cb > 0
    ensures Quot(x, cb) < 0x10000 <==> x < 0x10000 * cb
  {
    hide Quot;
    QuotRem(x, cb);
    var q := Quot(x, cb);
    if q < 0x10000 { MulGap(cb, q, 0x10000); }
    if q > 0x10000 { MulGap(cb, 0x10000, q); }
  }

  /** At a cluster boundary a request of 65536 clusters is not tried at all. */
  lemma TriedExample(cb: nat)
    requires cb > 0
    ensures Tried(cb, 0, 0x10000 * cb) == 0
  {
    DivModUnique(cb, 0x10000, 0, 0x10000 * cb);
  }

  /** In records: what is left after the header, cut to 16 bits of whole clusters. */
  lemma TriedRecords(dm: Dmd, room: nat, left: nat, total: nat)
    requires dm.Valid() && total == room + left * dm.recsiz
    ensures Quot(left, dm.clsiz) == Clusters(dm.ClBytes(), room, total)
    ensures Tried(dm.ClBytes(), room, total) == room + Clno(Quot(left, dm.clsiz)) * dm.ClBytes() + Rem(left, dm.clsiz) * dm.recsiz
  {
    hide Quot, Rem, Clno, Dmd.ClBytes;
    Pieces(dm, left);
    ClBytesPositive(dm);
    var q, r, cb := Quot(left, dm.clsiz), Rem(left, dm.clsiz), dm.ClBytes();
    TailBelow(dm, r);
    if total > room {
      QuotRemUnique(cb, q, r * dm.recsiz, left * dm.recsiz);
    } else {
      NothingLeft(dm, left);
    }
    CutBack(q, Clno(q), cb);
  }

  lemma NothingLeft(dm: Dmd, left: nat)
    requires dm.Valid() && left * dm.recsiz <= 0
    ensures Quot(left, dm.clsiz) == 0
  {
    if left > 0 { MulGap(dm.recsiz, 0, left); }
  }

  lemma CutBack(q: nat, c: nat, cb: nat)
    ensures q * cb - (q - c) * cb == c * cb
  {
  }

  lemma TailBelow(dm: Dmd, r: nat)
    requires dm.Valid() && r < dm.clsiz
    ensures 0 <= r * dm.recsiz < dm.ClBytes()
  {
    MulGap(dm.recsiz, r, dm.clsiz);
  }

  /** Transfer of whole records: header records, whole clusters, tail records. */
  method XrwRecs(ghost io: Io, c: Cache, dm: Dmd, wrt: bool, p: Ofd, startrec: nat, numrecs: nat, ubuf: array<Byte>, n: nat,
                 ghost ch: seq<nat>, ghost k: int, ghost o: nat)
    returns (ok: bool, n': nat, ghost ch': seq<nat>, ghost k': int, ghost o': nat)
    requires Here(io, c, p, ubuf, ch, n, k, o) && dm == io.dm && wrt == io.wrt && StartsAt(p, dm, startrec)
    requires n + numrecs * dm.recsiz <= ubuf.Length
    modifies c, p, p.dfd, ubuf
    ensures Here(io, c, p, ubuf, ch', n', k', o') && dm.ClBytes() > 0 && o <= dm.ClBytes() && numrecs * dm.recsiz >= 0
    ensures ok ==> n' == n + Tried(dm.ClBytes(), dm.ClBytes() - o, numrecs * dm.recsiz)
    ensures !ok ==> n' < n + Tried(dm.ClBytes(), dm.ClBytes() - o, numrecs * dm.recsiz) && AtEnd(io, c.contents, ch', k', o')
  {
    hide Running, Counted, PosAt, HasDrive, Table, Quot, Rem, AtEnd, Dmd.ClBytes, Clno, Tried;
    DriveOf(io, c, p, ubuf, ch, n);
    PosRoom(p, dm, ch, k, o);
    var left;
    left, n', o' := HeadRecs(io, c, dm, wrt, p, startrec, numrecs, ubuf, n, ch, k, o);
    RecordsTried(dm, dm.ClBytes() - o, left, numrecs);
    var tailrec, numclus := Rem(left, dm.clsiz), Clno(Quot(left, dm.clsiz));
    ok, n', ch', k' := WholeClusters(io, c, dm, wrt, p, numclus, ubuf, n', ch, k, o');
    if !ok {
      return;
    }
    if tailrec != 0 {
      ok, n', ch', k', o' := TailRecs(io, c, dm, wrt, p, tailrec, ubuf, n', ch', k');
    }
  }

  lemma PosRoom(p: Ofd, dm: Dmd, ch: seq<nat>, k: int, o: nat)
    requires PosAt(p, dm, ch, k, o)
    ensures 0 < o <= dm.ClBytes()
  {
  }

  /** What is tried of some records, of which `left` remain after the header. */
  lemma RecordsTried(dm: Dmd, room: nat, left: nat, num: nat)
    requires dm.Valid() && left <= num && dm.ClBytes() > 0
    requires if left > 0 then num * dm.recsiz == room + left * dm.recsiz else num * dm.recsiz <= room
    ensures left == 0 ==> Rem(left, dm.clsiz) == 0 && Clno(Quot(left, dm.clsiz)) == 0 && 0 * dm.ClBytes() == 0
    ensures var t, c, r := Tried(dm.ClBytes(), room, num * dm.recsiz), Clno(Quot(left, dm.clsiz)), Rem(left, dm.clsiz);
            && 0 <= c * dm.ClBytes() && 0 <= r * dm.recsiz && c * dm.ClBytes() + r * dm.recsiz <= left * dm.recsiz
            && (r > 0 ==> r * dm.recsiz > 0)
            && t == if left > 0 then room + c * dm.ClBytes() + r * dm.recsiz else num * dm.recsiz
  {
    hide Quot, Rem, Dmd.ClBytes;
    Pieces(dm, left);
    var q, r := Quot(left, dm.clsiz), Rem(left, dm.clsiz);
    DroppedPart(q, q - Clno(q), dm.ClBytes());
    CutBack(q, Clno(q), dm.ClBytes());
    MulZero(dm.ClBytes());
    if r > 0 { MulGap(dm.recsiz, 0, r); }
    if left > 0 {
      TriedRecords(dm, room, left, num * dm.recsiz);
    }
  }

  lemma BytePlace(dm: Dmd, cl: nat, o: nat)
    requires dm.Valid() && 2 <= cl < dm.numcl + 2 && 0 < o < dm.ClBytes()
    ensures var q, r := Quot(o, dm.recsiz), Rem(o, dm.recsiz);
            && Cl2Rec(cl, dm) + q < dm.RegionLen(Data)
            && (Cl2Rec(cl, dm) + q) * dm.recsiz + r == (cl - 2) * dm.ClBytes() + o
            && o + (dm.recsiz - r) <= dm.ClBytes()
            && Rem(o + (dm.recsiz - r), dm.recsiz) == 0 && Quot(o + (dm.recsiz - r), dm.recsiz) == q + 1
  {
    hide Quot, Rem;
    var q, r := Quot(o, dm.recsiz), Rem(o, dm.recsiz);
    InRecord(dm.clsiz, dm.recsiz, o);
    MulAssoc(cl - 2, dm.clsiz, dm.recsiz);
    MulDist((cl - 2) * dm.clsiz, q, dm.recsiz);
    MulGap(dm.clsiz, cl - 2, dm.numcl);
  }

  /** The record that holds byte o of `len` records of n bytes, and the start of the next one. */
  lemma InRecord(len: nat, n: nat, o: nat)
    requires n > 0 && o < len * n
    ensures var q, r := Quot(o, n), Rem(o, n);
            && q < len && o == q * n + r && o + (n - r) <= len * n
            && Rem(o + (n - r), n) == 0 && Quot(o + (n - r), n) == q + 1
  {
    hide Quot, Rem;
    var q, r := Quot(o, n), Rem(o, n);
    QuotRem(o, n);
    if q >= len {
      MulGap(n, len - 1, q);
    }
    MulDist(q, 1, n);
    if q + 1 < len {
      MulGap(n, q + 1, len);
    }
    QuotRemUnique(n, q + 1, 0, o + (n - r));
  }

  lemma QuotRemUnique(n: nat, q: nat, r: nat, x: nat)
    requires n > 0 && r < n && x == q * n + r
    ensures Quot(x, n) == q && Rem(x, n) == r
  {
    DivModUnique(n, q, r, x);
  }

  lemma WholeIsAligned(dm: Dmd)
    requires dm.Valid()
    ensures Rem(0, dm.recsiz) == 0 && Quot(0, dm.recsiz) == 0
    ensures Rem(dm.ClBytes(), dm.recsiz) == 0 && Quot(dm.ClBytes(), dm.recsiz) == dm.clsiz
    ensures dm.recsiz <= dm.ClBytes()
  {
    DivModUnique(dm.recsiz, 0, 0, 0);
    DivModUnique(dm.recsiz, dm.clsiz, 0, dm.ClBytes());
    if 1 < dm.clsiz { MulGap(dm.recsiz, 1, dm.clsiz); }
  }

  /** A position that is not at a record boundary is inside its cluster. */
  lemma PosInside(p: Ofd, dm: Dmd, ch: seq<nat>, k: int, o: nat)
    requires dm.Valid() && PosAt(p, dm, ch, k, o) && Rem(p.curbyt, dm.recsiz) != 0
    ensures 0 <= k < |ch| && p.curbyt == o < dm.ClBytes() && o > 0 && 2 <= ch[k]
    ensures p.currec == Cl2Rec(ch[k], dm) && p.bytnum == k * dm.ClBytes() + o
  {
    hide Cl2Rec, Rem;
    WholeIsAligned(dm);
  }

  /** Part of the record at the position; the descriptor moves on. */
  method HeadPart(ghost io: Io, c: Cache, dm: Dmd, wrt: bool, p: Ofd, rec: nat, off: nat, len: nat, ubuf: array<Byte>,
                  ghost ch: seq<nat>, ghost k: nat, ghost o: nat, ghost at: nat)
    requires Here(io, c, p, ubuf, ch, 0, k, o) && dm == io.dm && wrt == io.wrt && len <= ubuf.Length
    requires dm.InRegion(Data, rec) && off + len <= dm.recsiz && Target(io, ch, 0, k, 1, o, len, at) && at == rec * dm.recsiz + off
    requires p.curbyt == o && o + len <= dm.ClBytes() && len < dm.ClBytes()
    modifies c, ubuf, p`curbyt, p`bytnum, p.dfd`fileln, p.dfd`dirty
    ensures Here(io, c, p, ubuf, ch, len, k, o + len) && p.curbyt == o + len
  {
    hide Cache.Valid, Cache.CopiesMirrored, Table, Moved, HasDrive, Cl2Rec, InRun;
    XferPart(io, c, dm, wrt, p, rec, off, len, ubuf, 0, ch, k, o, at);
    Addit(p, dm, len);
  }

  /** Where the bytes of the current record go. */
  lemma HeadTarget(io: Io, dm: Dmd, ch: seq<nat>, k: nat, o: nat, rec: nat, off: nat, len: nat) returns (at: nat)
    requires dm.Valid() && k < |ch| && 2 <= ch[k] < dm.numcl + 2 && 0 < o < dm.ClBytes() && io.dm == dm
    requires rec == Quot(o, dm.recsiz) + Cl2Rec(ch[k], dm) && off == Rem(o, dm.recsiz) && len <= dm.recsiz - off
    requires k * dm.ClBytes() + o == io.b0
    ensures at == rec * dm.recsiz + off && dm.InRegion(Data, rec) && Target(io, ch, 0, k, 1, o, len, at)
    ensures o + len <= dm.ClBytes()
    ensures off + len == dm.recsiz ==> Rem(o + len, dm.recsiz) == 0 && Quot(o + len, dm.recsiz) == Quot(o, dm.recsiz) + 1
  {
    hide Cl2Rec, Rem, Quot, InRun;
    BytePlace(dm, ch[k], o);
    InCluster(dm, ch, k, o, len);
    at := rec * dm.recsiz + off;
  }

  /** The bytes up to the end of the current record, if the position is inside one. */
  method HeadBytes(ghost io: Io, c: Cache, dm: Dmd, wrt: bool, p: Ofd, len: nat, ubuf: array<Byte>,
                   ghost ch: seq<nat>, ghost k: int, ghost o: nat) returns (n: nat, recn: nat, ghost o': nat)
    requires Here(io, c, p, ubuf, ch, 0, k, o) && dm == io.dm && wrt == io.wrt && len <= ubuf.Length
    modifies c, ubuf, p`curbyt, p`bytnum, p.dfd`fileln, p.dfd`dirty
    ensures Here(io, c, p, ubuf, ch, n, k, o') && n <= len && o' == o + n
    ensures n < len ==> StartsAt(p, dm, recn)
  {
    hide Cache.Valid, Cache.CopiesMirrored, Table, Moved, HasDrive, PosAt, Cl2Rec, Rem, Quot, Target;
    DriveOf(io, c, p, ubuf, ch, 0);
    TableSize(io, c, p, ubuf, ch, 0);
    WholeIsAligned(dm);
    n, o' := 0, o;
    recn := Quot(p.curbyt, dm.recsiz);
    var bytn := Rem(p.curbyt, dm.recsiz);
    recn := recn + p.currec;
    if bytn != 0 {
      PosInside(p, dm, ch, k, o);
      var lenxfr := if len < dm.recsiz - bytn then len else dm.recsiz - bytn;
      ghost var at := HeadTarget(io, dm, ch, k, o, recn, bytn, lenxfr);
      HeadPart(io, c, dm, wrt, p, recn, bytn, lenxfr, ubuf, ch, k, o, at);
      n, o' := lenxfr, o + lenxfr;
      recn := recn + 1;
    }
  }

  /** A position is at a record boundary of its cluster exactly when it is at one of the file. */
  lemma AlignedPosition(p: Ofd, dm: Dmd, ch: seq<nat>, k: int, o: nat)
    requires dm.Valid() && PosAt(p, dm, ch, k, o)
    ensures Rem(p.curbyt, dm.recsiz) == Rem(p.bytnum, dm.recsiz)
  {
    WholeIsAligned(dm);
    QuotRem(o, dm.recsiz);
    var q, r := Quot(o, dm.recsiz), Rem(o, dm.recsiz);
    MulAssocInt(k, dm.clsiz, dm.recsiz);
    assert p.bytnum == (k * dm.clsiz + q) * dm.recsiz + r;
    DivModUnique(dm.recsiz, k * dm.clsiz + q, r, p.bytnum);
  }

  lemma MulAssocInt(a: int, b: nat, c: nat)
    ensures a * b * c == a * (b * c)
  {
  }

  lemma StaysAligned(x: nat, num: nat, n: nat)
    requires n > 0 && Rem(x, n) == 0
    ensures num * n >= 0 && Rem(x + num * n, n) == 0
  {
    QuotRem(x, n);
    DivModUnique(n, Quot(x, n) + num, 0, x + num * n);
  }

  /** The cluster for the tail bytes: the current one if the position is inside it, else the next. */
  method TailCluster(ghost io: Io, c: Cache, dm: Dmd, wrt: bool, p: Ofd, ubuf: array<Byte>, ghost n: nat,
                     ghost ch: seq<nat>, ghost k: int, ghost o: nat)
    returns (ok: bool, recn: nat, ghost ch': seq<nat>, ghost k': int, ghost x: nat)
    requires Here(io, c, p, ubuf, ch, n, k, o) && dm == io.dm && wrt == io.wrt && dm.recsiz > 0 && Rem(p.curbyt, dm.recsiz) == 0
    modifies c, p, p.dfd
    ensures Running(io, c, p, ubuf, ch', n) && Counted(io, p, n)
    ensures !ok ==> PosAt(p, dm, ch', k', dm.ClBytes()) && AtEnd(io, c.contents, ch', k', dm.ClBytes())
    ensures ok ==> 0 <= k' < |ch'| && 2 <= ch'[k'] && p.curcl == ch'[k'] && p.currec == Cl2Rec(ch'[k'], dm) && p.curbyt == x
    ensures ok ==> p.bytnum == k' * dm.ClBytes() + x && x == recn * dm.recsiz && x < dm.ClBytes()
  {
    hide Running, Counted, Table, HasDrive, Cl2Rec, Rem, Quot, Full;
    DriveOf(io, c, p, ubuf, ch, n);
    WholeIsAligned(dm);
    QuotRem(p.curbyt, dm.recsiz);
    ok, ch', k', x := true, ch, k, o;
    recn := Quot(p.curbyt, dm.recsiz);
    if recn == 0 || recn == dm.clsiz {
      ok, ch' := Advance(io, c, dm, wrt, p, ubuf, n, ch, k);
      recn, x := 0, 0;
      k' := if ok then k + 1 else k;
    }
  }

  /** The bytes at the start of one more record. */
  method TailBytes(ghost io: Io, c: Cache, dm: Dmd, wrt: bool, p: Ofd, lentail: nat, ubuf: array<Byte>, n: nat,
                   ghost ch: seq<nat>, ghost k: int, ghost o: nat)
    returns (ok: bool, n': nat, ghost ch': seq<nat>, ghost k': int, ghost o': nat)
    requires Here(io, c, p, ubuf, ch, n, k, o) && dm == io.dm && wrt == io.wrt && dm.recsiz > 0 && Rem(p.curbyt, dm.recsiz) == 0
    requires 0 < lentail < dm.recsiz && n + lentail <= ubuf.Length
    modifies c, p, p.dfd, ubuf
    ensures Here(io, c, p, ubuf, ch', n', k', o')
    ensures ok ==> n' == n + lentail
    ensures !ok ==> n' == n && AtEnd(io, c.contents, ch', k', o')
  {
    hide Cache.Valid, Cache.CopiesMirrored, Table, Moved, HasDrive, Cl2Rec, Rem, Quot, InRun, Full;
    DriveOf(io, c, p, ubuf, ch, n);
    var recn; ghost var x;
    ok, recn, ch', k', x := TailCluster(io, c, dm, wrt, p, ubuf, n, ch, k, o);
    n', o' := n, dm.ClBytes();
    if !ok {
      return;
    }
    TableSize(io, c, p, ubuf, ch', n);
    RecordInCluster(dm, ch'[k'], recn);
    InCluster(dm, ch', k', x, lentail);
    ghost var at: nat := (p.currec + recn) * dm.recsiz;
    WholeIsAligned(dm);
    XferPart(io, c, dm, wrt, p, p.currec + recn, 0, lentail, ubuf, n, ch', k', x, at);
    Addit(p, dm, lentail);
    n', o' := n + lentail, x + lentail;
  }

  lemma RecordInCluster(dm: Dmd, cl: nat, q: nat)
    requires dm.Valid() && 2 <= cl < dm.numcl + 2 && q * dm.recsiz < dm.ClBytes()
    ensures Cl2Rec(cl, dm) + q < dm.RegionLen(Data) && q * dm.recsiz + dm.recsiz <= dm.ClBytes()
    ensures 0 <= (Cl2Rec(cl, dm) + q) * dm.recsiz == (cl - 2) * dm.ClBytes() + q * dm.recsiz
  {
    if q >= dm.clsiz { if q > dm.clsiz { MulGap(dm.recsiz, dm.clsiz, q); } }
    MulGap(dm.recsiz, q, dm.clsiz);
    MulAssoc(cl - 2, dm.clsiz, dm.recsiz);
    MulDist(Cl2Rec(cl, dm), q, dm.recsiz);
    MulGap(dm.clsiz, cl - 2, dm.numcl);
  }

  lemma MulDist(a: nat, b: nat, n: nat)
    ensures 0 <= (a + b) * n == a * n + b * n
  {
  }

  /** The bytes from position `b` to the end of its cluster; none at a cluster boundary. */
  function Room(b: nat, cb: nat): (r: nat)
    requires cb > 0
  {
    if Rem(b, cb) == 0 then 0 else cb - Rem(b, cb)
  }

  /** What is tried of a request of `len` bytes at position `b`. */
  function TriedAt(b: nat, cb: nat, len: nat): (n: nat)
    requires cb > 0
    ensures n <= len
  {
    TriedWholeIff(cb, Room(b, cb), len);
    Tried(cb, Room(b, cb), len)
  }

  lemma RoomIs(p: Ofd, dm: Dmd, ch: seq<nat>, k: int, o: nat)
    requires dm.ClBytes() > 0 && PosAt(p, dm, ch, k, o)
    ensures Room(p.bytnum, dm.ClBytes()) == dm.ClBytes() - o
  {
    hide Rem, Cl2Rec;
    var cb := dm.ClBytes();
    if o == cb {
      NextBoundary(p, dm, ch, k);
      QuotRemUnique(cb, k + 1, 0, p.bytnum);
    } else {
      QuotRemUnique(cb, k, o, p.bytnum);
    }
  }

  /** A request is tried as a whole exactly if fewer than 65536 whole clusters follow the current one. */
  lemma TriedAtWholeIff(b: nat, cb: nat, len: nat)
    requires cb > 0
    ensures TriedAt(b, cb, len) == len <==> len < Room(b, cb) + 0x10000 * cb
  {
    TriedWholeIff(cb, Room(b, cb), len);
  }

  /** What fits into a chain is tried as a whole. */
  lemma TriedInChain(m: Medium, dm: Dmd, start: Link, ch: seq<nat>, b: nat, len: nat)
    requires OnDrive(m, dm, start, ch) && dm.ClBytes() > 0 && b + len <= |ch| * dm.ClBytes()
    ensures TriedAt(b, dm.ClBytes(), len) == len
  {
    hide Table, TriedAt, Room;
    ShortChain(m, dm, start, ch);
    MulGap(dm.ClBytes(), |ch|, 0x10000);
    TriedAtWholeIff(b, dm.ClBytes(), len);
  }

  /** Read or write `len` bytes at the position of the descriptor. The result is the number of bytes
      transferred, which falls short of what is tried only at the end of the chain (with no free cluster
      left, to write). */
  method Xrw(c: Cache, dm: Dmd, wrt: bool, p: Ofd, len: nat, ubuf: array<Byte>, ghost ch: seq<nat>, ghost k: int, ghost o: nat)
    returns (n: nat, ghost io: Io, ghost ch': seq<nat>, ghost k': int, ghost o': nat)
    requires c.Valid() && c.Mounted(dm) && HasDrive(c.contents, dm) && IsChain(Table(c.contents, dm), p.dfd.strtcl, ch)
    requires PosAt(p, dm, ch, k, o) && p.bytnum <= p.dfd.fileln && len <= ubuf.Length
    modifies c, p, p.dfd, ubuf
    ensures io == Io(dm, wrt, old(c.contents), ch, old(ubuf[..]), old(p.bytnum), old(p.dfd.fileln), old(c.CopiesMirrored()))
    ensures Here(io, c, p, ubuf, ch', n, k', o') && dm.ClBytes() > 0 && n <= TriedAt(old(p.bytnum), dm.ClBytes(), len)
    ensures n < TriedAt(old(p.bytnum), dm.ClBytes(), len) ==> AtEnd(io, c.contents, ch', k', o')
  {
    hide HasDrive, Table, Cl2Rec, Rem, Quot, Full, Moved, IsChain, ListOk, MediumOk, DrivesOk, Mirrored, MruFirst, AtEnd, PosAt, Room, Tried;
    io := Io(dm, wrt, c.contents, ch, ubuf[..], p.bytnum, p.dfd.fileln, c.CopiesMirrored());
    InChain(p, dm, ch, k, o);
    MovedStart(io, p.dfd.strtcl);
    DriveOf(io, c, p, ubuf, ch, 0);
    RoomIs(p, dm, ch, k, o);
    n, ch', k', o' := XrwFrom(io, c, dm, wrt, p, len, ubuf, ch, k, o);
  }

  lemma InChain(p: Ofd, dm: Dmd, ch: seq<nat>, k: int, o: nat)
    requires PosAt(p, dm, ch, k, o)
    ensures p.bytnum <= |ch| * dm.ClBytes()
  {
    if k + 1 < |ch| { MulGap(dm.ClBytes(), k + 1, |ch|); }
    assert (k + 1) * dm.ClBytes() == k * dm.ClBytes() + dm.ClBytes();
  }

  lemma TriedSmall(cb: nat, room: nat, len: nat)
    requires cb > 0 && len <= room
    ensures Tried(cb, room, len) == len
  {
    MulZero(cb);
  }

  /** Header bytes, records and tail bytes are tried one after the other. */
  lemma TriedParts(dm: Dmd, o: nat, h: nat, num: nat, tail: nat)
    requires dm.Valid() && dm.ClBytes() > 0 && o + h <= dm.ClBytes() && Rem(o + h, dm.recsiz) == 0 && tail < dm.recsiz && num * dm.recsiz >= 0
    ensures Tried(dm.ClBytes(), dm.ClBytes() - o, h + num * dm.recsiz + tail) ==
            h + Tried(dm.ClBytes(), dm.ClBytes() - o - h, num * dm.recsiz) + tail
  {
    hide Quot, Rem, Clno, Dmd.ClBytes;
    var cb, room := dm.ClBytes(), dm.ClBytes() - o - h;
    RoomInRecords(dm, o + h);
    var q := dm.clsiz - Quot(o + h, dm.recsiz);
    ClustersParts(dm, q, num, tail);
    assert h + num * dm.recsiz + tail - (cb - o) == num * dm.recsiz + tail - room;
  }

  /** What is left of a cluster at a record boundary, in records. */
  lemma RoomInRecords(dm: Dmd, x: nat)
    requires dm.Valid() && x <= dm.ClBytes() && Rem(x, dm.recsiz) == 0
    ensures Quot(x, dm.recsiz) <= dm.clsiz && dm.ClBytes() - x == (dm.clsiz - Quot(x, dm.recsiz)) * dm.recsiz
  {
    hide Quot, Rem;
    QuotRem(x, dm.recsiz);
    var q := Quot(x, dm.recsiz);
    if q > dm.clsiz { MulGap(dm.recsiz, dm.clsiz, q); }
    CutBack(dm.clsiz, q, dm.recsiz);
  }

  /** The tail bytes do not add a whole cluster. */
  lemma ClustersParts(dm: Dmd, q: nat, num: nat, tail: nat)
    requires dm.Valid() && dm.ClBytes() > 0 && tail < dm.recsiz
    ensures 0 <= q * dm.recsiz && 0 <= num * dm.recsiz
    ensures Clusters(dm.ClBytes(), q * dm.recsiz, num * dm.recsiz + tail) == Clusters(dm.ClBytes(), q * dm.recsiz, num * dm.recsiz)
  {
    hide Quot, Rem, Dmd.ClBytes;
    WholeIsAligned(dm);
    ProductsAre(dm, q, num);
    if num > q {
      var m := num - q;
      Pieces(dm, m);
      var a, r := Quot(m, dm.clsiz), Rem(m, dm.clsiz);
      TailRoom(dm, r, tail);
      QuotRemUnique(dm.ClBytes(), a, r * dm.recsiz, m * dm.recsiz);
      QuotRemUnique(dm.ClBytes(), a, r * dm.recsiz + tail, m * dm.recsiz + tail);
    } else if num * dm.recsiz + tail > q * dm.recsiz {
      QuotRemUnique(dm.ClBytes(), 0, num * dm.recsiz + tail - q * dm.recsiz, num * dm.recsiz + tail - q * dm.recsiz);
    }
  }

  lemma ProductsAre(dm: Dmd, q: nat, num: nat)
    requires dm.Valid()
    ensures 0 <= q * dm.recsiz && 0 <= num * dm.recsiz && 0 * dm.ClBytes() == 0
    ensures num > q ==> num * dm.recsiz - q * dm.recsiz == (num - q) * dm.recsiz > 0
    ensures num <= q ==> num * dm.recsiz <= q * dm.recsiz
  {
    if num > q { MulGap(dm.recsiz, q, num); CutBack(num, num - q, dm.recsiz); }
    if num < q { MulGap(dm.recsiz, num, q); }
  }

  lemma TailRoom(dm: Dmd, r: nat, tail: nat)
    requires dm.Valid() && r < dm.clsiz && tail < dm.recsiz
    ensures 0 <= r * dm.recsiz && r * dm.recsiz + tail < dm.ClBytes()
  {
    MulGap(dm.recsiz, r, dm.clsiz);
  }

  lemma BoundaryOf(p: Ofd, dm: Dmd, ch: seq<nat>, k: int, o: nat)
    requires dm.Valid() && PosAt(p, dm, ch, k, o) && Rem(p.curbyt, dm.recsiz) == 0
    ensures Rem(o, dm.recsiz) == 0 && 0 < o <= dm.ClBytes()
  {
    hide Rem, Cl2Rec;
    WholeIsAligned(dm);
  }

  lemma StartIs(p: Ofd, dm: Dmd, startrec: nat)
    requires StartsAt(p, dm, startrec)
    ensures dm.recsiz > 0 && Rem(p.curbyt, dm.recsiz) == 0
  {
  }

  /** What is tried of whole records is whole records, and nothing of none. */
  lemma TriedAligned(dm: Dmd, room: nat, num: nat)
    requires dm.Valid() && dm.ClBytes() > 0 && num * dm.recsiz >= 0
    ensures 0 <= Tried(dm.ClBytes(), room, num * dm.recsiz) <= num * dm.recsiz
    ensures Rem(Tried(dm.ClBytes(), room, num * dm.recsiz), dm.recsiz) == 0
    ensures num == 0 ==> Tried(dm.ClBytes(), room, num * dm.recsiz) == 0
  {
    hide Quot, Rem, Clno;
    TriedWholeIff(dm.ClBytes(), room, num * dm.recsiz);
    var q := Clusters(dm.ClBytes(), room, num * dm.recsiz);
    var t, d := Tried(dm.ClBytes(), room, num * dm.recsiz), q - Clno(q);
    MulAssocInt(d, dm.clsiz, dm.recsiz);
    RecordMultiple(num, d * dm.clsiz, dm.recsiz, t);
  }

  lemma RecordMultiple(a: nat, b: int, n: nat, t: nat)
    requires n > 0 && t == a * n - b * n
    ensures Rem(t, n) == 0
  {
    CutBackInt(a, b, n);
    if a - b < 0 { MulGap(n, a - b, 0); }
    DivModUnique(n, a - b, 0, t);
  }

  lemma CutBackInt(a: int, b: int, n: int)
    ensures a * n - b * n == (a - b) * n
  {
  }

  lemma AddAligned(x: nat, y: nat, n: nat)
    requires n > 0 && Rem(x, n) == 0 && Rem(y, n) == 0
    ensures Rem(x + y, n) == 0
  {
    QuotRem(y, n);
    StaysAligned(x, Quot(y, n), n);
  }

  method XrwFrom(ghost io: Io, c: Cache, dm: Dmd, wrt: bool, p: Ofd, len: nat, ubuf: array<Byte>, ghost ch: seq<nat>, ghost k: int, ghost o: nat)
    returns (n: nat, ghost ch': seq<nat>, ghost k': int, ghost o': nat)
    requires Here(io, c, p, ubuf, ch, 0, k, o) && dm == io.dm && wrt == io.wrt && len <= ubuf.Length
    modifies c, p, p.dfd, ubuf
    ensures Here(io, c, p, ubuf, ch', n, k', o') && 0 < o <= dm.ClBytes() && n <= Tried(dm.ClBytes(), dm.ClBytes() - o, len)
    ensures n < Tried(dm.ClBytes(), dm.ClBytes() - o, len) ==> AtEnd(io, c.contents, ch', k', o')
  {
    hide HasDrive, Table, Cl2Rec, Rem, Quot, Full, Running, AtEnd, PosAt, StartsAt, Tried, Dmd.ClBytes;
    DriveOf(io, c, p, ubuf, ch, 0);
    PosRoom(p, dm, ch, k, o);
    var recn;
    n, recn, o' := HeadBytes(io, c, dm, wrt, p, len, ubuf, ch, k, o);
    PosRoom(p, dm, ch, k, o');
    ch', k' := ch, k;
    var left := len - n;
    QuotRem(left, dm.recsiz);
    var lentail := Rem(left, dm.recsiz);
    var numrecs := Quot(left, dm.recsiz);
    if left == 0 {
      TriedSmall(dm.ClBytes(), dm.ClBytes() - o, len);
      return;
    }
    StartIs(p, dm, recn);
    BoundaryOf(p, dm, ch, k, o');
    AlignedPosition(p, dm, ch', k', o');
    TriedParts(dm, o, n, numrecs, lentail);
    TriedAligned(dm, dm.ClBytes() - o', numrecs);
    ghost var b1, t := p.bytnum, Tried(dm.ClBytes(), dm.ClBytes() - o', numrecs * dm.recsiz);
    if numrecs != 0 {
      var ok;
      ok, n, ch', k', o' := XrwRecs(io, c, dm, wrt, p, recn, numrecs, ubuf, n, ch', k', o');
      if !ok {
        return;
      }
      AddAligned(b1, t, dm.recsiz);
      AlignedPosition(p, dm, ch', k', o');
    }
    if lentail != 0 {
      var ok;
      ok, n, ch', k', o' := TailBytes(io, c, dm, wrt, p, lentail, ubuf, n, ch', k', o');
    }
  }

  // ---------- What the user sees

  /** `ch` is the chain of a file on the medium. */
  ghost predicate OnDrive(m: Medium, dm: Dmd, start: Link, ch: seq<nat>) {
    HasDrive(m, dm) && IsChain(Table(m, dm), start, ch)
  }

  /** The bytes of the clusters of a file; the file is the first `fileln` of them. */
  ghost function Bytes(m: Medium, dm: Dmd, start: Link, ch: seq<nat>): (s: seq<Byte>)
    requires OnDrive(m, dm, start, ch)
    ensures |s| == |ch| * dm.ClBytes()
  {
    ChainFits(m, dm, start, ch);
    FileBytes(Image(m, dm, Data), dm.ClBytes(), ch)
  }

  /** Every file that shares no cluster with `ch` has kept its chain and its bytes. */
  ghost predicate OthersKept(m: Medium, m': Medium, dm: Dmd, ch: seq<nat>) {
    forall start2, ch2 :: OnDrive(m, dm, start2, ch2) && Disjoint(ch, ch2) ==>
      OnDrive(m', dm, start2, ch2) && Bytes(m', dm, start2, ch2) == Bytes(m, dm, start2, ch2)
  }

  lemma OutsideByte(cb: nat, ch: seq<nat>, ch2: seq<nat>, j: nat)
    requires cb > 0 && Disjoint(ch, ch2) && j < |ch2| * cb
    ensures PlaceIn(cb, ch2, j) / cb + 2 !in ch
  {
    RecordOf(|ch2|, cb, j);
    DivModUnique(cb, ch2[j / cb] as int - 2, j % cb, PlaceIn(cb, ch2, j));
  }

  lemma OtherKept(io: Io, m: Medium, ch: seq<nat>, s: seq<Byte>, n: nat, start2: Link, ch2: seq<nat>)
    requires Moved(io, m, ch, s, n) && OnDrive(io.m0, io.dm, start2, ch2) && Disjoint(io.ch0, ch2)
    ensures OnDrive(m, io.dm, start2, ch2) && Bytes(m, io.dm, start2, ch2) == Bytes(io.m0, io.dm, start2, ch2)
  {
    hide Table, Image, HasDrive;
    MovedDrive(io, m, ch, s, n);
    var cb, img0, img := io.dm.ClBytes(), Image(io.m0, io.dm, Data), Image(m, io.dm, Data);
    SmallTable(io.m0, io.dm);
    GrownOther(Table(io.m0, io.dm), Table(m, io.dm), io.ch0, ch, start2, ch2);
    ChainFits(io.m0, io.dm, start2, ch2);
    ChainFits(m, io.dm, start2, ch2);
    forall j | 0 <= j < |ch2| * cb
      ensures FileByte(img, cb, ch2, j) == FileByte(img0, cb, ch2, j)
    {
      OutsideByte(cb, ch, ch2, j);
      PlaceInBounds(img, cb, ch2, j);
    }
  }

  lemma SmallTable(m: Medium, dm: Dmd)
    requires HasDrive(m, dm)
    ensures TableOk(Table(m, dm))
  {
  }

  /** The bytes read are the bytes of the file at the position. */
  lemma MovedIn(io: Io, m: Medium, ch: seq<nat>, s: seq<Byte>, n: nat, start: Link)
    requires !io.wrt && Moved(io, m, ch, s, n) && OnDrive(io.m0, io.dm, start, io.ch0)
    ensures m == io.m0 && ch == io.ch0 && n <= |io.s0| == |s| && io.b0 + n <= |ch| * io.dm.ClBytes()
    ensures s == Splice(io.s0, 0, Bytes(io.m0, io.dm, start, ch)[io.b0..io.b0 + n])
  {
    hide Table, Image, HasDrive, IsChain;
    ChainFits(m, io.dm, start, ch);
    var img, cb, f := Image(m, io.dm, Data), io.dm.ClBytes(), Bytes(io.m0, io.dm, start, ch);
    var t := Splice(io.s0, 0, f[io.b0..io.b0 + n]);
    forall i | 0 <= i < |s|
      ensures s[i] == t[i]
    {
      assert s[i] == if i < n then FileByte(img, cb, ch, io.b0 + i) else io.s0[i];
    }
  }

  /** The bytes written are the bytes of the file at the position, and no other byte has changed. */
  lemma MovedOut(io: Io, m: Medium, ch: seq<nat>, s: seq<Byte>, n: nat, start: Link)
    requires io.wrt && Moved(io, m, ch, s, n) && IsChain(Table(m, io.dm), start, ch)
    ensures s == io.s0 && n <= |s| && io.b0 + n <= |ch| * io.dm.ClBytes()
    ensures OnDrive(m, io.dm, start, ch) && HasRegion(io.m0, io.dm, Data) && Fits(Image(io.m0, io.dm, Data), io.dm.ClBytes(), ch)
    ensures Bytes(m, io.dm, start, ch) ==
            Splice(FileBytes(Image(io.m0, io.dm, Data), io.dm.ClBytes(), ch), io.b0, s[..n])
  {
    hide Table, Image, IsChain;
    ChainFits(m, io.dm, start, ch);
    var img0, img, cb := Image(io.m0, io.dm, Data), Image(m, io.dm, Data), io.dm.ClBytes();
    forall j | 0 <= j < |ch| * cb
      ensures FileByte(img, cb, ch, j) == Splice(FileBytes(img0, cb, ch), io.b0, s[..n])[j]
    {
    }
  }

  /** Read: the bytes of the file from the position on, as many as are tried of those asked for and in the
      file, up to the end of its chain. */
  method IxRead(c: Cache, dm: Dmd, p: Ofd, len: int, ubuf: array<Byte>, ghost ch: seq<nat>, ghost k: int, ghost o: nat)
    returns (n: nat, ghost k': int, ghost o': nat)
    requires c.Valid() && c.Mounted(dm) && OnDrive(c.contents, dm, p.dfd.strtcl, ch)
    requires PosAt(p, dm, ch, k, o) && p.bytnum <= p.dfd.fileln && len <= ubuf.Length
    modifies c, p, p.dfd, ubuf
    ensures c.Valid() && c.contents == old(c.contents) && p.dfd.strtcl == old(p.dfd.strtcl) && p.dfd.fileln == old(p.dfd.fileln)
    ensures PosAt(p, dm, ch, k', o') && p.bytnum == old(p.bytnum) + n
    ensures dm.ClBytes() > 0
    ensures var l := Min(if len < 0 then 0 else len, p.dfd.fileln - old(p.bytnum));
            n == Min(TriedAt(old(p.bytnum), dm.ClBytes(), l), |ch| * dm.ClBytes() - old(p.bytnum))
    ensures OnDrive(c.contents, dm, p.dfd.strtcl, ch) && n <= ubuf.Length && old(p.bytnum) + n <= |ch| * dm.ClBytes()
    ensures ubuf[..] == Splice(old(ubuf[..]), 0, Bytes(c.contents, dm, p.dfd.strtcl, ch)[old(p.bytnum)..old(p.bytnum) + n])
    ensures old(c.CopiesMirrored()) ==> c.CopiesMirrored()
  {
    hide Table, Image, HasDrive, Moved, ListOk, MediumOk, DrivesOk, Mirrored, MruFirst, Splice, Bytes, Full, IsChain, TriedAt;
    var maxlen := p.dfd.fileln - p.bytnum;
    var l := if len > maxlen then maxlen else len;
    ghost var b := p.bytnum;
    InChain(p, dm, ch, k, o);
    DriveIsValid(c.contents, dm);
    if l > 0 {
      ghost var io, ch', start := *, *, p.dfd.strtcl;
      n, io, ch', k', o' := Xrw(c, dm, false, p, l, ubuf, ch, k, o);
      MovedIn(io, c.contents, ch', ubuf[..], n, start);
      SameStart(Table(c.contents, dm), start, p.dfd.strtcl, ch);
      if n < TriedAt(b, dm.ClBytes(), l) { AtEndPosition(p, dm, ch, k', o'); }
    } else {
      n, k', o' := 0, k, o;
      ClBytesPositive(dm);
      NothingTried(b, dm.ClBytes());
      NoSplice(ubuf[..], Bytes(c.contents, dm, p.dfd.strtcl, ch), p.bytnum);
    }
  }

  lemma NothingTried(b: nat, cb: nat)
    requires cb > 0
    ensures TriedAt(b, cb, 0) == 0
  {
  }

  lemma DriveIsValid(m: Medium, dm: Dmd)
    requires HasDrive(m, dm)
    ensures dm.Valid()
  {
  }

  lemma SameStart(tab: seq<Link>, a: Link, b: Link, ch: seq<nat>)
    requires IsChain(tab, a, ch) && IsChain(tab, b, ch)
    ensures a == b
  {
  }

  lemma AtEndPosition(p: Ofd, dm: Dmd, ch: seq<nat>, k: int, o: nat)
    requires PosAt(p, dm, ch, k, o) && k == |ch| - 1 && o == dm.ClBytes()
    ensures p.bytnum == |ch| * dm.ClBytes()
  {
    assert k * dm.ClBytes() + dm.ClBytes() == (k + 1) * dm.ClBytes();
  }

  lemma NoSplice(s: seq<Byte>, f: seq<Byte>, b: nat)
    requires b <= |f|
    ensures s == Splice(s, 0, f[b..b])
  {
  }

  /** The clusters a file has once it is written up to byte position `e`. */
  function Extent(clusters: nat, e: nat, cb: nat): (n: nat)
    requires cb > 0
  {
    if e <= clusters * cb then clusters else (e - 1) / cb + 1
  }

  /** That is the least number that is no less than before and reaches that far. */
  lemma ExtentIs(clusters: nat, e: nat, cb: nat, n: nat)
    requires cb > 0
    ensures n == Extent(clusters, e, cb) <==>
              clusters <= n && e <= n * cb && (n > clusters ==> (n - 1) * cb < e)
  {
    if e > clusters * cb {
      var q := (e - 1) / cb;
      QuotRem(e - 1, cb);
      OneMore(q, cb, cb);
      if q < clusters { MulGap(cb, q, clusters); }
      if n > q + 1 { MulGap(cb, q, n - 1); }
      if n < q + 1 && n < q { MulGap(cb, n, q); }
    } else if n > clusters {
      if n - 1 > clusters { MulGap(cb, clusters, n - 1); }
    }
  }

  /** A write takes free clusters as far as it gets and no further, and gets as far as there are any. */
  ghost predicate Taken(tab: seq<Link>, tab': seq<Link>, ch: seq<nat>, ch': seq<nat>, b: nat, cb: nat, len: nat, n: nat) {
    && cb > 0 && b <= |ch| * cb <= (|ch| + FreeCount(tab)) * cb
    && n == Min(TriedAt(b, cb, len), (|ch| + FreeCount(tab)) * cb - b)
    && |ch'| == Extent(|ch|, b + n, cb)
    && FreeCount(tab') + |ch'| == FreeCount(tab) + |ch|
  }

  /** A chain that has grown has done so up to the position. */
  lemma GrownTight(io: Io, c: Cache, p: Ofd, ubuf: array<Byte>, ch: seq<nat>, n: nat, k: int, o: nat)
    requires Here(io, c, p, ubuf, ch, n, k, o)
    ensures |ch| > |io.ch0| ==> k == |ch| - 1
    ensures 0 < o <= io.dm.ClBytes() && -1 <= k < |ch| && io.b0 + n == k * io.dm.ClBytes() + o
  {
    hide Cache.Valid, Cache.CopiesMirrored, Table, Moved, HasDrive, Cl2Rec;
    TableSize(io, c, p, ubuf, ch, n);
    SmallTable(c.contents, io.dm);
    ChainAcyclic(Table(c.contents, io.dm), p.dfd.strtcl, ch);
  }

  lemma ExtentReached(clusters: nat, clusters': nat, cb: nat, k: int, o: nat)
    requires clusters <= clusters' && -1 <= k < clusters' && 0 < o <= cb && k * cb + o >= 0
    requires clusters' > clusters ==> k == clusters' - 1
    ensures clusters' == Extent(clusters, k * cb + o, cb) && k * cb + o <= clusters' * cb
  {
    if k < clusters' - 1 { MulGap(cb, k + 1, clusters'); }
    OneMore(0, cb, cb);
    assert (k + 1) * cb == k * cb + cb;
    if clusters' > clusters { MulGap(cb, clusters' - 1, clusters'); }
    ExtentIs(clusters, k * cb + o, cb, clusters');
  }

  lemma NoLess(a: nat, b: nat, cb: nat)
    requires a <= b
    ensures a * cb <= b * cb
  {
    if a < b { MulGap(cb, a, b); }
  }

  lemma WriteTakes(io: Io, c: Cache, p: Ofd, ubuf: array<Byte>, start: Link, ch: seq<nat>, n: nat, k: int, o: nat, len: nat)
    requires Here(io, c, p, ubuf, ch, n, k, o) && io.wrt && io.dm.ClBytes() > 0 && n <= TriedAt(io.b0, io.dm.ClBytes(), len)
    requires n < TriedAt(io.b0, io.dm.ClBytes(), len) ==> AtEnd(io, c.contents, ch, k, o)
    requires io.b0 <= |io.ch0| * io.dm.ClBytes()
    requires HasDrive(io.m0, io.dm) && IsChain(Table(io.m0, io.dm), start, io.ch0)
    ensures HasDrive(c.contents, io.dm)
    ensures Taken(Table(io.m0, io.dm), Table(c.contents, io.dm), io.ch0, ch, io.b0, io.dm.ClBytes(), len, n)
  {
    hide Cache.Valid, Cache.CopiesMirrored, Table, HasDrive, BytesMoved, PosAt, IsChain, Grown, TriedAt, Extent, FreeCount, Full, HasRegion, Image, OnlyFiles;
    ghost var cb, tab, tab' := io.dm.ClBytes(), Table(io.m0, io.dm), Table(c.contents, io.dm);
    SmallTable(io.m0, io.dm);
    GrownFree(tab, tab', start, p.dfd.strtcl, io.ch0, ch);
    GrownPrefix(tab, tab', io.ch0, ch);
    GrownTight(io, c, p, ubuf, ch, n, k, o);
    ExtentReached(|io.ch0|, |ch|, cb, k, o);
    NoLess(|ch|, |io.ch0| + FreeCount(tab), cb);
    NoLess(|io.ch0|, |io.ch0| + FreeCount(tab), cb);
    FullIff(tab');
    assert k * cb + cb == (k + 1) * cb;
  }

  /** Write: the bytes go into the file at the position, which extends the file if need be; the result falls
      short of what is tried only if the volume is full. */
  method IxWrite(c: Cache, dm: Dmd, p: Ofd, len: nat, ubuf: array<Byte>, ghost ch: seq<nat>, ghost k: int, ghost o: nat)
    returns (n: nat, ghost ch': seq<nat>, ghost k': int, ghost o': nat)
    requires c.Valid() && c.Mounted(dm) && OnDrive(c.contents, dm, p.dfd.strtcl, ch)
    requires PosAt(p, dm, ch, k, o) && p.bytnum <= p.dfd.fileln && len <= ubuf.Length
    modifies c, p, p.dfd, ubuf
    ensures c.Valid() && OnDrive(c.contents, dm, p.dfd.strtcl, ch') && OnlyFiles(old(c.contents), c.contents, dm)
    ensures Grown(Table(old(c.contents), dm), Table(c.contents, dm), ch, ch')
    ensures PosAt(p, dm, ch', k', o') && p.bytnum == old(p.bytnum) + n
    ensures p.dfd.fileln == if p.bytnum > old(p.dfd.fileln) then p.bytnum else old(p.dfd.fileln)
    ensures dm.ClBytes() > 0 && n <= TriedAt(old(p.bytnum), dm.ClBytes(), len)
    ensures n < TriedAt(old(p.bytnum), dm.ClBytes(), len) ==> Full(Table(c.contents, dm)) && p.bytnum == |ch'| * dm.ClBytes()
    ensures !Full(Table(c.contents, dm)) ==> (n == len <==> len < Room(old(p.bytnum), dm.ClBytes()) + 0x10000 * dm.ClBytes())
    ensures ubuf[..] == old(ubuf[..]) && old(p.bytnum) + n <= |ch'| * dm.ClBytes()
    ensures HasRegion(old(c.contents), dm, Data) && Fits(Image(old(c.contents), dm, Data), dm.ClBytes(), ch')
    ensures Bytes(c.contents, dm, p.dfd.strtcl, ch') ==
            Splice(FileBytes(Image(old(c.contents), dm, Data), dm.ClBytes(), ch'), old(p.bytnum), ubuf[..n])
    ensures OthersKept(old(c.contents), c.contents, dm, ch)
    ensures Taken(Table(old(c.contents), dm), Table(c.contents, dm), ch, ch', old(p.bytnum), dm.ClBytes(), len, n)
    ensures old(c.CopiesMirrored()) ==> c.CopiesMirrored()
  {
    hide Table, Image, HasDrive, BytesMoved, ListOk, MediumOk, DrivesOk, Mirrored, MruFirst, Splice, Bytes, Full, IsChain, Grown, FileBytes, Fits, TriedAt, Room, Taken;
    ghost var io, b, start := *, p.bytnum, p.dfd.strtcl;
    InChain(p, dm, ch, k, o);
    n, io, ch', k', o' := Xrw(c, dm, true, p, len, ubuf, ch, k, o);
    WriteTakes(io, c, p, ubuf, start, ch', n, k', o', len);
    MovedOut(io, c.contents, ch', ubuf[..], n, p.dfd.strtcl);
    assert ubuf[..][..n] == ubuf[..n];
    forall start2, ch2 | OnDrive(io.m0, dm, start2, ch2) && Disjoint(ch, ch2)
      ensures OnDrive(c.contents, dm, start2, ch2) && Bytes(c.contents, dm, start2, ch2) == Bytes(io.m0, dm, start2, ch2)
    {
      OtherKept(io, c.contents, ch', ubuf[..], n, start2, ch2);
    }
    TriedAtWholeIff(b, dm.ClBytes(), len);
    if n < TriedAt(b, dm.ClBytes(), len) { AtEndPosition(p, dm, ch', k', o'); }
  }

  // ---------- Seeking

  datatype SeekResult = Sought(pos: nat) | Erange | Eintrn

  /** The cluster of the chain that byte position `n` belongs to: at a boundary the one before. */
  function ClusterOf(n: nat, cb: nat): (k: nat)
    requires n > 0 && cb > 0
  {
    (n - 1) / cb
  }

  /** The number of links to follow from cluster `from` to the cluster of position `n`, in 16 bits. */
  function Hops(n: nat, cb: nat, from: nat): (h: nat)
    requires n > 0 && cb > 0
  {
    Clno(ClusterOf(n, cb) - from)
  }

  lemma ClusterOfIs(n: nat, cb: nat)
    requires n > 0 && cb > 0
    ensures var k := ClusterOf(n, cb);
            && k == Quot(n, cb) - (if Rem(n, cb) == 0 then 1 else 0)
            && n == k * cb + (if Rem(n, cb) == 0 then cb else Rem(n, cb))
  {
    QuotRem(n, cb);
    var q, r := Quot(n, cb), Rem(n, cb);
    if r == 0 {
      assert q == 0 ==> q * cb == 0;
      assert n - 1 == (q - 1) * cb + (cb - 1);
      DivModUnique(cb, q - 1, cb - 1, n - 1);
    } else {
      DivModUnique(cb, q, r - 1, n - 1);
    }
  }

  /** The cluster a descriptor is at is the one its position belongs to. */
  lemma PosCluster(p: Ofd, dm: Dmd, ch: seq<nat>, k: int, o: nat)
    requires dm.ClBytes() > 0 && PosAt(p, dm, ch, k, o) && p.bytnum > 0
    ensures k == ClusterOf(p.bytnum, dm.ClBytes()) && (o == dm.ClBytes() <==> Rem(p.bytnum, dm.ClBytes()) == 0)
  {
    var cb := dm.ClBytes();
    DivModUnique(cb, k, o - 1, p.bytnum - 1);
    if o == cb {
      assert p.bytnum == (k + 1) * cb;
      DivModUnique(cb, k + 1, 0, p.bytnum);
    } else {
      DivModUnique(cb, k, o, p.bytnum);
    }
  }

  /** Follow `hops` links of a chain. */
  method Follow(c: Cache, dm: Dmd, start: Link, ghost first: Link, ghost ch: seq<nat>, ghost from: nat, hops: nat)
    returns (ok: bool, clx: Link)
    requires c.Valid() && c.Mounted(dm) && OnDrive(c.contents, dm, first, ch) && from < |ch| && start == ch[from]
    modifies c
    ensures c.Valid() && c.contents == old(c.contents) && (old(c.CopiesMirrored()) ==> c.CopiesMirrored())
    ensures ok <==> from + hops < |ch|
    ensures ok ==> clx == ch[from + hops]
  {
    hide Table, HasDrive, ListOk, MediumOk, DrivesOk, Mirrored, MruFirst;
    clx, ok := start, true;
    SmallTable(c.contents, dm);
    var i := 0;
    while i < hops
      invariant c.Valid() && c.contents == old(c.contents) && (old(c.CopiesMirrored()) ==> c.CopiesMirrored())
      invariant i <= hops && from + i < |ch| && clx == ch[from + i] && ok
    {
      clx := GetRealCl(c, dm, clx);
      LinkEnds(Table(c.contents, dm), first, ch, from + i, clx);
      if EndOfChain(clx) {
        return false, clx;
      }
      i := i + 1;
    }
  }

  /** The 16-bit arithmetic of the cluster count comes out at the number of hops. */
  lemma HopCount(n: nat, cb: nat, from: nat, clnum: Link, boundary: bool)
    requires n > 0 && cb > 0 && boundary == (Rem(n, cb) == 0)
    requires clnum == Clno(Clno(Quot(n, cb)) - from)
    ensures (if boundary then Clno(clnum - 1) else clnum) == Hops(n, cb, from)
  {
    hide Quot, Rem, ClusterOf;
    ClusterOfIs(n, cb);
  }

  /** The cluster count of the current position, adjusted at a boundary. */
  lemma CurrentCount(p: Ofd, dm: Dmd, ch: seq<nat>, k: int, o: nat)
    requires dm.Valid() && PosAt(p, dm, ch, k, o) && p.curcl != 0 && |ch| <= 0xfff8 && dm.ClBytes() > 0
    ensures 0 <= k < |ch| && p.curcl == ch[k]
    ensures var cur := Clno(Quot(p.bytnum, dm.ClBytes()));
            k == if (p.curbyt == 0 || p.curbyt == dm.ClBytes()) && p.bytnum != 0 then Clno(cur - 1) else cur
  {
    hide Quot, Rem;
    assert k * dm.ClBytes() >= 0;
    ClusterOfIs(p.bytnum, dm.ClBytes());
    PosCluster(p, dm, ch, k, o);
  }

  /** Where the walk to a position starts: at the current cluster if it lies ahead, else at the first. */
  ghost function WalkFrom(p: Ofd, k: int, n: int): (from: nat)
    reads p
  {
    if p.curcl != 0 && n >= p.bytnum && k >= 0 then k else 0
  }

  /** The cluster of the chain that the walk leads to. */
  function Reach(n: nat, cb: nat, from: nat): (k: nat)
    requires n > 0 && cb > 0
  {
    from + Hops(n, cb, from)
  }

  /** How many links to follow, and from which cluster. */
  method SeekPlan(dm: Dmd, p: Ofd, n: nat, ghost ch: seq<nat>, ghost k: int, ghost o: nat)
    returns (clnum: Link, clx: Link, ghost from: nat)
    requires dm.Valid() && PosAt(p, dm, ch, k, o) && dm.ClBytes() > 0 && n > 0 && ch != [] && |ch| <= 0xfff8
    requires p.dfd.strtcl == ch[0]
    ensures from == WalkFrom(p, k, n) < |ch| && clx == ch[from] && clnum == Hops(n, dm.ClBytes(), from)
  {
    hide Quot, Rem, Hops, Cl2Rec, Clno, PosAt;
    var cb := dm.ClBytes();
    clnum := Clno(Quot(n, cb));
    ClnoAgain(Quot(n, cb));
    from := 0;
    if p.curcl != 0 && n >= p.bytnum {
      CurrentCount(p, dm, ch, k, o);
      var curnum: int := Clno(Quot(p.bytnum, cb));
      if (p.curbyt == 0 || p.curbyt == cb) && p.bytnum != 0 {
        curnum := Clno(curnum - 1);
      }
      clnum := Clno(clnum - curnum);
      clx := p.curcl;
      from := k;
    } else {
      clx := p.dfd.strtcl;
    }
    HopCount(n, cb, from, clnum, Rem(n, cb) == 0);
    if Rem(n, cb) == 0 {
      clnum := Clno(clnum - 1);
    }
  }

  lemma ClnoAgain(x: int)
    ensures Clno(Clno(x) - 0) == Clno(x)
  {
  }

  lemma FirstOf(m: Medium, dm: Dmd, start: Link, ch: seq<nat>)
    requires OnDrive(m, dm, start, ch) && ch != []
    ensures start == ch[0]
  {
    hide Table;
  }

  /** Seek to byte `n`: by following links from the current cluster or from the first one. */
  method IxLseek(c: Cache, dm: Dmd, p: Ofd, n: int, ghost ch: seq<nat>, ghost k: int, ghost o: nat)
    returns (r: SeekResult, ghost k': int, ghost o': nat)
    requires c.Valid() && c.Mounted(dm) && OnDrive(c.contents, dm, p.dfd.strtcl, ch)
    requires PosAt(p, dm, ch, k, o) && dm.ClBytes() > 0 && (0 < n <= p.dfd.fileln ==> ch != [])
    modifies c, p
    ensures c.Valid() && c.contents == old(c.contents) && (old(c.CopiesMirrored()) ==> c.CopiesMirrored())
    ensures r == Erange <==> n < 0 || n > p.dfd.fileln
    ensures r == Eintrn <==> 0 < n <= p.dfd.fileln && Reach(n, dm.ClBytes(), old(WalkFrom(p, k, n))) >= |ch|
    ensures r.Sought? ==> r.pos == n == p.bytnum
    ensures r == Sought(0) ==> PosAt(p, dm, ch, k', o')
    ensures r.Sought? && n > 0 ==>
              && k' == Reach(n, dm.ClBytes(), old(WalkFrom(p, k, n))) < |ch| && p.curcl == ch[k']
              && 2 <= ch[k'] && p.currec == Cl2Rec(ch[k'], dm) && p.curbyt == Rem(n, dm.ClBytes())
    ensures !r.Sought? ==> p.bytnum == old(p.bytnum) && p.curcl == old(p.curcl) && p.currec == old(p.currec) && p.curbyt == old(p.curbyt)
  {
    hide Table, HasDrive, ListOk, MediumOk, DrivesOk, Mirrored, MruFirst, Quot, Rem, Hops, Cl2Rec;
    k', o' := k, o;
    if n < 0 || n > p.dfd.fileln {
      return Erange, k, o;
    }
    if n == 0 {
      p.curcl, p.currec, p.bytnum, p.curbyt := 0, 0, 0, 0;
      return Sought(0), -1, dm.ClBytes();
    }
    var cb := dm.ClBytes();
    ShortChain(c.contents, dm, p.dfd.strtcl, ch);
    FirstOf(c.contents, dm, p.dfd.strtcl, ch);
    var clnum, clx; ghost var from;
    clnum, clx, from := SeekPlan(dm, p, n, ch, k, o);
    var ok;
    ok, clx := Follow(c, dm, clx, p.dfd.strtcl, ch, from, clnum);
    if !ok {
      return Eintrn, k, o;
    }
    p.curcl := clx;
    p.currec := Cl2Rec(clx, dm);
    p.bytnum := n;
    p.curbyt := Rem(n, cb);
    r, k', o' := Sought(n), from + clnum, if p.curbyt == 0 then cb else p.curbyt;
  }

  /** A chain has no more clusters than the drive. */
  lemma ShortChain(m: Medium, dm: Dmd, start: Link, ch: seq<nat>)
    requires OnDrive(m, dm, start, ch)
    ensures dm.Valid() && |ch| <= dm.numcl <= 0xfff6
  {
    hide Table;
    SmallTable(m, dm);
    ChainAcyclic(Table(m, dm), start, ch);
    CountDistinct(ch, dm.numcl + 2);
  }

  lemma {:induction false} CountDistinct(ch: seq<nat>, bound: nat)
    requires NoDups(ch) && bound >= 2 && forall i :: 0 <= i < |ch| ==> 2 <= ch[i] < bound
    ensures |ch| <= bound - 2
    decreases bound
  {
    assert |ch| > 0 ==> 2 <= ch[0] < bound;
    if bound > 2 {
      var last := bound - 1;
      if last in ch {
        var i :| 0 <= i < |ch| && ch[i] == last;
        CountDistinct(ch[..i] + ch[i + 1..], last);
      } else {
        CountDistinct(ch, last);
      }
    }
  }

  lemma ClusterOfMonotone(m: nat, n: nat, cb: nat)
    requires 0 < m <= n && cb > 0
    ensures ClusterOf(m, cb) <= ClusterOf(n, cb)
  {
    var a, b := ClusterOf(m, cb), ClusterOf(n, cb);
    if b < a { MulGap(cb, b, a); }
  }

  lemma ClusterOfBound(n: nat, cb: nat, l: nat)
    requires n > 0 && cb > 0
    ensures ClusterOf(n, cb) < l <==> n <= l * cb
  {
    var k := ClusterOf(n, cb);
    if k < l { MulGap(cb, k, l); }
    if k > l { MulGap(cb, l, k); }
  }

  /** The walk leads to the cluster of the position exactly when that lies fewer than 65536 clusters ahead;
      so for positions up to 65536 clusters going on from the current cluster is the same as starting over. */
  lemma SeekReaches(n: nat, cb: nat, from: nat)
    requires n > 0 && cb > 0 && from <= ClusterOf(n, cb)
    ensures Reach(n, cb, from) == ClusterOf(n, cb) <==> ClusterOf(n, cb) - from < 0x10000
    ensures n <= 0x10000 * cb ==> Reach(n, cb, from) == ClusterOf(n, cb)
  {
    hide ClusterOf;
    ClusterOfBound(n, cb, 0x10000);
  }

  /** A walk to a position in the chain arrives there. A walk to a position beyond it stays inside the
      chain exactly when the 16-bit count has lost a multiple of 65536 and what is left of it is short
      enough: the seek then succeeds where it should fail. */
  lemma SeekWraps(n: nat, cb: nat, from: nat, len: nat)
    requires n > 0 && cb > 0 && from < len <= 0xfff6 && from <= ClusterOf(n, cb)
    ensures n <= len * cb ==> Reach(n, cb, from) == ClusterOf(n, cb) < len
    ensures n > len * cb ==>
              (Reach(n, cb, from) < len <==> n > 0x10000 * cb && (ClusterOf(n, cb) - from) % 0x10000 < len - from)
  {
    hide ClusterOf;
    ClusterOfBound(n, cb, len);
    ClusterOfBound(n, cb, 0x10000);
  }

  /** For example: a length of 65536 clusters of 512 bytes and one byte. The walk from the first cluster
      stays there; the one from the second goes beyond the chain, as it should. */
  lemma SeekWrapsExample()
    ensures var n := 0x10000 * 512 + 1; ClusterOf(n, 512) == 0x10000 && Reach(n, 512, 0) == 0
    ensures var n := 0x10000 * 512 + 1; Reach(n, 512, 1) == 0x10000
  {
    hide ClusterOf, Reach;
    ExampleCluster();
    WrapsAt(0x10000 * 512 + 1, 512);
  }

  lemma WrapsAt(n: nat, cb: nat)
    requires n > 0 && cb > 0 && ClusterOf(n, cb) == 0x10000
    ensures Reach(n, cb, 0) == 0 && Reach(n, cb, 1) == 0x10000
  {
    hide ClusterOf;
  }

  lemma ExampleCluster()
    ensures ClusterOf(0x10000 * 512 + 1, 512) == 0x10000
  {
    DivModUnique(512, 0x10000, 0, 0x10000 * 512);
  }

  /** The descriptor after a seek that has led to the right cluster. */
  lemma SeekPosition(p: Ofd, dm: Dmd, ch: seq<nat>, n: nat)
    requires n > 0 && dm.ClBytes() > 0 && p.bytnum == n && ClusterOf(n, dm.ClBytes()) < |ch|
    requires var k := ClusterOf(n, dm.ClBytes()); 2 <= ch[k] && p.curcl == ch[k] && p.currec == Cl2Rec(ch[k], dm)
    requires p.curbyt == Rem(n, dm.ClBytes())
    ensures PosAt(p, dm, ch, ClusterOf(n, dm.ClBytes()), if p.curbyt == 0 then dm.ClBytes() else p.curbyt)
  {
    hide ClusterOf, Cl2Rec;
    ClusterOfIs(n, dm.ClBytes());
  }

  /** Inside the chain a seek succeeds from any position, and leaves a proper position behind. */
  method SeekInside(c: Cache, dm: Dmd, p: Ofd, n: nat, ghost ch: seq<nat>, ghost k: int, ghost o: nat)
    returns (ghost k': int, ghost o': nat)
    requires c.Valid() && c.Mounted(dm) && OnDrive(c.contents, dm, p.dfd.strtcl, ch)
    requires PosAt(p, dm, ch, k, o) && dm.ClBytes() > 0 && n <= p.dfd.fileln && n <= |ch| * dm.ClBytes()
    modifies c, p
    ensures c.Valid() && c.contents == old(c.contents) && PosAt(p, dm, ch, k', o') && p.bytnum == n
  {
    hide Table, HasDrive, IsChain, ListOk, MediumOk, DrivesOk, Mirrored, MruFirst, Reach, ClusterOf, Cl2Rec, Rem;
    ghost var from := WalkFrom(p, k, n);
    if n > 0 {
      WalkStart(p, dm, ch, k, o, n);
      SeekBack(c.contents, dm, p.dfd.strtcl, ch, n, from);
    }
    var r;
    r, k', o' := IxLseek(c, dm, p, n, ch, k, o);
    if n > 0 {
      o' := if p.curbyt == 0 then dm.ClBytes() else p.curbyt;
      SeekPosition(p, dm, ch, n);
    }
  }

  lemma WalkStart(p: Ofd, dm: Dmd, ch: seq<nat>, k: int, o: nat, n: nat)
    requires PosAt(p, dm, ch, k, o) && dm.ClBytes() > 0 && n > 0
    ensures WalkFrom(p, k, n) <= ClusterOf(n, dm.ClBytes())
  {
    if p.curcl != 0 && n >= p.bytnum && k >= 0 {
      assert k * dm.ClBytes() >= 0;
      PosCluster(p, dm, ch, k, o);
      ClusterOfMonotone(p.bytnum, n, dm.ClBytes());
    }
  }

  /** What has been written at a position is what is read there. */
  method WriteSeekRead(c: Cache, dm: Dmd, p: Ofd, data: array<Byte>, back: array<Byte>, ghost ch: seq<nat>, ghost k: int, ghost o: nat)
    returns (n: nat, m: nat)
    requires c.Valid() && c.Mounted(dm) && OnDrive(c.contents, dm, p.dfd.strtcl, ch) && dm.ClBytes() > 0
    requires PosAt(p, dm, ch, k, o) && p.bytnum <= p.dfd.fileln && data != back && data.Length <= back.Length
    modifies c, p, p.dfd, data, back
    ensures m == n <= TriedAt(old(p.bytnum), dm.ClBytes(), data.Length) && back[..n] == old(data[..])[..n]
  {
    hide Table, Image, HasDrive, IsChain, Grown, OnlyFiles, OthersKept, Full, ListOk, MediumOk, DrivesOk, Mirrored, MruFirst, FileBytes, Bytes, Fits, PosAt, Splice, TriedAt, Room;
    var b := p.bytnum;
    ghost var ch1, k1, o1;
    n, ch1, k1, o1 := IxWrite(c, dm, p, data.Length, data, ch, k, o);
    ghost var f := FileBytes(Image(old(c.contents), dm, Data), dm.ClBytes(), ch1);
    ghost var s := data[..n];
    k1, o1 := SeekInside(c, dm, p, b, ch1, k1, o1);
    ghost var t := back[..];
    TriedInChain(c.contents, dm, p.dfd.strtcl, ch1, b, n);
    m, k1, o1 := IxRead(c, dm, p, n, back, ch1, k1, o1);
    ReadBack(f, s, b, t, back[..]);
    assert back[..][..n] == back[..n];
  }

  lemma ReadBack(f: seq<Byte>, s: seq<Byte>, b: nat, t: seq<Byte>, t': seq<Byte>)
    requires b + |s| <= |f| && |s| <= |t| && t' == Splice(t, 0, Splice(f, b, s)[b..b + |s|])
    ensures |t'| == |t| && t'[..|s|] == s
  {
  }

  lemma SeekBack(m: Medium, dm: Dmd, start: Link, ch: seq<nat>, n: nat, from: nat)
    requires OnDrive(m, dm, start, ch) && dm.ClBytes() > 0 && 0 < n <= |ch| * dm.ClBytes() && from <= ClusterOf(n, dm.ClBytes())
    ensures Reach(n, dm.ClBytes(), from) == ClusterOf(n, dm.ClBytes()) < |ch|
  {
    hide Table, ClusterOf, Reach;
    ShortChain(m, dm, start, ch);
    ClusterOfBound(n, dm.ClBytes(), |ch|);
    MulGap(dm.ClBytes(), |ch|, 0x10000);
    SeekReaches(n, dm.ClBytes(), from);
  }
}
