/** The write-back sector buffers of the file system: flush, getbcb and getrec, and the direct
    transfers of usrio that go round them. */
module FsCache {
  import opened Basics
  import opened FsMedia

  type Sector = seq<Byte>
  type Medium = map<Addr, Sector>
  type Drives = map<nat, Dmd>

  /** Buffer control block with its sector. `id` stands for the address of the block; `drv == -1`
      marks the buffer as not in use. */
  datatype Bcb = Bcb(id: nat, drv: int, typ: BufType, rec: nat, dirty: bool, dm: Dmd, data: Sector)
  {
    predicate Live() { drv != -1 }

    function At(): (a: Addr) { dm.At(typ, rec) }

    predicate Has(dm: Dmd, typ: BufType, rec: nat) {
      drv == dm.drvnum && this.typ == typ && this.rec == rec
    }
  }

  /** There are two lists of buffers: one for the FAT and one for everything else. */
  function OnFatList(t: BufType): (fat: bool) { t == Fat }

  const BI_FAT := 0
  const BI_DATA := 1

  function Index(t: BufType): (bi: nat) { if t == Fat then BI_FAT else BI_DATA }

  ghost predicate DrivesOk(drives: Drives) {
    forall d :: d in drives ==> drives[d].Valid() && drives[d].drvnum == d
  }

  /** The record is one that the buffers of list `fat` (or the other list) stand for. */
  ghost predicate Served(drives: Drives, fat: bool, a: Addr) {
    && a.drv in drives && drives[a.drv].Holds(a.rec)
    && (fat <==> drives[a.drv].fatrec <= a.rec < drives[a.drv].fatrec + drives[a.drv].fsiz)
  }

  ghost predicate Logical(drives: Drives, a: Addr) {
    a.drv in drives && drives[a.drv].Holds(a.rec)
  }

  ghost predicate BufOk(drives: Drives, fat: bool, b: Bcb, disk: Medium, contents: Medium) {
    b.Live() ==>
      && b.drv in drives && b.dm == drives[b.drv] && b.dm.InRegion(b.typ, b.rec)
      && OnFatList(b.typ) == fat
      && b.At() in contents && b.data == contents[b.At()]
      && (!b.dirty ==> b.At() in disk && disk[b.At()] == b.data)
  }

  ghost predicate Covered(bufs: seq<Bcb>, a: Addr) {
    exists i :: 0 <= i < |bufs| && bufs[i].Live() && bufs[i].At() == a
  }

  /** No two buffers in use hold the same record, and no block is listed twice. */
  ghost predicate Unique(bufs: seq<Bcb>) {
    forall i, j :: 0 <= i < j < |bufs| ==>
      bufs[i].id != bufs[j].id && (bufs[i].Live() && bufs[j].Live() ==> bufs[i].At() != bufs[j].At())
  }

  /** List `bufs` on medium `disk` represents `contents`: a buffer in use holds the record, and where
      there is none the medium does. */
  ghost predicate ListOk(drives: Drives, fat: bool, bufs: seq<Bcb>, disk: Medium, contents: Medium) {
    && |bufs| > 0 && Unique(bufs)
    && (forall i :: 0 <= i < |bufs| ==> BufOk(drives, fat, bufs[i], disk, contents))
    && (forall a :: Served(drives, fat, a) && !Covered(bufs, a) ==>
          a in disk && a in contents && disk[a] == contents[a])
  }

  ghost predicate MediumOk(drives: Drives, contents: Medium) {
    && (forall a :: a in contents <==> Logical(drives, a))
    && (forall a :: a in contents ==> |contents[a]| == drives[a.drv].recsiz)
  }

  /** A list of buffers that hold nothing. */
  lemma FreshList(drives: Drives, fat: bool, bufs: seq<Bcb>, disk: Medium, contents: Medium)
    requires |bufs| > 0 && Unique(bufs) && forall b :: b in bufs ==> !b.Live()
    requires forall a :: Logical(drives, a) ==> a in disk && a in contents && contents[a] == disk[a]
    ensures ListOk(drives, fat, bufs, disk, contents)
  {
    forall i | 0 <= i < |bufs|
      ensures !bufs[i].Live()
    {
      assert bufs[i] in bufs;
    }
  }

  /** The medium after buffer `b` has been written out: to both copies if it is a FAT record. */
  function Flushed(b: Bcb, disk: Medium): (d: Medium)
    requires b.typ == Fat && !b.dm.oneFat ==> b.dm.Valid()
  {
    var d := disk[b.At() := b.data];
    if b.typ == Fat && !b.dm.oneFat then d[b.dm.MirrorAt(b.rec) := b.data] else d
  }

  ghost predicate SameOn(drives: Drives, fat: bool, m: Medium, n: Medium) {
    forall a :: Served(drives, fat, a) ==> (a in m <==> a in n) && (a in m ==> m[a] == n[a])
  }

  lemma BufServed(drives: Drives, fat: bool, b: Bcb, disk: Medium, contents: Medium)
    requires DrivesOk(drives) && BufOk(drives, fat, b, disk, contents) && b.Live()
    ensures Served(drives, fat, b.At()) && !Served(drives, !fat, b.At())
  {
    AtInjective(b.dm, b.typ, b.rec, b.typ, b.rec);
  }

  /** What happens to the records of one list does not concern the other. */
  lemma ListFrame(drives: Drives, fat: bool, bufs: seq<Bcb>, disk: Medium, contents: Medium,
                  disk': Medium, contents': Medium)
    requires DrivesOk(drives) && ListOk(drives, fat, bufs, disk, contents)
    requires SameOn(drives, fat, disk, disk') && SameOn(drives, fat, contents, contents')
    ensures ListOk(drives, fat, bufs, disk', contents')
  {
    forall i | 0 <= i < |bufs| && bufs[i].Live()
      ensures BufOk(drives, fat, bufs[i], disk', contents')
    {
      BufServed(drives, fat, bufs[i], disk, contents);
    }
  }

  /** Writing a buffer out changes the medium only at its own record and its mirror. */
  lemma FlushedAt(drives: Drives, fat: bool, b: Bcb, disk: Medium, contents: Medium, a: Addr)
    requires DrivesOk(drives) && BufOk(drives, fat, b, disk, contents) && b.Live()
    requires Logical(drives, a)
    ensures var d := Flushed(b, disk);
            if a == b.At() then a in d && d[a] == b.data
            else (a in d <==> a in disk) && (a in d ==> d[a] == disk[a])
  {
    BufServed(drives, fat, b, disk, contents);
  }

  lemma FlushKeepsList(drives: Drives, fat: bool, bufs: seq<Bcb>, disk: Medium, contents: Medium, k: nat)
    requires DrivesOk(drives) && ListOk(drives, fat, bufs, disk, contents)
    requires k < |bufs| && bufs[k].Live()
    ensures bufs[k].dm.Valid()
    ensures ListOk(drives, fat, bufs[k := bufs[k].(dirty := false)], Flushed(bufs[k], disk), contents)
  {
    var b, d, s := bufs[k], Flushed(bufs[k], disk), bufs[k := bufs[k].(dirty := false)];
    assert BufOk(drives, fat, b, disk, contents);
    forall i | 0 <= i < |s|
      ensures BufOk(drives, fat, s[i], d, contents)
    {
      if bufs[i].Live() {
        BufServed(drives, fat, bufs[i], disk, contents);
        FlushedAt(drives, fat, b, disk, contents, bufs[i].At());
      }
    }
    forall a | Served(drives, fat, a) && !Covered(s, a)
      ensures a in d && a in contents && d[a] == contents[a]
    {
      assert s[k].Live() && s[k].At() == b.At();
      assert forall i :: 0 <= i < |bufs| && bufs[i].Live() && bufs[i].At() == a ==> s[i].Live() && s[i].At() == a;
      assert !Covered(bufs, a);
      FlushedAt(drives, fat, b, disk, contents, a);
    }
  }

  /** A clean buffer can be given up: the medium has its record. */
  lemma DropKeepsList(drives: Drives, fat: bool, bufs: seq<Bcb>, disk: Medium, contents: Medium, k: nat)
    requires DrivesOk(drives) && ListOk(drives, fat, bufs, disk, contents)
    requires k < |bufs| && (bufs[k].Live() ==> !bufs[k].dirty)
    ensures ListOk(drives, fat, bufs[k := bufs[k].(drv := -1)], disk, contents)
  {
    var s := bufs[k := bufs[k].(drv := -1)];
    assert BufOk(drives, fat, bufs[k], disk, contents);
    forall a | Covered(bufs, a) && !(bufs[k].Live() && a == bufs[k].At())
      ensures Covered(s, a)
    {
      var i :| 0 <= i < |bufs| && bufs[i].Live() && bufs[i].At() == a;
      assert s[i].Live() && s[i].At() == a;
    }
  }

  /** An unused buffer can take in a record that no other buffer holds. */
  lemma LoadKeepsList(drives: Drives, fat: bool, bufs: seq<Bcb>, disk: Medium, contents: Medium, k: nat, b: Bcb)
    requires DrivesOk(drives) && ListOk(drives, fat, bufs, disk, contents)
    requires k < |bufs| && !bufs[k].Live() && b.Live() && !b.dirty && b.id == bufs[k].id
    requires b.drv in drives && b.dm == drives[b.drv] && b.dm.InRegion(b.typ, b.rec) && OnFatList(b.typ) == fat
    requires !Covered(bufs, b.At())
    requires b.At() in disk && b.data == disk[b.At()]
    ensures ListOk(drives, fat, bufs[k := b], disk, contents)
  {
    var s := bufs[k := b];
    AtInjective(b.dm, b.typ, b.rec, b.typ, b.rec);
    assert Served(drives, fat, b.At());
    assert BufOk(drives, fat, b, disk, contents);
    forall i, j | 0 <= i < j < |s|
      ensures s[i].id != s[j].id && (s[i].Live() && s[j].Live() ==> s[i].At() != s[j].At())
    {
      assert bufs[i].id != bufs[j].id;
    }
    forall a | Covered(bufs, a)
      ensures Covered(s, a)
    {
      var i :| 0 <= i < |bufs| && bufs[i].Live() && bufs[i].At() == a;
      assert s[i].Live() && s[i].At() == a;
    }
  }

  /** Element `k` of `s` moved to the front. */
  function MoveToFront<T>(s: seq<T>, k: nat): (r: seq<T>)
    requires k < |s|
  {
    [s[k]] + s[..k] + s[k + 1..]
  }

  /** Where the elements of a list come from once element `k` is at the front. */
  function FrontSource(k: nat, i: nat): (j: nat) {
    if i == 0 then k else if i <= k then i - 1 else i
  }

  lemma MoveToFrontAt<T>(s: seq<T>, k: nat)
    requires k < |s|
    ensures |MoveToFront(s, k)| == |s|
    ensures forall i :: 0 <= i < |s| ==> MoveToFront(s, k)[i] == s[FrontSource(k, i)]
    ensures multiset(MoveToFront(s, k)) == multiset(s)
  {
    assert s == s[..k] + [s[k]] + s[k + 1..];
  }

  lemma MoveKeepsList(drives: Drives, fat: bool, bufs: seq<Bcb>, disk: Medium, contents: Medium, k: nat)
    requires ListOk(drives, fat, bufs, disk, contents) && k < |bufs|
    ensures ListOk(drives, fat, MoveToFront(bufs, k), disk, contents)
  {
    var s := MoveToFront(bufs, k);
    MoveToFrontAt(bufs, k);
    forall i, j | 0 <= i < j < |s|
      ensures s[i].id != s[j].id && (s[i].Live() && s[j].Live() ==> s[i].At() != s[j].At())
    {
      var x, y := FrontSource(k, i), FrontSource(k, j);
      assert x < y || y < x;
    }
    forall a | Covered(bufs, a)
      ensures Covered(s, a)
    {
      var i :| 0 <= i < |bufs| && bufs[i].Live() && bufs[i].At() == a;
      var j := if i == k then 0 else if i < k then i + 1 else i;
      assert s[j] == bufs[i];
    }
  }

  /** Changing the sector of a dirty buffer changes what is represented at that record alone. */
  lemma StoreKeepsList(drives: Drives, fat: bool, bufs: seq<Bcb>, disk: Medium, contents: Medium, k: nat, data: Sector)
    requires DrivesOk(drives) && ListOk(drives, fat, bufs, disk, contents)
    requires k < |bufs| && bufs[k].Live()
    ensures ListOk(drives, fat, bufs[k := bufs[k].(dirty := true, data := data)], disk, contents[bufs[k].At() := data])
  {
    var s, c := bufs[k := bufs[k].(dirty := true, data := data)], contents[bufs[k].At() := data];
    forall i | 0 <= i < |s|
      ensures BufOk(drives, fat, s[i], disk, c)
    {
      assert BufOk(drives, fat, bufs[i], disk, contents);
      assert i != k && bufs[i].Live() ==> bufs[i].At() != bufs[k].At();
    }
    forall a | Served(drives, fat, a) && !Covered(s, a)
      ensures a in disk && a in c && disk[a] == c[a]
    {
      assert s[k].Live() && s[k].At() == bufs[k].At();
      assert forall i :: 0 <= i < |bufs| && bufs[i].Live() && bufs[i].At() == a ==> s[i].Live() && s[i].At() == a;
      assert !Covered(bufs, a);
    }
  }

  /** Transfers straight to records that no buffer holds. */
  lemma DirectKeepsList(drives: Drives, fat: bool, bufs: seq<Bcb>, disk: Medium, contents: Medium, recs: Medium)
    requires DrivesOk(drives) && ListOk(drives, fat, bufs, disk, contents)
    requires forall a :: a in recs ==> !Covered(bufs, a)
    ensures ListOk(drives, fat, bufs, disk + recs, contents + recs)
  {
    forall i | 0 <= i < |bufs|
      ensures BufOk(drives, fat, bufs[i], disk + recs, contents + recs)
    {
      assert BufOk(drives, fat, bufs[i], disk, contents);
      if bufs[i].Live() { assert Covered(bufs, bufs[i].At()); }
    }
  }

  /** A record is in a buffer of its list exactly when the search of the list finds it. */
  lemma CoveredIffHas(drives: Drives, bufs: seq<Bcb>, disk: Medium, contents: Medium, dm: Dmd, typ: BufType, rec: nat)
    requires DrivesOk(drives) && ListOk(drives, OnFatList(typ), bufs, disk, contents)
    requires dm.drvnum in drives && drives[dm.drvnum] == dm && dm.InRegion(typ, rec)
    ensures Covered(bufs, dm.At(typ, rec)) <==> exists i :: 0 <= i < |bufs| && bufs[i].Has(dm, typ, rec)
  {
    forall i | 0 <= i < |bufs|
      ensures bufs[i].Live() && bufs[i].At() == dm.At(typ, rec) <==> bufs[i].Has(dm, typ, rec)
    {
      assert BufOk(drives, OnFatList(typ), bufs[i], disk, contents);
      if bufs[i].Live() && bufs[i].dm == dm {
        AtInjective(dm, typ, rec, bufs[i].typ, bufs[i].rec);
      }
    }
  }

  /** The buffer to reuse for a record that is in none: the last one not in use, else the last. */
  ghost predicate IsVictim(bufs: seq<Bcb>, k: nat) {
    && k < |bufs|
    && (forall i :: k < i < |bufs| ==> bufs[i].Live())
    && (bufs[k].Live() ==> k == |bufs| - 1 && forall i :: 0 <= i < |bufs| ==> bufs[i].Live())
  }

  ghost predicate Absent(bufs: seq<Bcb>, dm: Dmd, typ: BufType, rec: nat) {
    forall i :: 0 <= i < |bufs| ==> !bufs[i].Has(dm, typ, rec)
  }

  /** Buffer `b`, in place `k` of list `bufs`, is the one getbcb picks for a record: the one that holds
      it already, or else a victim newly filled. */
  ghost predicate Fetched(bufs: seq<Bcb>, k: nat, b: Bcb, dm: Dmd, typ: BufType, rec: nat) {
    && k < |bufs| && b.id == bufs[k].id && b.Has(dm, typ, rec) && b.dm == dm
    && (b.dirty ==> b == bufs[k])
    && (bufs[k].Has(dm, typ, rec) || (IsVictim(bufs, k) && Absent(bufs, dm, typ, rec)))
  }

  ghost predicate DirtyAt(bufs: seq<Bcb>, a: Addr) {
    exists i :: 0 <= i < |bufs| && bufs[i].Live() && bufs[i].dirty && bufs[i].At() == a
  }

  ghost predicate CopiesAgree(dm: Dmd, disk: Medium, r: nat)
    requires dm.Valid() && !dm.oneFat
  {
    && dm.At(Fat, r) in disk && dm.MirrorAt(r) in disk
    && disk[dm.At(Fat, r)] == disk[dm.MirrorAt(r)]
  }

  /** The two FAT copies of every drive agree on each record that no dirty buffer holds. */
  ghost predicate Mirrored(drives: Drives, fatBufs: seq<Bcb>, disk: Medium)
    requires DrivesOk(drives)
  {
    forall d, r: nat :: d in drives && !drives[d].oneFat && r < drives[d].fsiz ==>
      CopiesAgree(drives[d], disk, r) || DirtyAt(fatBufs, drives[d].At(Fat, r))
  }

  lemma FlushKeepsMirror(drives: Drives, fatBufs: seq<Bcb>, disk: Medium, contents: Medium, k: nat)
    requires DrivesOk(drives) && ListOk(drives, true, fatBufs, disk, contents)
    requires k < |fatBufs| && fatBufs[k].Live()
    requires Mirrored(drives, fatBufs, disk)
    ensures fatBufs[k].dm.Valid()
    ensures Mirrored(drives, fatBufs[k := fatBufs[k].(dirty := false)], Flushed(fatBufs[k], disk))
  {
    hide DirtyAt;
    var b, s := fatBufs[k], fatBufs[k := fatBufs[k].(dirty := false)];
    assert BufOk(drives, true, b, disk, contents);
    var disk' := Flushed(b, disk);
    forall d, r: nat | d in drives && !drives[d].oneFat && r < drives[d].fsiz
      ensures CopiesAgree(drives[d], disk', r) || DirtyAt(s, drives[d].At(Fat, r))
    {
      var a := drives[d].At(Fat, r);
      if a != b.At() && DirtyAt(fatBufs, a) {
        StaysDirty(fatBufs, k, a);
      }
    }
  }

  lemma StaysDirty(fatBufs: seq<Bcb>, k: nat, a: Addr)
    requires k < |fatBufs| && fatBufs[k].At() != a && DirtyAt(fatBufs, a)
    ensures DirtyAt(fatBufs[k := fatBufs[k].(dirty := false)], a)
  {
    var s := fatBufs[k := fatBufs[k].(dirty := false)];
    var i :| 0 <= i < |fatBufs| && fatBufs[i].Live() && fatBufs[i].dirty && fatBufs[i].At() == a;
    assert s[i] == fatBufs[i];
  }

  /** Data and root records lie outside both copies of the FAT. */
  lemma OutsideKeepsMirror(drives: Drives, fatBufs: seq<Bcb>, disk: Medium, recs: Medium)
    requires DrivesOk(drives) && Mirrored(drives, fatBufs, disk)
    requires forall a :: a in recs ==> Served(drives, false, a)
    ensures Mirrored(drives, fatBufs, disk + recs)
  {
    forall d, r: nat | d in drives && !drives[d].oneFat && r < drives[d].fsiz
      ensures CopiesAgree(drives[d], disk + recs, r) || DirtyAt(fatBufs, drives[d].At(Fat, r))
    {
      assert CopiesAgree(drives[d], disk, r) || DirtyAt(fatBufs, drives[d].At(Fat, r));
    }
  }

  /** A buffer that is not dirty does not count for the agreement of the copies. */
  lemma ReplaceKeepsMirror(drives: Drives, bufs: seq<Bcb>, disk: Medium, k: nat, b: Bcb)
    requires DrivesOk(drives) && Mirrored(drives, bufs, disk)
    requires k < |bufs| && (bufs[k].Live() && bufs[k].dirty ==> b.Live() && b.dirty && b.At() == bufs[k].At())
    ensures Mirrored(drives, bufs[k := b], disk)
  {
    var s := bufs[k := b];
    forall d, r: nat | d in drives && !drives[d].oneFat && r < drives[d].fsiz
      ensures CopiesAgree(drives[d], disk, r) || DirtyAt(s, drives[d].At(Fat, r))
    {
      var a := drives[d].At(Fat, r);
      if DirtyAt(bufs, a) {
        var i :| 0 <= i < |bufs| && bufs[i].Live() && bufs[i].dirty && bufs[i].At() == a;
        assert s[i].Live() && s[i].dirty && s[i].At() == a;
      }
    }
  }

  lemma MoveKeepsMirror(drives: Drives, bufs: seq<Bcb>, disk: Medium, k: nat)
    requires DrivesOk(drives) && Mirrored(drives, bufs, disk) && k < |bufs|
    ensures Mirrored(drives, MoveToFront(bufs, k), disk)
  {
    var s := MoveToFront(bufs, k);
    MoveToFrontAt(bufs, k);
    forall d, r: nat | d in drives && !drives[d].oneFat && r < drives[d].fsiz
      ensures CopiesAgree(drives[d], disk, r) || DirtyAt(s, drives[d].At(Fat, r))
    {
      var a := drives[d].At(Fat, r);
      if DirtyAt(bufs, a) {
        var i :| 0 <= i < |bufs| && bufs[i].Live() && bufs[i].dirty && bufs[i].At() == a;
        var j := if i == k then 0 else if i < k then i + 1 else i;
        assert s[j] == bufs[i];
      }
    }
  }

  lemma FlushKeepsOther(drives: Drives, fat: bool, bufs: seq<Bcb>, other: seq<Bcb>, disk: Medium, contents: Medium, k: nat)
    requires DrivesOk(drives) && ListOk(drives, fat, bufs, disk, contents)
    requires ListOk(drives, !fat, other, disk, contents)
    requires k < |bufs| && bufs[k].Live()
    ensures bufs[k].dm.Valid()
    ensures ListOk(drives, !fat, other, Flushed(bufs[k], disk), contents)
  {
    var b := bufs[k];
    assert BufOk(drives, fat, b, disk, contents);
    BufServed(drives, fat, b, disk, contents);
    var disk' := Flushed(b, disk);
    forall a | Served(drives, !fat, a)
      ensures (a in disk <==> a in disk') && (a in disk ==> disk[a] == disk'[a])
    {
      FlushedAt(drives, fat, b, disk, contents, a);
    }
    ListFrame(drives, !fat, other, disk, contents, disk', contents);
  }

  lemma FlushKeepsAgreement(drives: Drives, fat: bool, bufs: seq<Bcb>, fatBufs: seq<Bcb>, disk: Medium, contents: Medium, k: nat)
    requires DrivesOk(drives) && ListOk(drives, fat, bufs, disk, contents)
    requires k < |bufs| && bufs[k].Live()
    requires fat ==> bufs == fatBufs
    requires Mirrored(drives, fatBufs, disk)
    ensures bufs[k].dm.Valid()
    ensures Mirrored(drives, if fat then bufs[k := bufs[k].(dirty := false)] else fatBufs, Flushed(bufs[k], disk))
  {
    var b := bufs[k];
    assert BufOk(drives, fat, b, disk, contents);
    if fat {
      FlushKeepsMirror(drives, bufs, disk, contents, k);
    } else {
      BufServed(drives, fat, b, disk, contents);
      OutsideKeepsMirror(drives, fatBufs, disk, map[b.At() := b.data]);
      assert Flushed(b, disk) == disk + map[b.At() := b.data];
    }
  }

  /** A buffer that is not dirty can be given to another record. */
  lemma ReloadKeepsList(drives: Drives, bufs: seq<Bcb>, disk: Medium, contents: Medium, k: nat, dm: Dmd, typ: BufType, rec: nat)
    requires DrivesOk(drives) && ListOk(drives, OnFatList(typ), bufs, disk, contents)
    requires dm.drvnum in drives && drives[dm.drvnum] == dm && dm.InRegion(typ, rec)
    requires k < |bufs| && (bufs[k].Live() ==> !bufs[k].dirty)
    requires forall i :: 0 <= i < |bufs| && i != k ==> !bufs[i].Has(dm, typ, rec)
    ensures var a := dm.At(typ, rec); a in disk && a in contents && disk[a] == contents[a]
    ensures ListOk(drives, OnFatList(typ),
                   bufs[k := Bcb(bufs[k].id, dm.drvnum, typ, rec, false, dm, disk[dm.At(typ, rec)])], disk, contents)
  {
    var fat, s := OnFatList(typ), bufs[k := bufs[k].(drv := -1)];
    DropKeepsList(drives, fat, bufs, disk, contents, k);
    CoveredIffHas(drives, s, disk, contents, dm, typ, rec);
    AtInjective(dm, typ, rec, typ, rec);
    assert Served(drives, fat, dm.At(typ, rec));
    var b := Bcb(bufs[k].id, dm.drvnum, typ, rec, false, dm, disk[dm.At(typ, rec)]);
    LoadKeepsList(drives, fat, s, disk, contents, k, b);
    assert s[k := b] == bufs[k := b];
  }

  /** The blocks of a list, in order. */
  function BlockIds(bufs: seq<Bcb>): (ids: seq<nat>)
    ensures |ids| == |bufs| && forall i :: 0 <= i < |bufs| ==> ids[i] == bufs[i].id
  {
    seq(|bufs|, i requires 0 <= i < |bufs| => bufs[i].id)
  }

  /** When a block was last asked for: its last place in the history of requests, counted from 1, or 0 for never. */
  function LastUse(history: seq<nat>, id: nat): (t: nat)
    ensures t <= |history|
    decreases history
  {
    var n := |history|;
    if n == 0 then 0 else if history[n - 1] == id then n else LastUse(history[..n - 1], id)
  }

  /** Blocks asked for later come first; behind them come those never asked for. */
  ghost predicate MruFirst(ids: seq<nat>, history: seq<nat>) {
    forall i, j :: 0 <= i < j < |ids| ==>
      LastUse(history, ids[i]) > LastUse(history, ids[j]) || LastUse(history, ids[j]) == 0
  }

  lemma LastUseMore(history: seq<nat>, id: nat, other: nat)
    ensures LastUse(history + [id], other) == if other == id then |history| + 1 else LastUse(history, other)
  {
    assert (history + [id])[..|history|] == history;
  }

  /** Asking for a block and moving it to the front keeps the list in order of last use. */
  lemma MoveKeepsMru(ids: seq<nat>, history: seq<nat>, k: nat)
    requires MruFirst(ids, history) && k < |ids| && forall i, j :: 0 <= i < j < |ids| ==> ids[i] != ids[j]
    ensures MruFirst(MoveToFront(ids, k), history + [ids[k]])
  {
    hide LastUse;
    var s, h := MoveToFront(ids, k), history + [ids[k]];
    MoveToFrontAt(ids, k);
    forall i, j | 0 <= i < j < |s|
      ensures LastUse(h, s[i]) > LastUse(h, s[j]) || LastUse(h, s[j]) == 0
    {
      var x, y := FrontSource(k, i), FrontSource(k, j);
      assert y < k || k < y;
      LastUseMore(history, ids[k], s[i]);
      LastUseMore(history, ids[k], s[j]);
      LastUseBound(history, s[j]);
      if i > 0 {
        assert x < y && (x < k || k < x);
      }
    }
  }

  lemma LastUseBound(history: seq<nat>, id: nat)
    ensures LastUse(history, id) <= |history|
  {
  }

  lemma FreshUse(ids: seq<nat>)
    ensures MruFirst(ids, [])
  {
  }

  /** Changing a buffer but not its block keeps the blocks of the list, and so does moving one to the front. */
  lemma SameBlocks(bufs: seq<Bcb>, k: nat, b: Bcb)
    requires k < |bufs| && b.id == bufs[k].id
    ensures BlockIds(bufs[k := b]) == BlockIds(bufs)
  {
  }

  lemma MovedBlocks(bufs: seq<Bcb>, k: nat)
    requires k < |bufs|
    ensures BlockIds(MoveToFront(bufs, k)) == MoveToFront(BlockIds(bufs), k)
    ensures Unique(bufs) ==> forall i, j :: 0 <= i < j < |bufs| ==> BlockIds(bufs)[i] != BlockIds(bufs)[j]
  {
    hide Unique;
    MoveToFrontAt(bufs, k);
    MoveToFrontAt(BlockIds(bufs), k);
    if Unique(bufs) {
      DistinctBlocks(bufs);
    }
  }

  lemma DistinctBlocks(bufs: seq<Bcb>)
    requires Unique(bufs)
    ensures forall i, j :: 0 <= i < j < |bufs| ==> BlockIds(bufs)[i] != BlockIds(bufs)[j]
  {
  }

  lemma ListUnique(drives: Drives, fat: bool, bufs: seq<Bcb>, disk: Medium, contents: Medium)
    requires ListOk(drives, fat, bufs, disk, contents)
    ensures Unique(bufs) && |bufs| > 0
  {
  }

  lemma FrontIs(bufs: seq<Bcb>, k: nat, b: Bcb, c: Bcb)
    requires k < |bufs|
    ensures MoveToFront(bufs[k := b], k)[0 := c] == MoveToFront(bufs[k := c], k)
  {
  }

  /** What getrec does to a list: the buffer found for the record, dirty if it is to be written, comes to the front. */
  ghost predicate Renewed(was: seq<Bcb>, now: seq<Bcb>, dm: Dmd, typ: BufType, rec: nat, wrt: bool) {
    exists k: nat, b :: Fetched(was, k, b, dm, typ, rec) && now == MoveToFront(was[k := if wrt then b.(dirty := true) else b], k)
  }

  /** What a direct transfer does to a list: buffers of the records are given up in place, the others stay. */
  ghost predicate Evicted(was: seq<Bcb>, now: seq<Bcb>, dm: Dmd, strt: nat, num: nat) {
    && |now| == |was|
    && forall i :: 0 <= i < |was| ==>
         now[i].id == was[i].id && if InRange(was[i], dm, strt, num) then !now[i].Live() else now[i] == was[i]
  }

  lemma RenewedBlocks(was: seq<Bcb>, now: seq<Bcb>, dm: Dmd, typ: BufType, rec: nat, wrt: bool) returns (k: nat)
    requires Renewed(was, now, dm, typ, rec, wrt)
    ensures k < |was| && now != [] && now[0].id == was[k].id && BlockIds(now) == MoveToFront(BlockIds(was), k)
  {
    var i: nat, b :| Fetched(was, i, b, dm, typ, rec) && now == MoveToFront(was[i := if wrt then b.(dirty := true) else b], i);
    var c := if wrt then b.(dirty := true) else b;
    SameBlocks(was, i, c);
    MovedBlocks(was[i := c], i);
    k := i;
  }

  /** What happens to a list: a record is asked for, records are transferred directly, or buffers change in place. */
  datatype ListOp = Get(dm: Dmd, typ: BufType, rec: nat, wrt: bool) | Direct(dm: Dmd, strt: nat, num: nat) | InPlace

  ghost predicate ListStep(was: seq<Bcb>, now: seq<Bcb>, op: ListOp) {
    match op
    case Get(dm, typ, rec, wrt) => Renewed(was, now, dm, typ, rec, wrt)
    case Direct(dm, strt, num) => Evicted(was, now, dm, strt, num)
    case InPlace => BlockIds(now) == BlockIds(was)
  }

  /** The blocks that the first n operations of a run were answered with. */
  ghost function History(lists: seq<seq<Bcb>>, ops: seq<ListOp>, n: nat): (h: seq<nat>)
    requires n <= |ops| && |lists| == |ops| + 1
    decreases n
  {
    if n == 0 then []
    else History(lists, ops, n - 1) + if ops[n - 1].Get? && lists[n] != [] then [lists[n][0].id] else []
  }

  /** Over every run a list is a permutation of the same blocks, the most recently used ones first. */
  lemma {:induction false} RunKeepsOrder(lists: seq<seq<Bcb>>, ops: seq<ListOp>, n: nat)
    requires |lists| == |ops| + 1 && n <= |ops| && Unique(lists[0])
    requires forall i :: 0 <= i < |ops| ==> ListStep(lists[i], lists[i + 1], ops[i])
    ensures multiset(BlockIds(lists[n])) == multiset(BlockIds(lists[0]))
    ensures |lists[n]| == |lists[0]| && forall i, j :: 0 <= i < j < |lists[n]| ==> BlockIds(lists[n])[i] != BlockIds(lists[n])[j]
    ensures MruFirst(BlockIds(lists[n]), History(lists, ops, n))
    decreases n
  {
    hide MruFirst, Renewed, Unique, Evicted;
    if n == 0 {
      DistinctBlocks(lists[0]);
      FreshUse(BlockIds(lists[0]));
    } else {
      RunKeepsOrder(lists, ops, n - 1);
      var was, now, op := lists[n - 1], lists[n], ops[n - 1];
      assert ListStep(lists[n - 1], lists[n - 1 + 1], op);
      var h := History(lists, ops, n - 1);
      if op.Get? {
        var k := RenewedBlocks(was, now, op.dm, op.typ, op.rec, op.wrt);
        MoveKeepsMru(BlockIds(was), h, k);
        MoveToFrontAt(BlockIds(was), k);
        MovedDistinct(BlockIds(was), k);
      } else {
        if op.Direct? {
          EvictedBlocks(was, now, op.dm, op.strt, op.num);
        }
        assert h + [] == h;
      }
    }
  }

  lemma MovedDistinct(ids: seq<nat>, k: nat)
    requires k < |ids| && forall i, j :: 0 <= i < j < |ids| ==> ids[i] != ids[j]
    ensures |MoveToFront(ids, k)| == |ids| && forall i, j :: 0 <= i < j < |ids| ==> MoveToFront(ids, k)[i] != MoveToFront(ids, k)[j]
  {
    MoveToFrontAt(ids, k);
    forall i, j | 0 <= i < j < |ids|
      ensures MoveToFront(ids, k)[i] != MoveToFront(ids, k)[j]
    {
      var x, y := FrontSource(k, i), FrontSource(k, j);
      assert x < y || y < x;
    }
  }

  lemma EvictedBlocks(was: seq<Bcb>, now: seq<Bcb>, dm: Dmd, strt: nat, num: nat)
    requires Evicted(was, now, dm, strt, num)
    ensures BlockIds(now) == BlockIds(was)
  {
  }

  /** The buffer found for a record, and no other, holds what the drive holds there. */
  lemma HitFacts(drives: Drives, bufs: seq<Bcb>, disk: Medium, contents: Medium, dm: Dmd, typ: BufType, rec: nat, i: nat)
    requires DrivesOk(drives) && MediumOk(drives, contents) && ListOk(drives, OnFatList(typ), bufs, disk, contents)
    requires dm.drvnum in drives && drives[dm.drvnum] == dm && dm.InRegion(typ, rec)
    requires i <= |bufs| && (i < |bufs| ==> bufs[i].Has(dm, typ, rec))
    ensures |bufs| > 0 && dm.At(typ, rec) in contents
    ensures |contents[dm.At(typ, rec)]| == dm.recsiz
    ensures i < |bufs| ==> bufs[i].dm == dm && bufs[i].data == contents[dm.At(typ, rec)]
    ensures i < |bufs| ==> forall j :: 0 <= j < |bufs| && j != i ==> !bufs[j].Has(dm, typ, rec)
  {
    AtInjective(dm, typ, rec, typ, rec);
    if i < |bufs| {
      assert BufOk(drives, OnFatList(typ), bufs[i], disk, contents);
      forall j | 0 <= j < |bufs| && j != i
        ensures !bufs[j].Has(dm, typ, rec)
      {
        assert BufOk(drives, OnFatList(typ), bufs[j], disk, contents);
        assert j < i || i < j;
      }
    }
  }

  lemma StoreKeepsOther(drives: Drives, fat: bool, bufs: seq<Bcb>, other: seq<Bcb>, disk: Medium, contents: Medium, k: nat, data: Sector)
    requires DrivesOk(drives) && ListOk(drives, fat, bufs, disk, contents) && ListOk(drives, !fat, other, disk, contents)
    requires k < |bufs| && bufs[k].Live()
    ensures ListOk(drives, !fat, other, disk, contents[bufs[k].At() := data])
  {
    assert BufOk(drives, fat, bufs[k], disk, contents);
    BufServed(drives, fat, bufs[k], disk, contents);
    ListFrame(drives, !fat, other, disk, contents, disk, contents[bufs[k].At() := data]);
  }

  lemma StoreKeepsMedium(drives: Drives, contents: Medium, a: Addr, data: Sector)
    requires MediumOk(drives, contents) && a in contents && |data| == |contents[a]|
    ensures MediumOk(drives, contents[a := data])
  {
    var c := contents[a := data];
    forall x
      ensures x in c <==> Logical(drives, x)
      ensures x in c ==> |c[x]| == drives[x.drv].recsiz
    {
      assert x in c <==> x in contents;
    }
  }

  /** The largest count of records in one transfer: a 16-bit int. */
  const CNTMAX := 0x7fff

  /** The test of usrio: it looks at drive and record number, not at the type of the buffer. */
  predicate InRange(b: Bcb, dm: Dmd, strt: nat, num: nat) {
    b.drv == dm.drvnum && strt <= b.rec < strt + num
  }

  ghost predicate HasRecords(m: Medium, dm: Dmd, strt: nat, num: nat) {
    forall r: nat :: strt <= r < strt + num ==> dm.At(Data, r) in m && |m[dm.At(Data, r)]| == dm.recsiz
  }

  /** The bytes of `num` data records from `strt` on. */
  function Gather(m: Medium, dm: Dmd, strt: nat, num: nat): (data: seq<Byte>)
    requires dm.recsiz > 0 && HasRecords(m, dm, strt, num)
    ensures |data| == num * dm.recsiz
  {
    if num == 0 then [] else Gather(m, dm, strt, num - 1) + m[dm.At(Data, strt + num - 1)]
  }

  /** `data` cut up into `num` data records from `strt` on. */
  function Scatter(dm: Dmd, strt: nat, num: nat, data: seq<Byte>): (m: Medium)
    requires dm.recsiz > 0 && |data| == num * dm.recsiz
    ensures forall a :: a in m <==> a.drv == dm.drvnum && dm.datarec + strt <= a.rec < dm.datarec + strt + num
    ensures forall a :: a in m ==> |m[a]| == dm.recsiz
  {
    if num == 0 then map[] else
      MulGap(dm.recsiz, num - 1, num);
      var n := (num - 1) * dm.recsiz;
      Scatter(dm, strt, num - 1, data[..n])[dm.At(Data, strt + num - 1) := data[n..]]
  }

  /** What is not in any buffer is on the medium. */
  lemma OnMedium(drives: Drives, bufs: seq<Bcb>, disk: Medium, contents: Medium, dm: Dmd, strt: nat, num: nat)
    requires DrivesOk(drives) && MediumOk(drives, contents) && ListOk(drives, false, bufs, disk, contents)
    requires dm.drvnum in drives && drives[dm.drvnum] == dm && strt + num <= dm.RegionLen(Data)
    requires forall i :: 0 <= i < |bufs| ==> !InRange(bufs[i], dm, strt, num)
    ensures dm.recsiz > 0 && HasRecords(disk, dm, strt, num) && HasRecords(contents, dm, strt, num)
    ensures Gather(disk, dm, strt, num) == Gather(contents, dm, strt, num)
  {
    forall r: nat | strt <= r < strt + num
      ensures var a := dm.At(Data, r);
              a in disk && a in contents && disk[a] == contents[a] && |disk[a]| == dm.recsiz && !Covered(bufs, a)
    {
      AtInjective(dm, Data, r, Data, r);
      CoveredIffHas(drives, bufs, disk, contents, dm, Data, r);
      assert Served(drives, false, dm.At(Data, r));
    }
    SameGather(disk, contents, dm, strt, num);
  }

  lemma {:induction false} SameGather(m: Medium, n: Medium, dm: Dmd, strt: nat, num: nat)
    requires dm.recsiz > 0 && HasRecords(m, dm, strt, num) && HasRecords(n, dm, strt, num)
    requires forall r: nat :: strt <= r < strt + num ==> m[dm.At(Data, r)] == n[dm.At(Data, r)]
    ensures Gather(m, dm, strt, num) == Gather(n, dm, strt, num)
  {
    if num > 0 { SameGather(m, n, dm, strt, num - 1); }
  }

  /** Direct writing keeps everything in order once no buffer holds one of the records. */
  lemma DirectKeeps(drives: Drives, fatBufs: seq<Bcb>, dataBufs: seq<Bcb>, disk: Medium, contents: Medium,
                    dm: Dmd, strt: nat, num: nat, data: seq<Byte>)
    requires DrivesOk(drives) && MediumOk(drives, contents)
    requires ListOk(drives, true, fatBufs, disk, contents) && ListOk(drives, false, dataBufs, disk, contents)
    requires dm.drvnum in drives && drives[dm.drvnum] == dm && strt + num <= dm.RegionLen(Data)
    requires |data| == num * dm.recsiz
    requires forall i :: 0 <= i < |dataBufs| ==> !InRange(dataBufs[i], dm, strt, num)
    ensures dm.recsiz > 0
    ensures var recs := Scatter(dm, strt, num, data);
            && MediumOk(drives, contents + recs)
            && ListOk(drives, true, fatBufs, disk + recs, contents + recs)
            && ListOk(drives, false, dataBufs, disk + recs, contents + recs)
            && (Mirrored(drives, fatBufs, disk) ==> Mirrored(drives, fatBufs, disk + recs))
  {
    var recs := Scatter(dm, strt, num, data);
    forall a | a in recs
      ensures Served(drives, false, a) && !Covered(dataBufs, a)
    {
      var r := a.rec - dm.datarec;
      AtInjective(dm, Data, r, Data, r);
      CoveredIffHas(drives, dataBufs, disk, contents, dm, Data, r);
      assert a == dm.At(Data, r);
    }
    DirectKeepsMedium(drives, contents, recs, dm);
    DirectKeepsList(drives, false, dataBufs, disk, contents, recs);
    ListFrame(drives, true, fatBufs, disk, contents, disk + recs, contents + recs);
    if Mirrored(drives, fatBufs, disk) { OutsideKeepsMirror(drives, fatBufs, disk, recs); }
  }

  lemma DirectKeepsMedium(drives: Drives, contents: Medium, recs: Medium, dm: Dmd)
    requires MediumOk(drives, contents) && dm.drvnum in drives && drives[dm.drvnum] == dm
    requires forall a :: a in recs ==> Served(drives, false, a) && a.drv == dm.drvnum && |recs[a]| == dm.recsiz
    ensures MediumOk(drives, contents + recs)
  {
  }

  class Cache {
    const drives: Drives
    var bufl: seq<seq<Bcb>>
    var disk: Medium
    /** What the drives hold for the file system, whether in a buffer or on the medium. */
    ghost var contents: Medium
    /** For each of the two lists the blocks that requests for records were answered with, in order. */
    ghost var history: seq<seq<nat>>

    /** Starts with every buffer unused. */
    constructor (drives: Drives, disk: Medium, fatBufs: seq<Bcb>, dataBufs: seq<Bcb>)
      requires DrivesOk(drives)
      requires forall a :: Logical(drives, a) ==> a in disk && |disk[a]| == drives[a.drv].recsiz
      requires |fatBufs| > 0 && |dataBufs| > 0 && Unique(fatBufs) && Unique(dataBufs)
      requires forall b :: b in fatBufs + dataBufs ==> !b.Live()
      ensures Valid() && this.drives == drives && this.disk == disk && bufl == [fatBufs, dataBufs] && history == [[], []]
      ensures forall a :: Logical(drives, a) ==> contents[a] == disk[a]
    {
      hide ListOk, Served, Logical, Unique, MruFirst;
      this.drives, this.disk, bufl := drives, disk, [fatBufs, dataBufs];
      contents := map a | a in disk && Logical(drives, a) :: disk[a];
      history := [[], []];
      new;
      assert forall b :: b in fatBufs ==> b in fatBufs + dataBufs;
      assert forall b :: b in dataBufs ==> b in fatBufs + dataBufs;
      FreshList(drives, true, fatBufs, disk, contents);
      FreshList(drives, false, dataBufs, disk, contents);
      FreshUse(BlockIds(fatBufs));
      FreshUse(BlockIds(dataBufs));
    }

    ghost predicate Valid()
      reads this
    {
      && |bufl| == |history| == 2 && DrivesOk(drives) && MediumOk(drives, contents)
      && (forall bi :: 0 <= bi < 2 ==> ListOk(drives, bi == BI_FAT, bufl[bi], disk, contents))
      && (forall bi :: 0 <= bi < 2 ==> MruFirst(BlockIds(bufl[bi]), history[bi]))
    }

    /** Both copies of every FAT agree wherever no buffer is dirty. */
    ghost predicate CopiesMirrored()
      requires |bufl| == 2 && DrivesOk(drives)
      reads this
    {
      Mirrored(drives, bufl[BI_FAT], disk)
    }

    ghost predicate Mounted(dm: Dmd) {
      dm.drvnum in drives && drives[dm.drvnum] == dm
    }

    /** Write buffer `k` of a list to its record; a FAT record goes to both copies. */
    method Flush(bi: nat, k: nat)
      requires Valid() && bi < 2 && k < |bufl[bi]| && bufl[bi][k].Live()
      modifies this`bufl, this`disk
      ensures Valid()
      ensures bufl == old(bufl)[bi := old(bufl)[bi][k := old(bufl)[bi][k].(dirty := false)]]
      ensures old(bufl)[bi][k].dm.Valid() && disk == Flushed(old(bufl)[bi][k], old(disk))
      ensures old(CopiesMirrored()) ==> CopiesMirrored()
    {
      hide ListOk, MediumOk, DrivesOk, Mirrored, MruFirst;
      var b := bufl[bi][k];
      FlushKeepsOther(drives, bi == BI_FAT, bufl[bi], bufl[1 - bi], disk, contents, k);
      FlushKeepsList(drives, bi == BI_FAT, bufl[bi], disk, contents, k);
      if CopiesMirrored() {
        FlushKeepsAgreement(drives, bi == BI_FAT, bufl[bi], bufl[BI_FAT], disk, contents, k);
      }
      SameBlocks(bufl[bi], k, b.(dirty := false));
      disk := disk[b.At() := b.data];
      if b.typ == Fat && !b.dm.oneFat {
        disk := disk[b.dm.MirrorAt(b.rec) := b.data];
      }
      bufl := bufl[bi := bufl[bi][k := b.(dirty := false)]];
    }

    /** First loop of getbcb: the index of the buffer that holds the record (or the length of the
        list) and of the last unused buffer seen on the way (or -1). */
    static method FindRecord(bufs: seq<Bcb>, dm: Dmd, typ: BufType, rec: nat) returns (i: nat, mt: int)
      ensures i <= |bufs| && (i < |bufs| ==> bufs[i].Has(dm, typ, rec))
      ensures forall j :: 0 <= j < i ==> !bufs[j].Has(dm, typ, rec)
      ensures -1 <= mt < i && (mt >= 0 ==> !bufs[mt].Live())
      ensures forall j :: mt < j < i ==> bufs[j].Live()
    {
      i, mt := 0, -1;
      while i < |bufs| && !bufs[i].Has(dm, typ, rec)
        invariant i <= |bufs| && forall j :: 0 <= j < i ==> !bufs[j].Has(dm, typ, rec)
        invariant -1 <= mt < i && (mt >= 0 ==> !bufs[mt].Live())
        invariant forall j :: mt < j < i ==> bufs[j].Live()
      {
        if bufs[i].drv == -1 { mt := i; }
        i := i + 1;
      }
    }

    /** Second loop of getbcb: walk to buffer `target`, or to the end of the list if there is none. */
    static method FindVictim(bufs: seq<Bcb>, target: int) returns (k: nat)
      requires |bufs| > 0 && -1 <= target < |bufs|
      ensures k == if target >= 0 then target else |bufs| - 1
    {
      k := 0;
      while k + 1 < |bufs|
        invariant k < |bufs| && (target >= 0 ==> k <= target)
      {
        if k == target { break; }
        k := k + 1;
      }
    }

    /** Give buffer `k` to another record: flush it if it is dirty, then read the record in. */
    method Replace(k: nat, dm: Dmd, typ: BufType, rec: nat) returns (b: Bcb)
      requires Valid() && Mounted(dm) && dm.InRegion(typ, rec)
      requires k < |bufl[Index(typ)]|
      requires forall i :: 0 <= i < |bufl[Index(typ)]| && i != k ==> !bufl[Index(typ)][i].Has(dm, typ, rec)
      modifies this`bufl, this`disk
      ensures Valid() && dm.At(typ, rec) in contents
      ensures b == Bcb(old(bufl)[Index(typ)][k].id, dm.drvnum, typ, rec, false, dm, contents[dm.At(typ, rec)])
      ensures bufl == old(bufl)[Index(typ) := old(bufl)[Index(typ)][k := b]]
      ensures old(CopiesMirrored()) ==> CopiesMirrored()
    {
      hide ListOk, MediumOk, DrivesOk, Mirrored, MruFirst, Flushed;
      var bi := Index(typ);
      if bufl[bi][k].drv != -1 && bufl[bi][k].dirty {
        Flush(bi, k);
      }
      ReloadKeepsList(drives, bufl[bi], disk, contents, k, dm, typ, rec);
      b := Bcb(bufl[bi][k].id, dm.drvnum, typ, rec, false, dm, disk[dm.At(typ, rec)]);
      if CopiesMirrored() && bi == BI_FAT {
        ReplaceKeepsMirror(drives, bufl[BI_FAT], disk, k, b);
      }
      SameBlocks(bufl[bi], k, b);
      bufl := bufl[bi := bufl[bi][k := b]];
      assert bufl[bi] == old(bufl)[bi][k := b];
      assert bufl == old(bufl)[bi := bufl[bi]];
    }

    /** Put buffer `p` at the head of its list. */
    method Touch(bi: nat, p: nat)
      requires Valid() && bi < 2 && p < |bufl[bi]|
      modifies this`bufl, this`history
      ensures Valid() && bufl == old(bufl)[bi := MoveToFront(old(bufl)[bi], p)]
      ensures history == old(history)[bi := old(history)[bi] + [old(bufl)[bi][p].id]]
      ensures old(CopiesMirrored()) ==> CopiesMirrored()
    {
      hide ListOk, MediumOk, DrivesOk, Mirrored, MruFirst;
      MoveToFrontAt(bufl[bi], p);
      MoveKeepsList(drives, bi == BI_FAT, bufl[bi], disk, contents, p);
      if CopiesMirrored() && bi == BI_FAT {
        MoveKeepsMirror(drives, bufl[BI_FAT], disk, p);
      }
      ListUnique(drives, bi == BI_FAT, bufl[bi], disk, contents);
      MovedBlocks(bufl[bi], p);
      MoveKeepsMru(BlockIds(bufl[bi]), history[bi], p);
      history := history[bi := history[bi] + [bufl[bi][p].id]];
      bufl := bufl[bi := MoveToFront(bufl[bi], p)];
    }

    /** Whether the BIOS reports that the medium may have been changed. */
    method MediaMayHaveChanged() returns (changed: bool) {
      changed := *;
    }

    /** Find the buffer for a record, reading the record in if need be; `k` is its place in the list. */
    method Fetch(dm: Dmd, typ: BufType, rec: nat) returns (b: Bcb, k: nat)
      requires Valid() && Mounted(dm) && dm.InRegion(typ, rec)
      modifies this`bufl, this`disk
      ensures Valid() && dm.At(typ, rec) in contents
      ensures Fetched(old(bufl)[Index(typ)], k, b, dm, typ, rec) && b.data == contents[dm.At(typ, rec)]
      ensures bufl == old(bufl)[Index(typ) := old(bufl)[Index(typ)][k := b]]
      ensures old(CopiesMirrored()) ==> CopiesMirrored()
    {
      hide ListOk, MediumOk, DrivesOk, Mirrored, MruFirst;
      var bufs := bufl[Index(typ)];
      var i, mt := FindRecord(bufs, dm, typ, rec);
      HitFacts(drives, bufs, disk, contents, dm, typ, rec, i);
      var changed := MediaMayHaveChanged();
      if i < |bufs| && !changed {
        k, b := i, bufs[i];
        assert bufs == bufs[k := b];
      } else {
        k := FindVictim(bufs, if i < |bufs| then i else mt);
        b := Replace(k, dm, typ, rec);
      }
    }

    /** Bring a record into a buffer and that buffer to the head of its list. `k` is where it was. */
    method GetBcb(dm: Dmd, typ: BufType, rec: nat) returns (b: Bcb, k: nat)
      requires Valid() && Mounted(dm) && dm.InRegion(typ, rec)
      modifies this`bufl, this`disk, this`history
      ensures Valid() && dm.At(typ, rec) in contents
      ensures Fetched(old(bufl)[Index(typ)], k, b, dm, typ, rec) && b.data == contents[dm.At(typ, rec)]
      ensures bufl == old(bufl)[Index(typ) := MoveToFront(old(bufl)[Index(typ)][k := b], k)]
      ensures history == old(history)[Index(typ) := old(history)[Index(typ)] + [b.id]]
      ensures old(CopiesMirrored()) ==> CopiesMirrored()
    {
      hide ListOk, MediumOk, DrivesOk, Mirrored, MruFirst, MoveToFront;
      b, k := Fetch(dm, typ, rec);
      Touch(Index(typ), k);
    }

    /** The record is at the head of its list, where the caller of getrec may write to it. */
    ghost predicate Writable(dm: Dmd, typ: BufType, rec: nat)
      reads this
    {
      && |bufl| == 2 && |bufl[Index(typ)]| > 0
      && bufl[Index(typ)][0].Has(dm, typ, rec) && bufl[Index(typ)][0].dm == dm && bufl[Index(typ)][0].dirty
    }

    /** Mark the buffer at the head of a list dirty and set its sector. */
    method SetHead(bi: nat, data: Sector)
      requires Valid() && bi < 2 && |bufl[bi]| > 0 && bufl[bi][0].Live()
      requires bufl[bi][0].At() in contents && |data| == |contents[bufl[bi][0].At()]|
      modifies this`bufl, this`contents
      ensures Valid() && bufl == old(bufl)[bi := old(bufl)[bi][0 := old(bufl)[bi][0].(dirty := true, data := data)]]
      ensures contents == old(contents)[old(bufl)[bi][0].At() := data]
      ensures old(CopiesMirrored()) ==> CopiesMirrored()
    {
      hide ListOk, MediumOk, DrivesOk, Mirrored, MruFirst;
      var b := bufl[bi][0].(dirty := true, data := data);
      StoreKeepsList(drives, bi == BI_FAT, bufl[bi], disk, contents, 0, data);
      StoreKeepsOther(drives, bi == BI_FAT, bufl[bi], bufl[1 - bi], disk, contents, 0, data);
      StoreKeepsMedium(drives, contents, bufl[bi][0].At(), data);
      if CopiesMirrored() && bi == BI_FAT {
        ReplaceKeepsMirror(drives, bufl[BI_FAT], disk, 0, b);
      }
      SameBlocks(bufl[bi], 0, b);
      contents := contents[bufl[bi][0].At() := data];
      bufl := bufl[bi := bufl[bi][0 := b]];
    }

    /** The sector of a record, left at the head of its list and marked dirty if it is to be written. */
    method GetRec(dm: Dmd, typ: BufType, rec: nat, wrt: bool) returns (data: Sector)
      requires Valid() && Mounted(dm) && dm.InRegion(typ, rec)
      modifies this`bufl, this`disk, this`history, this`contents
      ensures Valid() && contents == old(contents) && dm.At(typ, rec) in contents
      ensures data == contents[dm.At(typ, rec)]
      ensures wrt ==> Writable(dm, typ, rec)
      ensures bufl == old(bufl)[Index(typ) := bufl[Index(typ)]] && Renewed(old(bufl)[Index(typ)], bufl[Index(typ)], dm, typ, rec, wrt)
      ensures bufl[Index(typ)] != [] && history == old(history)[Index(typ) := old(history)[Index(typ)] + [bufl[Index(typ)][0].id]]
      ensures old(CopiesMirrored()) ==> CopiesMirrored()
    {
      hide ListOk, MediumOk, DrivesOk, Mirrored, MruFirst;
      var b, k := GetBcb(dm, typ, rec);
      data := b.data;
      assert bufl[Index(typ)][0] == b;
      if wrt {
        assert b.At() == dm.At(typ, rec);
        SetHead(Index(typ), b.data);
        assert contents == old(contents);
      }
      FrontIs(old(bufl)[Index(typ)], k, b, if wrt then b.(dirty := true) else b);
      assert bufl[Index(typ)] == MoveToFront(old(bufl)[Index(typ)][k := if wrt then b.(dirty := true) else b], k);
    }

    /** Copy bytes into a sector obtained for writing. */
    method Poke(dm: Dmd, typ: BufType, rec: nat, off: nat, bytes: seq<Byte>)
      requires Valid() && Mounted(dm) && dm.InRegion(typ, rec) && Writable(dm, typ, rec)
      requires off + |bytes| <= dm.recsiz
      modifies this`bufl, this`contents
      ensures Valid() && dm.At(typ, rec) in old(contents) && |old(contents)[dm.At(typ, rec)]| == dm.recsiz
      ensures contents == old(contents)[dm.At(typ, rec) := Splice(old(contents)[dm.At(typ, rec)], off, bytes)]
      ensures Writable(dm, typ, rec) && bufl[Index(typ)][0].id == old(bufl)[Index(typ)][0].id
      ensures bufl == old(bufl)[Index(typ) := old(bufl)[Index(typ)][0 := bufl[Index(typ)][0]]]
      ensures old(CopiesMirrored()) ==> CopiesMirrored()
    {
      hide ListOk, MediumOk, DrivesOk, Mirrored, MruFirst;
      HitFacts(drives, bufl[Index(typ)], disk, contents, dm, typ, rec, 0);
      var b := bufl[Index(typ)][0];
      assert b.At() == dm.At(typ, rec);
      SetHead(Index(typ), Splice(b.data, off, bytes));
    }

    /** Give up the buffer in place `i` of the data list, writing it out first if it is dirty. */
    method Evict(i: nat)
      requires Valid() && i < |bufl[BI_DATA]| && bufl[BI_DATA][i].Live()
      modifies this`bufl, this`disk
      ensures Valid()
      ensures |bufl[BI_DATA]| == |old(bufl)[BI_DATA]| && !bufl[BI_DATA][i].Live()
      ensures bufl[BI_FAT] == old(bufl)[BI_FAT] && bufl[BI_DATA][i].id == old(bufl)[BI_DATA][i].id
      ensures forall j :: 0 <= j < |bufl[BI_DATA]| && j != i ==> bufl[BI_DATA][j] == old(bufl)[BI_DATA][j]
      ensures old(CopiesMirrored()) ==> CopiesMirrored()
    {
      hide ListOk, MediumOk, DrivesOk, Mirrored, MruFirst, Flushed;
      if bufl[BI_DATA][i].dirty {
        Flush(BI_DATA, i);
      }
      DropKeepsList(drives, false, bufl[BI_DATA], disk, contents, i);
      SameBlocks(bufl[BI_DATA], i, bufl[BI_DATA][i].(drv := -1));
      bufl := bufl[BI_DATA := bufl[BI_DATA][i := bufl[BI_DATA][i].(drv := -1)]];
    }

    /** Get every buffer that holds one of the records out of the way of a direct transfer. */
    method EvictRange(dm: Dmd, strt: nat, num: nat)
      requires Valid() && Mounted(dm)
      modifies this`bufl, this`disk
      ensures Valid()
      ensures forall i :: 0 <= i < |bufl[BI_DATA]| ==> !InRange(bufl[BI_DATA][i], dm, strt, num)
      ensures bufl[BI_FAT] == old(bufl)[BI_FAT] && Evicted(old(bufl)[BI_DATA], bufl[BI_DATA], dm, strt, num)
      ensures old(CopiesMirrored()) ==> CopiesMirrored()
    {
      hide ListOk, MediumOk, DrivesOk, Mirrored, MruFirst, Flushed;
      var i := 0;
      while i < |bufl[BI_DATA]|
        invariant Valid() && 0 <= i <= |bufl[BI_DATA]|
        invariant forall j :: 0 <= j < i ==> !InRange(bufl[BI_DATA][j], dm, strt, num)
        invariant bufl[BI_FAT] == old(bufl)[BI_FAT] && |bufl[BI_DATA]| == |old(bufl)[BI_DATA]|
        invariant Evicted(old(bufl)[BI_DATA][..i], bufl[BI_DATA][..i], dm, strt, num)
        invariant forall j :: i <= j < |bufl[BI_DATA]| ==> bufl[BI_DATA][j] == old(bufl)[BI_DATA][j]
        invariant old(CopiesMirrored()) ==> CopiesMirrored()
        decreases |bufl[BI_DATA]| - i
      {
        if InRange(bufl[BI_DATA][i], dm, strt, num) {
          Evict(i);
        }
        i := i + 1;
      }
    }

    /** Read records straight from the medium. */
    method ReadDirect(dm: Dmd, strt: nat, num: nat) returns (data: seq<Byte>)
      requires Valid() && Mounted(dm) && strt + num <= dm.RegionLen(Data) && num <= CNTMAX
      modifies this`bufl, this`disk
      ensures Valid() && HasRecords(contents, dm, strt, num)
      ensures data == Gather(contents, dm, strt, num)
      ensures bufl[BI_FAT] == old(bufl)[BI_FAT] && Evicted(old(bufl)[BI_DATA], bufl[BI_DATA], dm, strt, num)
      ensures old(CopiesMirrored()) ==> CopiesMirrored()
    {
      hide ListOk, MediumOk, DrivesOk, Mirrored, MruFirst, Flushed;
      EvictRange(dm, strt, num);
      OnMedium(drives, bufl[BI_DATA], disk, contents, dm, strt, num);
      data := Gather(disk, dm, strt, num);
    }

    /** Write records straight to the medium. */
    method WriteDirect(dm: Dmd, strt: nat, num: nat, data: seq<Byte>)
      requires Valid() && Mounted(dm) && strt + num <= dm.RegionLen(Data) && num <= CNTMAX
      requires |data| == num * dm.recsiz
      modifies this`bufl, this`disk, this`contents
      ensures Valid() && contents == old(contents) + Scatter(dm, strt, num, data)
      ensures bufl[BI_FAT] == old(bufl)[BI_FAT] && Evicted(old(bufl)[BI_DATA], bufl[BI_DATA], dm, strt, num)
      ensures old(CopiesMirrored()) ==> CopiesMirrored()
    {
      hide ListOk, MediumOk, DrivesOk, Mirrored, MruFirst, Flushed, Scatter;
      EvictRange(dm, strt, num);
      DirectKeeps(drives, bufl[BI_FAT], bufl[BI_DATA], disk, contents, dm, strt, num, data);
      disk := disk + Scatter(dm, strt, num, data);
      contents := contents + Scatter(dm, strt, num, data);
    }
  }
}
