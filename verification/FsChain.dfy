/** Cluster chains: finding, linking and freeing clusters. */
module FsChain {
  import opened Basics
  import opened FsMedia
  import opened FsCache
  import opened FsFat

  // ---------- Chains of clusters in a table of links

  ghost predicate TableOk(tab: seq<Link>) { 2 <= |tab| <= 0xfff8 }

  /** `ch` lists the clusters of the file that starts at `start`. */
  ghost predicate IsChain(tab: seq<Link>, start: Link, ch: seq<nat>) {
    && (forall i :: 0 <= i < |ch| ==> 2 <= ch[i] < |tab|)
    && start == (if ch == [] then 0 else ch[0])
    && (forall i :: 0 <= i < |ch| - 1 ==> tab[ch[i]] == ch[i + 1])
    && (ch != [] ==> EndOfChain(tab[ch[|ch| - 1]]))
  }

  /** A chain that ends is free of cycles. */
  lemma ChainAcyclic(tab: seq<Link>, start: Link, ch: seq<nat>)
    requires TableOk(tab) && IsChain(tab, start, ch)
    ensures NoDups(ch)
  {
    forall i, j | 0 <= i < j < |ch|
      ensures ch[i] != ch[j]
    {
      Distinct(tab, start, ch, i, j);
    }
  }

  lemma {:induction false} Distinct(tab: seq<Link>, start: Link, ch: seq<nat>, i: nat, j: nat)
    requires TableOk(tab) && IsChain(tab, start, ch) && i < j < |ch|
    ensures ch[i] != ch[j]
    decreases |ch| - j
  {
    if j + 1 < |ch| {
      Distinct(tab, start, ch, i + 1, j + 1);
    } else {
      assert tab[ch[i]] == ch[i + 1] && !EndOfChain(tab[ch[i]]);
    }
  }

  /** The chain from a given start is unique. */
  lemma {:induction false} ChainUnique(tab: seq<Link>, start: Link, ch: seq<nat>, ch': seq<nat>)
    requires TableOk(tab) && IsChain(tab, start, ch) && IsChain(tab, start, ch')
    ensures ch == ch'
    decreases |ch|
  {
    if ch != [] && ch' != [] {
      assert |ch| > 1 ==> tab[ch[0]] == ch[1] && !EndOfChain(tab[ch[0]]);
      assert |ch'| > 1 ==> tab[ch'[0]] == ch'[1] && !EndOfChain(tab[ch'[0]]);
      if |ch| > 1 {
        assert ch[1] == ch'[1];
        ChainUnique(tab, ch[1], ch[1..], ch'[1..]);
        assert ch == [ch[0]] + ch[1..] && ch' == [ch'[0]] + ch'[1..];
      }
    }
  }

  ghost predicate IsFree(tab: seq<Link>, cl: nat) { 2 <= cl < |tab| && tab[cl] == FREECLUSTER }

  /** `r` is the first free cluster from `from` on, going round at the end, or 0 if there is none. */
  ghost predicate FirstFree(tab: seq<Link>, from: nat, r: nat) {
    if r == 0 then forall c :: 2 <= c < |tab| ==> tab[c] != FREECLUSTER
    else
      && IsFree(tab, r)
      && (from <= r ==> forall c :: from <= c < r ==> tab[c] != FREECLUSTER)
      && (r < from ==> forall c :: 2 <= c < r || from <= c < |tab| ==> tab[c] != FREECLUSTER)
  }

  lemma FirstFreeUnique(tab: seq<Link>, from: nat, r: nat, s: nat)
    requires 2 <= from < |tab| && FirstFree(tab, from, r) && FirstFree(tab, from, s)
    ensures r == s
  {
  }

  /** Scan the rest of one record of a 16-bit FAT for a free entry. */
  method ScanRecord(ghost m: Medium, dm: Dmd, buf: seq<Byte>, start: nat, recnum: nat, first: nat)
    returns (found: bool, clnum: nat)
    requires HasDrive(m, dm) && dm.is16 && start < dm.numcl + 2
    requires dm.recsiz > 0 && recnum == Quot(start * 2, dm.recsiz) && first == Rem(start * 2, dm.recsiz)
    requires dm.At(Fat, recnum) in m && buf == m[dm.At(Fat, recnum)]
    ensures start <= clnum <= dm.numcl + 2 && (clnum > start || found)
    ensures forall k :: start <= k < clnum ==> Table(m, dm)[k] != FREECLUSTER
    ensures found ==> IsFree(Table(m, dm), clnum) || clnum < 2
  {
    hide Table, Quot, Rem, HasDrive, HasRegion;
    ghost var tab := Table(m, dm);
    var offset := first;
    clnum := start;
    while offset < dm.recsiz && clnum < dm.numcl + 2
      invariant start <= clnum <= dm.numcl + 2
      invariant clnum == start ==> offset < dm.recsiz
      invariant forall k :: start <= k < clnum ==> tab[k] != FREECLUSTER
      invariant offset < dm.recsiz ==> recnum == Quot(clnum * 2, dm.recsiz) && offset == Rem(clnum * 2, dm.recsiz)
      decreases dm.recsiz - offset
    {
      Entry16(m, dm, clnum, recnum, offset);
      if Word(buf[offset], buf[offset + 1]) == 0 {
        return true, clnum;
      }
      offset, clnum := offset + 2, clnum + 1;
    }
    found := false;
  }

  /** Fast scan of a 16-bit FAT, record by record. */
  method FindFree16(c: Cache, dm: Dmd) returns (r: nat)
    requires c.Valid() && c.Mounted(dm) && dm.is16
    modifies c
    ensures c.Valid() && c.contents == old(c.contents) && HasDrive(c.contents, dm)
    ensures FirstFree(Table(c.contents, dm), 2, r)
    ensures old(c.CopiesMirrored()) ==> c.CopiesMirrored()
  {
    hide ListOk, MediumOk, DrivesOk, Mirrored, MruFirst, Renewed, Table, Quot, Rem, HasDrive, HasRegion;
    CacheHasDrive(c, dm);
    var clnum := 2;
    while clnum < dm.numcl + 2
      invariant c.Valid() && c.contents == old(c.contents) && 2 <= clnum <= dm.numcl + 2
      invariant forall k :: 2 <= k < clnum ==> Table(c.contents, dm)[k] != FREECLUSTER
      invariant old(c.CopiesMirrored()) ==> c.CopiesMirrored()
      decreases dm.numcl + 2 - clnum
    {
      var recnum, offset := Quot(clnum * 2, dm.recsiz), Rem(clnum * 2, dm.recsiz);
      Entry16(c.contents, dm, clnum, recnum, offset);
      var buf := c.GetRec(dm, Fat, recnum, false);
      var found;
      found, clnum := ScanRecord(c.contents, dm, buf, clnum, recnum, offset);
      if found {
        return clnum;
      }
    }
    r := 0;
  }

  /** A 16-bit entry in its record, and where the next one is. */
  lemma Entry16(m: Medium, dm: Dmd, cl: nat, rec: nat, off: nat)
    requires HasDrive(m, dm) && dm.is16 && cl < dm.numcl + 2
    requires rec == Quot(cl * 2, dm.recsiz) && off == Rem(cl * 2, dm.recsiz)
    ensures HasRegion(m, dm, Fat) && dm.InRegion(Fat, rec) && off + 1 < dm.recsiz
    ensures |m[dm.At(Fat, rec)]| == dm.recsiz
    ensures Table(m, dm)[cl] == Word(m[dm.At(Fat, rec)][off], m[dm.At(Fat, rec)][off + 1])
    ensures off + 2 <= dm.recsiz
    ensures off + 2 < dm.recsiz ==> rec == Quot((cl + 1) * 2, dm.recsiz) && off + 2 == Rem((cl + 1) * 2, dm.recsiz)
  {
    hide Table, Image;
    assert EntryOff(true, cl) == cl * 2;
    EntryBytesAt(m, dm, cl, rec, off);
    TableEntry(m, dm, cl);
    EntryPlace(dm, cl, rec, off);
    if off + 2 < dm.recsiz {
      DivModUnique(dm.recsiz, rec, off + 2, (cl + 1) * 2);
    }
  }

  /** Look for a free cluster: from the start, or from the current cluster round to it again. */
  method FindFree(c: Cache, dm: Dmd, from: nat) returns (r: nat)
    requires c.Valid() && c.Mounted(dm) && from < dm.numcl + 2
    modifies c
    ensures c.Valid() && c.contents == old(c.contents) && HasDrive(c.contents, dm)
    ensures FirstFree(Table(c.contents, dm), if from < 2 then 2 else from, r)
    ensures old(c.CopiesMirrored()) ==> c.CopiesMirrored()
  {
    hide ListOk, MediumOk, DrivesOk, Mirrored, MruFirst, Renewed, Table, HasDrive, HasRegion;
    CacheHasDrive(c, dm);
    if from == 0 && dm.is16 {
      r := FindFree16(c, dm);
      return;
    }
    var cl := if from < 2 then 2 else from;
    ghost var start := cl;
    var i := 0;
    while i < dm.numcl
      invariant c.Valid() && c.contents == old(c.contents) && i <= dm.numcl
      invariant old(c.CopiesMirrored()) ==> c.CopiesMirrored()
      invariant 2 <= cl && (i < dm.numcl ==> cl < dm.numcl + 2)
      invariant if start + i < dm.numcl + 2 then cl == start + i else cl == start + i - dm.numcl
      invariant start <= cl ==> forall k :: start <= k < cl && k < dm.numcl + 2 ==> Table(c.contents, dm)[k] != FREECLUSTER
      invariant start + i >= dm.numcl + 2 ==>
                  forall k :: 2 <= k < cl || start <= k < dm.numcl + 2 ==> Table(c.contents, dm)[k] != FREECLUSTER
    {
      var link := GetRealCl(c, dm, cl);
      if link == 0 {
        return cl;
      }
      if cl == dm.numcl + 1 {
        cl := 1;
      }
      i, cl := i + 1, cl + 1;
    }
    r := 0;
  }

  // ---------- Extending a chain

  /** The table after cluster `f` has been linked to the end of chain `ch`. */
  function Extended(tab: seq<Link>, ch: seq<nat>, f: nat): (tab': seq<Link>)
    requires f < |tab| <= 0x10000 && forall i :: 0 <= i < |ch| ==> ch[i] < |tab|
  {
    var t := tab[f := ENDOFCHAIN];
    if ch == [] then t else t[ch[|ch| - 1] := f]
  }

  lemma ExtendChain(tab: seq<Link>, start: Link, ch: seq<nat>, f: nat)
    requires TableOk(tab) && IsChain(tab, start, ch) && IsFree(tab, f)
    ensures f !in ch
    ensures IsChain(Extended(tab, ch, f), if ch == [] then f else start, ch + [f])
  {
    ChainAcyclic(tab, start, ch);
    forall i | 0 <= i < |ch|
      ensures ch[i] != f
    {
      assert i < |ch| - 1 ==> tab[ch[i]] == ch[i + 1];
    }
    var t, ch' := Extended(tab, ch, f), ch + [f];
    forall i | 0 <= i < |ch'| - 1
      ensures t[ch'[i]] == ch'[i + 1]
    {
      if i < |ch| - 1 { assert ch[i] != ch[|ch| - 1]; }
    }
  }

  ghost predicate Disjoint(s: seq<nat>, t: seq<nat>) {
    forall i, j :: 0 <= i < |s| && 0 <= j < |t| ==> s[i] != t[j]
  }

  /** Another file's chain is not affected when a free cluster is linked to this one. */
  lemma ExtendOther(tab: seq<Link>, start: Link, ch: seq<nat>, f: nat, start2: Link, ch2: seq<nat>)
    requires TableOk(tab) && IsChain(tab, start, ch) && IsFree(tab, f)
    requires IsChain(tab, start2, ch2) && Disjoint(ch, ch2)
    ensures IsChain(Extended(tab, ch, f), start2, ch2) && Disjoint(ch + [f], ch2)
  {
    ExtendChain(tab, start2, ch2, f);
    forall i | 0 <= i < |ch2|
      ensures Extended(tab, ch, f)[ch2[i]] == tab[ch2[i]] && ch2[i] != f
    {
      assert ch2[i] in ch2;
      if ch != [] { assert ch[|ch| - 1] != ch2[i]; }
    }
  }

  /** The part of an open file that all its descriptors share. */
  class Dfd {
    var strtcl: Link
    var fileln: nat
    var dirty: bool
  }

  /** An open file descriptor of a data file or subdirectory. */
  class Ofd {
    const dfd: Dfd
    var bytnum: nat
    var curcl: Link
    var currec: nat
    var curbyt: nat

    constructor (dfd: Dfd)
      ensures this.dfd == dfd && bytnum == 0 && curcl == 0 && currec == 0 && curbyt == 0
    {
      this.dfd, bytnum, curcl, currec, curbyt := dfd, 0, 0, 0, 0;
    }
  }

  /** The first record of a cluster, counted in the data region. */
  function Cl2Rec(cl: nat, dm: Dmd): (rec: nat)
    requires cl >= 2
  {
    (cl - 2) * dm.clsiz
  }

  /** The descriptor is at cluster `k` of chain `ch`, or before the first one (`k == -1`). */
  ghost predicate AtCluster(p: Ofd, ch: seq<nat>, k: int)
    reads p
  {
    && -1 <= k < |ch|
    && (if k == -1 then p.curcl == 0 else p.curcl == ch[k])
  }

  /** Chain `ch` may have grown by clusters that were free; no link outside it has changed. */
  ghost predicate Grown(tab: seq<Link>, tab': seq<Link>, ch: seq<nat>, ch': seq<nat>) {
    && |tab| == |tab'| && ch <= ch'
    && (forall i :: |ch| <= i < |ch'| ==> IsFree(tab, ch'[i]))
    && (forall c :: 0 <= c < |tab| && c !in ch' ==> tab'[c] == tab[c])
  }

  ghost predicate Full(tab: seq<Link>) { forall c :: 2 <= c < |tab| ==> tab[c] != FREECLUSTER }

  lemma GrownRefl(tab: seq<Link>, ch: seq<nat>)
    ensures Grown(tab, tab, ch, ch)
  {
  }

  lemma GrownTrans(tab: seq<Link>, tab1: seq<Link>, tab2: seq<Link>, start1: Link, ch: seq<nat>, ch1: seq<nat>, ch2: seq<nat>)
    requires Grown(tab, tab1, ch, ch1) && Grown(tab1, tab2, ch1, ch2)
    requires TableOk(tab1) && IsChain(tab1, start1, ch1)
    ensures Grown(tab, tab2, ch, ch2)
  {
    forall i | |ch1| <= i < |ch2|
      ensures IsFree(tab, ch2[i])
    {
      ExtendChain(tab1, start1, ch1, ch2[i]);
    }
    assert forall c :: c in ch1 ==> c in ch2;
  }

  lemma ExtendGrows(tab: seq<Link>, start: Link, ch: seq<nat>, f: nat)
    requires TableOk(tab) && IsChain(tab, start, ch) && IsFree(tab, f)
    ensures Grown(tab, Extended(tab, ch, f), ch, ch + [f])
  {
    if ch != [] { assert ch[|ch| - 1] in ch + [f]; }
    assert f in ch + [f];
    var t := Extended(tab, ch, f);
    forall c | 0 <= c < |tab| && c !in ch + [f]
      ensures t[c] == tab[c]
    {
      assert c != f && (ch != [] ==> c != ch[|ch| - 1]);
    }
  }

  /** The chain of another file is as it was, and still shares no cluster with this one. */
  lemma GrownOther(tab: seq<Link>, tab': seq<Link>, ch: seq<nat>, ch': seq<nat>, start2: Link, ch2: seq<nat>)
    requires Grown(tab, tab', ch, ch') && TableOk(tab) && IsChain(tab, start2, ch2) && Disjoint(ch, ch2)
    ensures IsChain(tab', start2, ch2) && Disjoint(ch', ch2)
  {
    forall i, j | 0 <= i < |ch'| && 0 <= j < |ch2|
      ensures ch'[i] != ch2[j]
    {
      if i >= |ch| { ExtendChain(tab, start2, ch2, ch'[i]); }
    }
    forall j | 0 <= j < |ch2|
      ensures tab'[ch2[j]] == tab[ch2[j]]
    {
    }
  }

  /** Allocate a cluster and link it to the end of the chain. */
  method Allocate(c: Cache, dm: Dmd, p: Ofd, ghost ch: seq<nat>) returns (cl2: Link)
    requires c.Valid() && c.Mounted(dm) && HasDrive(c.contents, dm)
    requires IsChain(Table(c.contents, dm), p.dfd.strtcl, ch) && AtCluster(p, ch, |ch| - 1)
    modifies c, p.dfd
    ensures c.Valid() && HasDrive(c.contents, dm) && cl2 < dm.numcl + 2
    ensures FirstFree(Table(old(c.contents), dm), if ch == [] then 2 else ch[|ch| - 1], cl2)
    ensures cl2 == 0 ==> c.contents == old(c.contents) && p.dfd.strtcl == old(p.dfd.strtcl)
    ensures cl2 != 0 ==>
              && SameOutside(old(c.contents), c.contents, dm, Fat)
              && Table(c.contents, dm) == Extended(Table(old(c.contents), dm), ch, cl2)
              && p.dfd.strtcl == (if ch == [] then cl2 else old(p.dfd.strtcl))
    ensures p.dfd.fileln == old(p.dfd.fileln)
    ensures old(c.CopiesMirrored()) ==> c.CopiesMirrored()
  {
    hide ListOk, MediumOk, DrivesOk, Mirrored, MruFirst, Renewed, Table, HasRegion, SameOutside;
    var cl := p.curcl;
    var f := FindFree(c, dm, cl);
    if f == 0 {
      return 0;
    }
    cl2 := f;
    ClFix(c, dm, cl2, ENDOFCHAIN);
    ghost var m1 := c.contents;
    if cl != 0 {
      ClFix(c, dm, cl, cl2);
      SameOutsideTrans(old(c.contents), m1, c.contents, dm, Fat);
    } else {
      p.dfd.strtcl := cl2;
      p.dfd.dirty := true;
    }
  }

  /** Move the descriptor to the next cluster of its chain, extending the chain if it is to write. */
  method NextCl(c: Cache, dm: Dmd, p: Ofd, wrt: bool, ghost ch: seq<nat>, ghost k: int)
    returns (ok: bool, ghost ch': seq<nat>)
    requires c.Valid() && c.Mounted(dm) && HasDrive(c.contents, dm)
    requires IsChain(Table(c.contents, dm), p.dfd.strtcl, ch) && AtCluster(p, ch, k)
    modifies c, p, p.dfd
    ensures c.Valid() && HasDrive(c.contents, dm) && SameOutside(old(c.contents), c.contents, dm, Fat)
    ensures IsChain(Table(c.contents, dm), p.dfd.strtcl, ch')
    ensures Grown(Table(old(c.contents), dm), Table(c.contents, dm), ch, ch')
    ensures ok <==> k + 1 < |ch'|
    ensures k + 1 < |ch| || !wrt ==> ch' == ch && c.contents == old(c.contents)
    ensures !ok && wrt ==> Full(Table(c.contents, dm))
    ensures ok ==> p.curcl == ch'[k + 1] && p.currec == Cl2Rec(ch'[k + 1], dm) && p.curbyt == 0
    ensures !ok ==> p.curcl == old(p.curcl) && p.currec == old(p.currec) && p.curbyt == old(p.curbyt) && ch' == ch
    ensures |ch'| <= |ch| + 1
    ensures p.bytnum == old(p.bytnum) && p.dfd.fileln == old(p.dfd.fileln)
    ensures old(c.CopiesMirrored()) ==> c.CopiesMirrored()
  {
    hide ListOk, MediumOk, DrivesOk, Mirrored, MruFirst, Renewed, Table, HasRegion, Extended;
    ch' := ch;
    GrownRefl(Table(c.contents, dm), ch);
    var cl := p.curcl;
    var cl2: Link;
    if cl == 0 {
      cl2 := if p.dfd.strtcl != 0 then p.dfd.strtcl else ENDOFCHAIN;
    } else {
      cl2 := GetRealCl(c, dm, cl);
    }
    LinkEnds(Table(c.contents, dm), p.dfd.strtcl, ch, k, cl2);
    if wrt && EndOfChain(cl2) {
      cl2 := Allocate(c, dm, p, ch);
      if cl2 == 0 {
        return false, ch;
      }
      ghost var tab, f := Table(old(c.contents), dm), cl2 as nat;
      ExtendChain(tab, old(p.dfd.strtcl), ch, f);
      ExtendGrows(tab, old(p.dfd.strtcl), ch, f);
      ch' := ch + [f];
    }
    if EndOfChain(cl2) {
      return false, ch;
    }
    p.curcl := cl2;
    p.currec := Cl2Rec(cl2, dm);
    p.curbyt := 0;
    ok := true;
  }

  /** The link after position `k` of a chain is an end mark exactly at the end. */
  lemma LinkEnds(tab: seq<Link>, start: Link, ch: seq<nat>, k: int, l: Link)
    requires TableOk(tab) && IsChain(tab, start, ch) && -1 <= k < |ch|
    requires l == if k == -1 then (if start != 0 then start else ENDOFCHAIN) else tab[ch[k]]
    ensures EndOfChain(l) <==> k + 1 == |ch|
    ensures k + 1 < |ch| ==> l == ch[k + 1]
  {
  }

  // ---------- Freeing a chain

  /** The table after the first `n` clusters of `ch` have been freed. */
  ghost predicate Freed(tab: seq<Link>, tab': seq<Link>, ch: seq<nat>, n: nat) {
    && |tab| == |tab'| && n <= |ch|
    && (forall i :: 0 <= i < n && ch[i] < |tab| ==> tab'[ch[i]] == FREECLUSTER)
    && (forall c :: 0 <= c < |tab| && c !in ch[..n] ==> tab'[c] == tab[c])
  }

  lemma FreeOneMore(tab: seq<Link>, tab1: seq<Link>, ch: seq<nat>, n: nat)
    requires Freed(tab, tab1, ch, n) && n < |ch| && ch[n] < |tab|
    ensures Freed(tab, tab1[ch[n] := FREECLUSTER], ch, n + 1)
  {
    assert ch[..n + 1] == ch[..n] + [ch[n]];
  }

  /** The loop of ixdel: free the clusters of a file one after the other. */
  method FreeChain(c: Cache, dm: Dmd, start: Link, ghost ch: seq<nat>)
    requires c.Valid() && c.Mounted(dm) && HasDrive(c.contents, dm)
    requires IsChain(Table(c.contents, dm), start, ch)
    modifies c
    ensures c.Valid() && HasDrive(c.contents, dm) && SameOutside(old(c.contents), c.contents, dm, Fat)
    ensures Freed(Table(old(c.contents), dm), Table(c.contents, dm), ch, |ch|)
    ensures old(c.CopiesMirrored()) ==> c.CopiesMirrored()
  {
    hide ListOk, MediumOk, DrivesOk, Mirrored, MruFirst, Renewed, Table, HasRegion;
    ghost var tab, i := Table(c.contents, dm), 0;
    ChainAcyclic(tab, start, ch);
    var n := start;
    while n != 0 && !EndOfChain(n)
      invariant c.Valid() && HasDrive(c.contents, dm) && SameOutside(old(c.contents), c.contents, dm, Fat)
      invariant old(c.CopiesMirrored()) ==> c.CopiesMirrored()
      invariant i <= |ch| && Freed(tab, Table(c.contents, dm), ch, i)
      invariant i < |ch| ==> n == ch[i]
      invariant i == |ch| ==> n == 0 || EndOfChain(n)
      decreases |ch| - i
    {
      ghost var m1 := c.contents;
      StillLinked(tab, Table(c.contents, dm), start, ch, i);
      var n2 := GetRealCl(c, dm, n);
      ClFix(c, dm, n, FREECLUSTER);
      SameOutsideTrans(old(c.contents), m1, c.contents, dm, Fat);
      FreeOneMore(tab, Table(m1, dm), ch, i);
      n, i := n2, i + 1;
    }
    assert i == |ch|;
  }

  /** While the clusters before it are freed, the rest of a chain stays as it was. */
  lemma StillLinked(tab: seq<Link>, tab1: seq<Link>, start: Link, ch: seq<nat>, n: nat)
    requires TableOk(tab) && IsChain(tab, start, ch) && Freed(tab, tab1, ch, n) && n < |ch|
    ensures tab1[ch[n]] == tab[ch[n]]
    ensures n + 1 < |ch| ==> tab1[ch[n]] == ch[n + 1]
    ensures n + 1 == |ch| ==> EndOfChain(tab1[ch[n]])
  {
    ChainAcyclic(tab, start, ch);
    assert ch[n] !in ch[..n];
  }

  // ---------- How many clusters are free

  ghost function FreeSet(tab: seq<Link>): (s: set<nat>)
    ensures forall c :: c in s <==> IsFree(tab, c)
  {
    set c | 2 <= c < |tab| && tab[c] == FREECLUSTER
  }

  /** The number of free clusters of a drive. */
  ghost function FreeCount(tab: seq<Link>): (n: nat) { |FreeSet(tab)| }

  lemma FullIff(tab: seq<Link>)
    ensures Full(tab) <==> FreeCount(tab) == 0
  {
    if Full(tab) {
      assert FreeSet(tab) == {};
    }
    if FreeCount(tab) == 0 {
      forall c | 2 <= c < |tab|
        ensures tab[c] != FREECLUSTER
      {
        assert c !in FreeSet(tab);
      }
    }
  }

  /** The clusters in a list. */
  function Members(s: seq<nat>): (m: set<nat>)
    ensures forall c :: c in m <==> c in s
  {
    set c | c in s
  }

  lemma {:induction false} MembersCount(s: seq<nat>)
    requires NoDups(s)
    ensures |Members(s)| == |s|
    decreases |s|
  {
    if s != [] {
      var n := |s| - 1;
      MembersCount(s[..n]);
      assert s[n] !in s[..n];
      assert s == s[..n] + [s[n]];
      assert Members(s) == Members(s[..n]) + {s[n]};
    }
  }

  lemma JoinCount(a: set<nat>, b: set<nat>, c: set<nat>)
    requires a == b + c && b !! c
    ensures |a| == |b| + |c|
  {
  }

  /** No cluster of a chain is free. */
  lemma ChainTaken(tab: seq<Link>, start: Link, ch: seq<nat>, c: nat)
    requires IsChain(tab, start, ch) && c in ch
    ensures 2 <= c < |tab| && tab[c] != FREECLUSTER
  {
    var i :| 0 <= i < |ch| && ch[i] == c;
    assert i < |ch| - 1 ==> tab[ch[i]] == ch[i + 1];
  }

  /** What a chain grows by is no longer free, and nothing else has changed that. */
  lemma GrownFree(tab: seq<Link>, tab': seq<Link>, start: Link, start': Link, ch: seq<nat>, ch': seq<nat>)
    requires Grown(tab, tab', ch, ch') && TableOk(tab) && IsChain(tab, start, ch) && IsChain(tab', start', ch')
    ensures FreeCount(tab') + |ch'| == FreeCount(tab) + |ch|
  {
    hide IsChain, FreeSet;
    ChainAcyclic(tab', start', ch');
    var more := ch'[|ch|..];
    MembersCount(more);
    assert ch' == ch + more;
    forall c
      ensures c in FreeSet(tab) <==> c in FreeSet(tab') || c in more
      ensures c in FreeSet(tab') ==> c !in more
    {
      if c in more {
        var i :| 0 <= i < |more| && more[i] == c;
        assert c == ch'[|ch| + i];
      }
      if c in ch { ChainTaken(tab, start, ch, c); }
      if c in ch' { ChainTaken(tab', start', ch', c); }
    }
    JoinCount(FreeSet(tab), FreeSet(tab'), Members(more));
  }

  /** Freeing a chain makes just its clusters free. */
  lemma FreedFree(tab: seq<Link>, tab': seq<Link>, start: Link, ch: seq<nat>)
    requires Freed(tab, tab', ch, |ch|) && TableOk(tab) && IsChain(tab, start, ch)
    ensures FreeCount(tab') == FreeCount(tab) + |ch|
    ensures forall c :: c in ch ==> IsFree(tab', c)
  {
    hide IsChain, FreeSet;
    ChainAcyclic(tab, start, ch);
    MembersCount(ch);
    assert ch[..|ch|] == ch;
    forall c
      ensures c in FreeSet(tab') <==> c in FreeSet(tab) || c in ch
      ensures c in FreeSet(tab) ==> c !in ch
    {
      if c in ch { ChainTaken(tab, start, ch, c); }
    }
    JoinCount(FreeSet(tab'), FreeSet(tab), Members(ch));
  }

  // ---------- Runs of the allocator

  /** A volume with its files: the table, and for each file its first cluster and its chain. */
  datatype File = File(start: Link, chain: seq<nat>)
  datatype Volume = Volume(tab: seq<Link>, files: seq<File>)

  /** Every file has a chain, and no cluster is in two chains (or twice in one). */
  ghost predicate VolumeOk(v: Volume) {
    && TableOk(v.tab)
    && (forall i :: 0 <= i < |v.files| ==> IsChain(v.tab, v.files[i].start, v.files[i].chain))
    && (forall i, j :: 0 <= i < j < |v.files| ==> Disjoint(v.files[i].chain, v.files[j].chain))
  }

  /** The clusters that are free or in the chain of a file. */
  ghost function Accounted(v: Volume): (s: set<nat>) {
    (set c | 2 <= c < |v.tab| && v.tab[c] == FREECLUSTER) +
    (set i, c | 0 <= i < |v.files| && c in v.files[i].chain :: c)
  }

  datatype Op = Grow(i: nat) | Delete(i: nat)

  /** One operation on file `i`: what NextCl or FreeChain does to the table, and to no other file. */
  ghost predicate Step(v: Volume, v': Volume, op: Op) {
    && op.i < |v.files| == |v'.files|
    && (forall j :: 0 <= j < |v.files| && j != op.i ==> v'.files[j] == v.files[j])
    && (match op
        case Grow(i) => Grown(v.tab, v'.tab, v.files[i].chain, v'.files[i].chain)
                        && IsChain(v'.tab, v'.files[i].start, v'.files[i].chain)
        case Delete(i) => Freed(v.tab, v'.tab, v.files[i].chain, |v.files[i].chain|) && v'.files[i] == File(0, []))
  }

  lemma GrowKeeps(v: Volume, v': Volume, i: nat)
    requires VolumeOk(v) && Step(v, v', Grow(i))
    ensures VolumeOk(v')
  {
    forall j | 0 <= j < |v.files| && j != i
      ensures IsChain(v'.tab, v.files[j].start, v.files[j].chain) && Disjoint(v'.files[i].chain, v.files[j].chain)
    {
      assert Disjoint(v.files[i].chain, v.files[j].chain);
      GrownOther(v.tab, v'.tab, v.files[i].chain, v'.files[i].chain, v.files[j].start, v.files[j].chain);
    }
  }

  lemma DeleteKeeps(v: Volume, v': Volume, i: nat)
    requires VolumeOk(v) && Step(v, v', Delete(i))
    ensures VolumeOk(v')
  {
    forall j | 0 <= j < |v.files| && j != i
      ensures IsChain(v'.tab, v.files[j].start, v.files[j].chain)
    {
      assert Disjoint(v.files[i].chain, v.files[j].chain);
      var ch, d := v.files[i].chain, v.files[j].chain;
      forall k | 0 <= k < |d|
        ensures v'.tab[d[k]] == v.tab[d[k]]
      {
        assert ch[..|ch|] == ch;
        assert d[k] !in ch;
      }
    }
  }

  ghost predicate InSomeChain(v: Volume, c: nat) {
    exists i :: 0 <= i < |v.files| && c in v.files[i].chain
  }

  lemma AccountedIff(v: Volume, c: nat)
    ensures c in Accounted(v) <==> IsFree(v.tab, c) || InSomeChain(v, c)
  {
  }

  /** A cluster is free or in a chain after a step if and only if it was before. */
  lemma StepConserves(v: Volume, v': Volume, op: Op)
    requires VolumeOk(v) && Step(v, v', op)
    ensures Accounted(v') == Accounted(v)
  {
    hide Accounted;
    forall c
      ensures c in Accounted(v') <==> c in Accounted(v)
    {
      AccountedIff(v, c);
      AccountedIff(v', c);
      ChainsElsewhere(v, v', op, c);
      var ch := v.files[op.i].chain;
      assert ch[..|ch|] == ch;
      assert IsChain(v.tab, v.files[op.i].start, ch);
      if c in ch { assert InSomeChain(v, c); }
      if c in v'.files[op.i].chain { assert InSomeChain(v', c); }
    }
  }

  lemma ChainsElsewhere(v: Volume, v': Volume, op: Op, c: nat)
    requires Step(v, v', op)
    ensures InSomeChain(v, c) ==> c in v.files[op.i].chain || InSomeChain(v', c)
    ensures InSomeChain(v', c) ==> c in v'.files[op.i].chain || InSomeChain(v, c)
  {
    if InSomeChain(v, c) {
      var j :| 0 <= j < |v.files| && c in v.files[j].chain;
      if j != op.i { assert c in v'.files[j].chain; }
    }
    if InSomeChain(v', c) {
      var j :| 0 <= j < |v'.files| && c in v'.files[j].chain;
      if j != op.i { assert c in v.files[j].chain; }
    }
  }

  /** Over any run of extensions and deletions the files keep their chains apart and no cluster is
      gained or lost. */
  lemma {:induction false} RunKeeps(vs: seq<Volume>, ops: seq<Op>)
    requires |vs| == |ops| + 1 && VolumeOk(vs[0])
    requires forall k :: 0 <= k < |ops| ==> Step(vs[k], vs[k + 1], ops[k])
    ensures forall k :: 0 <= k < |vs| ==> VolumeOk(vs[k]) && Accounted(vs[k]) == Accounted(vs[0])
    decreases |ops|
  {
    hide VolumeOk, Accounted, Step;
    if ops != [] {
      var n := |ops| - 1;
      RunKeeps(vs[..n + 1], ops[..n]);
      assert VolumeOk(vs[..n + 1][n]);
      assert Step(vs[n], vs[n + 1], ops[n]);
      StepConserves(vs[n], vs[n + 1], ops[n]);
      match ops[n] {
        case Grow(i) => GrowKeeps(vs[n], vs[n + 1], i);
        case Delete(i) => DeleteKeeps(vs[n], vs[n + 1], i);
      }
      forall k | 0 <= k < |vs|
        ensures VolumeOk(vs[k]) && Accounted(vs[k]) == Accounted(vs[0])
      {
        if k <= n { assert vs[..n + 1][k] == vs[k]; }
      }
    }
  }
}
