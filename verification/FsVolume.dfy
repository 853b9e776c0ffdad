/** Several files on one drive: runs of reads, writes, seeks and deletions, against files as plain byte sequences. */
module FsVolume {
  import opened Basics
  import opened FsMedia
  import opened FsCache
  import opened FsFat
  import opened FsChain
  import opened FsFile
  import opened FsIo

  /** A file as its users see it: its bytes, the position, and the number of clusters it has. */
  datatype UserFile = UserFile(bytes: seq<Byte>, pos: nat, clusters: nat)

  /** A file without bytes or clusters. */
  const NOTHING := UserFile([], 0, 0)

  /** What writing `data` at the position makes of a file, with clusters of `cb` bytes. */
  function Written(f: UserFile, data: seq<Byte>, cb: nat): (r: UserFile)
    requires f.pos <= |f.bytes| && cb > 0
    ensures r.pos <= |r.bytes|
  {
    var end := f.pos + |data|;
    UserFile(f.bytes[..f.pos] + data + (if end < |f.bytes| then f.bytes[end..] else []), end, Extent(f.clusters, end, cb))
  }

  /** How many of `len` bytes a write takes: those that are tried, as far as its clusters and the free ones go. */
  function Takes(f: UserFile, free: nat, cb: nat, len: nat): (n: nat)
    requires cb > 0
    ensures n <= len
  {
    var room := (f.clusters + free) * cb - f.pos;
    if room < 0 then 0 else Min(TriedAt(f.pos, cb, len), room)
  }

  /** How many of `len` bytes there are to read, and those bytes. */
  function Rest(f: UserFile, len: int): (n: nat) {
    if f.pos > |f.bytes| || len < 0 then 0 else Min(len, |f.bytes| - f.pos)
  }

  function Part(f: UserFile, n: nat): (s: seq<Byte>) {
    if f.pos + n <= |f.bytes| then f.bytes[f.pos..f.pos + n] else []
  }

  /** The descriptor, with its chain and place in it, shows file `f` on the medium. */
  ghost predicate Shows(m: Medium, dm: Dmd, p: Ofd, ch: seq<nat>, k: int, o: nat, f: UserFile)
    reads p, p.dfd
  {
    && OnDrive(m, dm, p.dfd.strtcl, ch) && PosAt(p, dm, ch, k, o) && p.bytnum <= p.dfd.fileln <= |ch| * dm.ClBytes()
    && f == UserFile(Bytes(m, dm, p.dfd.strtcl, ch)[..p.dfd.fileln], p.bytnum, |ch|)
  }

  /** An operation that makes chain `ch` into `ch'` leaves every file on other clusters alone and off them. */
  ghost predicate KeepsOthers(m: Medium, m': Medium, dm: Dmd, ch: seq<nat>, ch': seq<nat>) {
    && OthersKept(m, m', dm, ch)
    && forall start2, ch2 :: OnDrive(m, dm, start2, ch2) && Disjoint(ch, ch2) ==> Disjoint(ch', ch2) && Disjoint(ch2, ch')
  }

  /** A file that such an operation leaves alone is shown as before. */
  lemma StillShows(m: Medium, m': Medium, dm: Dmd, ch: seq<nat>, ch': seq<nat>, p: Ofd, ch2: seq<nat>, k: int, o: nat, f: UserFile)
    requires KeepsOthers(m, m', dm, ch, ch') && Disjoint(ch, ch2) && Shows(m, dm, p, ch2, k, o, f)
    ensures Shows(m', dm, p, ch2, k, o, f) && Disjoint(ch', ch2) && Disjoint(ch2, ch')
  {
    hide OnDrive, Bytes, PosAt, Disjoint;
  }

  /** The number of free clusters on a drive. */
  ghost function Free(m: Medium, dm: Dmd): (n: nat) { if HasDrive(m, dm) then FreeCount(Table(m, dm)) else 0 }

  /** Read from a file. */
  method ReadFile(c: Cache, dm: Dmd, p: Ofd, len: int, buf: array<Byte>, ghost ch: seq<nat>, ghost k: int, ghost o: nat, ghost f: UserFile)
    returns (n: nat, ghost k': int, ghost o': nat)
    requires c.Valid() && c.Mounted(dm) && dm.ClBytes() > 0 && Shows(c.contents, dm, p, ch, k, o, f) && len <= buf.Length
    modifies c, p, p.dfd, buf
    ensures c.Valid() && c.contents == old(c.contents) && n == Rest(f, len) <= buf.Length && buf[..n] == Part(f, n)
    ensures Shows(c.contents, dm, p, ch, k', o', f.(pos := f.pos + n))
  {
    hide Cache.Valid, Cache.CopiesMirrored, OnDrive, Bytes, PosAt, Splice, TriedAt;
    ghost var m := c.contents;
    ReadAll(m, dm, p, ch, k, o, f, len);
    ghost var was := buf[..];
    n, k', o' := IxRead(c, dm, p, len, buf, ch, k, o);
    ReadBytes(was, buf[..], Bytes(m, dm, p.dfd.strtcl, ch), f, p.dfd.fileln, n);
    assert buf[..][..n] == buf[..n];
  }

  /** Write to a file. */
  method WriteFile(c: Cache, dm: Dmd, p: Ofd, data: array<Byte>, ghost ch: seq<nat>, ghost k: int, ghost o: nat, ghost f: UserFile)
    returns (n: nat, ghost ch': seq<nat>, ghost k': int, ghost o': nat)
    requires c.Valid() && c.Mounted(dm) && dm.ClBytes() > 0 && Shows(c.contents, dm, p, ch, k, o, f)
    modifies c, p, p.dfd, data
    ensures c.Valid() && f.pos <= |f.bytes| && data[..] == old(data[..]) && n <= data.Length
    ensures Shows(c.contents, dm, p, ch', k', o', Written(f, data[..n], dm.ClBytes())) && KeepsOthers(old(c.contents), c.contents, dm, ch, ch')
    ensures n == Takes(f, Free(old(c.contents), dm), dm.ClBytes(), data.Length) && HasDrive(c.contents, dm)
    ensures Free(c.contents, dm) + |ch'| == Free(old(c.contents), dm) + |ch|
  {
    hide Cache.Valid, Cache.CopiesMirrored, Bytes, PosAt, Splice, TriedAt, Disjoint, Full, OnlyFiles, OthersKept, Table, Image, IsChain, FileBytes, Fits, Written, Room, HasDrive, HasRegion, FreeCount, Taken, Extent, Takes;
    ghost var m, len0 := c.contents, p.dfd.fileln;
    ReadAll(m, dm, p, ch, k, o, f, 0);
    ChainFits(m, dm, p.dfd.strtcl, ch);
    BytesAre(m, dm, p.dfd.strtcl, ch);
    n, ch', k', o' := IxWrite(c, dm, p, data.Length, data, ch, k, o);
    TakenIs(m, c.contents, dm, ch, ch', f, data.Length, n);
    WriteShows(m, c.contents, dm, p, ch, ch', k', o', f, len0, data[..n]);
    forall start2, ch2 | OnDrive(m, dm, start2, ch2) && Disjoint(ch, ch2)
      ensures Disjoint(ch', ch2) && Disjoint(ch2, ch')
    {
      GrownApart(m, c.contents, dm, ch, ch', start2, ch2);
    }
  }

  lemma TakenIs(m: Medium, m': Medium, dm: Dmd, ch: seq<nat>, ch': seq<nat>, f: UserFile, len: nat, n: nat)
    requires HasDrive(m, dm) && HasDrive(m', dm) && f.clusters == |ch| && dm.ClBytes() > 0
    requires Taken(Table(m, dm), Table(m', dm), ch, ch', f.pos, dm.ClBytes(), len, n)
    ensures n == Takes(f, Free(m, dm), dm.ClBytes(), len) && |ch'| == Extent(|ch|, f.pos + n, dm.ClBytes())
    ensures Free(m', dm) + |ch'| == Free(m, dm) + |ch|
  {
    hide Table, HasDrive, FreeCount, TriedAt, Extent;
  }

  lemma BytesAre(m: Medium, dm: Dmd, start: Link, ch: seq<nat>)
    requires OnDrive(m, dm, start, ch) && HasRegion(m, dm, Data) && Fits(Image(m, dm, Data), dm.ClBytes(), ch)
    ensures Bytes(m, dm, start, ch) == FileBytes(Image(m, dm, Data), dm.ClBytes(), ch)
  {
    hide Image, FileBytes, Table, IsChain;
  }

  /** Delete a file; the descriptor then shows an empty one. */
  method EraseFile(c: Cache, dm: Dmd, p: Ofd, ghost ch: seq<nat>, ghost k: int, ghost o: nat, ghost f: UserFile)
    requires c.Valid() && c.Mounted(dm) && dm.ClBytes() > 0 && Shows(c.contents, dm, p, ch, k, o, f)
    modifies c, p, p.dfd
    ensures c.Valid() && Shows(c.contents, dm, p, [], -1, dm.ClBytes(), NOTHING) && KeepsOthers(old(c.contents), c.contents, dm, ch, [])
    ensures HasDrive(old(c.contents), dm) && HasDrive(c.contents, dm)
    ensures Freed(Table(old(c.contents), dm), Table(c.contents, dm), ch, |ch|)
    ensures forall cl :: cl in ch ==> IsFree(Table(c.contents, dm), cl)
    ensures Free(c.contents, dm) == Free(old(c.contents), dm) + |ch|
  {
    hide Cache.Valid, Cache.CopiesMirrored, Bytes, PosAt, Disjoint, OthersKept, Table, HasDrive, IsChain, Freed, SameOutside, FreeCount, IsFree;
    ghost var m := c.contents;
    FreeChain(c, dm, p.dfd.strtcl, ch);
    FreedOthers(m, c.contents, dm, ch);
    SmallTable(m, dm);
    FreedFree(Table(m, dm), Table(c.contents, dm), p.dfd.strtcl, ch);
    p.dfd.strtcl, p.dfd.fileln := 0, 0;
    p.bytnum, p.curcl, p.currec, p.curbyt := 0, 0, 0, 0;
    EmptyShows(c.contents, dm, p);
    forall start2, ch2 | OnDrive(m, dm, start2, ch2) && Disjoint(ch, ch2)
      ensures Disjoint([], ch2) && Disjoint(ch2, [])
    {
      NothingApart(ch2);
    }
  }

  /** Freeing the clusters of a file leaves every other file its chain and its bytes. */
  lemma FreedOthers(m: Medium, m': Medium, dm: Dmd, ch: seq<nat>)
    requires HasDrive(m, dm) && HasDrive(m', dm) && SameOutside(m, m', dm, Fat)
    requires Freed(Table(m, dm), Table(m', dm), ch, |ch|)
    ensures OthersKept(m, m', dm, ch)
  {
    hide Table, Image, HasDrive, SameOutside;
    OtherImage(m, m', dm, Fat, Data);
    forall start2, ch2 | OnDrive(m, dm, start2, ch2) && Disjoint(ch, ch2)
      ensures OnDrive(m', dm, start2, ch2) && Bytes(m', dm, start2, ch2) == Bytes(m, dm, start2, ch2)
    {
      FreedChain(Table(m, dm), Table(m', dm), ch, start2, ch2);
      ChainFits(m, dm, start2, ch2);
      ChainFits(m', dm, start2, ch2);
    }
  }

  lemma FreedChain(tab: seq<Link>, tab': seq<Link>, ch: seq<nat>, start2: Link, ch2: seq<nat>)
    requires Freed(tab, tab', ch, |ch|) && IsChain(tab, start2, ch2) && Disjoint(ch, ch2)
    ensures IsChain(tab', start2, ch2)
  {
    assert ch[..|ch|] == ch;
    forall j | 0 <= j < |ch2|
      ensures tab'[ch2[j]] == tab[ch2[j]]
    {
      assert ch2[j] !in ch;
    }
  }

  /** What a write makes of the bytes of the clusters, seen through the length of the file. */
  lemma WrittenBytes(img: seq<Byte>, cb: nat, ch: seq<nat>, ch': seq<nat>, len: nat, b: nat, data: seq<Byte>, len': nat)
    requires cb > 0 && Fits(img, cb, ch) && Fits(img, cb, ch') && ch <= ch' && b <= len <= |ch| * cb && b + |data| <= |ch'| * cb
    requires len' == if b + |data| > len then b + |data| else len
    ensures len' <= |ch'| * cb
    ensures Splice(FileBytes(img, cb, ch'), b, data)[..len'] == Written(UserFile(FileBytes(img, cb, ch)[..len], b, |ch|), data, cb).bytes
  {
    hide FileByte;
    var old', new' := FileBytes(img, cb, ch), FileBytes(img, cb, ch');
    if |ch| < |ch'| { MulGap(cb, |ch|, |ch'|); }
    forall j | 0 <= j < len
      ensures new'[j] == old'[j]
    {
      SameFileByte(img, cb, ch, ch', j);
    }
    var s := Splice(new', b, data)[..len'];
    var w := Written(UserFile(old'[..len], b, |ch|), data, cb).bytes;
    assert |s| == len' == |w|;
    forall j | 0 <= j < len'
      ensures s[j] == w[j]
    {
    }
  }

  lemma EmptyOnDrive(m: Medium, dm: Dmd)
    requires HasDrive(m, dm)
    ensures OnDrive(m, dm, 0, []) && Bytes(m, dm, 0, []) == []
  {
    hide Table, Image;
  }

  lemma DisjointSym(a: seq<nat>, b: seq<nat>)
    requires Disjoint(a, b)
    ensures Disjoint(b, a)
  {
  }

  // ---------- Files as plain byte sequences

  datatype Op = ReadOp(i: nat, len: nat) | WriteOp(i: nat, data: seq<Byte>) | SeekOp(i: nat, n: int) | DeleteOp(i: nat)

  /** The bytes read; how many were written; whether the position moved. */
  datatype Answer = Found(data: seq<Byte>) | Took(n: nat) | Went(ok: bool) | Gone

  /** The files of a drive and the number of its free clusters. */
  datatype Drive = Drive(files: seq<UserFile>, free: nat)

  /** Every position is inside its file, and every file inside its clusters. */
  predicate Sound(cb: nat, d: Drive) {
    && cb > 0
    && forall i :: 0 <= i < |d.files| ==> d.files[i].pos <= |d.files[i].bytes| <= d.files[i].clusters * cb
  }

  predicate Allowed(cb: nat, d: Drive, op: Op) { Sound(cb, d) && op.i < |d.files| }

  /** The answer to an operation. */
  function Reply(cb: nat, d: Drive, op: Op): (ans: Answer)
    requires Allowed(cb, d, op)
  {
    var f := d.files[op.i];
    match op
    case ReadOp(_, len) => Found(Part(f, Rest(f, len)))
    case WriteOp(_, data) => Took(Takes(f, d.free, cb, |data|))
    case SeekOp(_, n) => Went(0 <= n <= |f.bytes|)
    case DeleteOp(_) => Gone
  }

  /** The drive after it. */
  function After(cb: nat, d: Drive, op: Op): (d': Drive)
    requires Allowed(cb, d, op)
  {
    var f := d.files[op.i];
    match op
    case ReadOp(i, len) => d.(files := d.files[i := f.(pos := f.pos + Rest(f, len))])
    case WriteOp(i, data) =>
      var g := Written(f, data[..Takes(f, d.free, cb, |data|)], cb);
      Drive(d.files[i := g], if g.clusters <= f.clusters + d.free then f.clusters + d.free - g.clusters else 0)
    case SeekOp(i, n) => if 0 <= n <= |f.bytes| then d.(files := d.files[i := f.(pos := n)]) else d
    case DeleteOp(i) => Drive(d.files[i := NOTHING], d.free + f.clusters)
  }

  /** The answers to a run of operations. */
  function Replies(cb: nat, d: Drive, ops: seq<Op>): (answers: seq<Answer>)
    requires Sound(cb, d) && forall k :: 0 <= k < |ops| ==> ops[k].i < |d.files|
    decreases |ops|
  {
    if ops == [] then [] else
      AfterSound(cb, d, ops[0]);
      [Reply(cb, d, ops[0])] + Replies(cb, After(cb, d, ops[0]), ops[1..])
  }

  function AfterAll(cb: nat, d: Drive, ops: seq<Op>): (d': Drive)
    requires Sound(cb, d) && forall k :: 0 <= k < |ops| ==> ops[k].i < |d.files|
    decreases |ops|
  {
    if ops == [] then d else
      AfterSound(cb, d, ops[0]);
      AfterAll(cb, After(cb, d, ops[0]), ops[1..])
  }

  /** A write never needs more clusters than the file has and are free. */
  lemma TakesFits(f: UserFile, free: nat, cb: nat, data: seq<Byte>)
    requires cb > 0 && f.pos <= |f.bytes| <= f.clusters * cb
    ensures var n := Takes(f, free, cb, |data|);
            var g := Written(f, data[..n], cb);
            g.clusters <= f.clusters + free && g.pos <= |g.bytes| <= g.clusters * cb
  {
    hide TriedAt, Extent;
    var n, e := Takes(f, free, cb, |data|), f.pos + Takes(f, free, cb, |data|);
    NoLess(f.clusters, f.clusters + free, cb);
    var x := Extent(f.clusters, e, cb);
    ExtentIs(f.clusters, e, cb, x);
    NoLess(f.clusters, x, cb);
    if x > f.clusters + free { NoLess(f.clusters + free, x - 1, cb); }
  }

  lemma AfterSound(cb: nat, d: Drive, op: Op)
    requires Allowed(cb, d, op)
    ensures Sound(cb, After(cb, d, op)) && |After(cb, d, op).files| == |d.files|
  {
    hide Takes, Written;
    var f := d.files[op.i];
    if op.WriteOp? { TakesFits(f, d.free, cb, op.data); }
    assert 0 <= 0 * cb;
  }

  /** The clusters of the first n files. */
  function Used(files: seq<UserFile>, n: nat): (c: nat)
    requires n <= |files|
  {
    if n == 0 then 0 else Used(files, n - 1) + files[n - 1].clusters
  }

  lemma {:induction false} UsedUpdate(files: seq<UserFile>, i: nat, g: UserFile, n: nat)
    requires i < |files| && n <= |files|
    ensures Used(files[i := g], n) + (if i < n then files[i].clusters else 0) == Used(files, n) + if i < n then g.clusters else 0
  {
    if n > 0 {
      UsedUpdate(files, i, g, n - 1);
    }
  }

  /** No operation gains or loses a cluster. */
  lemma AfterConserves(cb: nat, d: Drive, op: Op)
    requires Allowed(cb, d, op)
    ensures var d' := After(cb, d, op); d'.free + Used(d'.files, |d'.files|) == d.free + Used(d.files, |d.files|)
  {
    hide Takes, Written;
    var f, d' := d.files[op.i], After(cb, d, op);
    if op.WriteOp? { TakesFits(f, d.free, cb, op.data); }
    UsedUpdate(d.files, op.i, d'.files[op.i], |d.files|);
    assert op.SeekOp? || d'.files == d.files[op.i := d'.files[op.i]];
  }

  lemma {:induction false} RunConserves(cb: nat, d: Drive, ops: seq<Op>)
    requires Sound(cb, d) && forall k :: 0 <= k < |ops| ==> ops[k].i < |d.files|
    ensures var d' := AfterAll(cb, d, ops);
            Sound(cb, d') && |d'.files| == |d.files| && d'.free + Used(d'.files, |d'.files|) == d.free + Used(d.files, |d.files|)
    decreases |ops|
  {
    hide Sound, After, Used;
    if ops != [] {
      AfterSound(cb, d, ops[0]);
      AfterConserves(cb, d, ops[0]);
      RunConserves(cb, After(cb, d, ops[0]), ops[1..]);
    }
  }

  /** A write that starts in a file's clusters is short exactly if what is tried does not fit into these and the free ones. */
  lemma ShortIff(cb: nat, d: Drive, i: nat, data: seq<Byte>)
    requires Allowed(cb, d, WriteOp(i, data))
    ensures var f := d.files[i];
            var tried := TriedAt(f.pos, cb, |data|);
            Reply(cb, d, WriteOp(i, data)).n < tried <==> f.pos + tried > (f.clusters + d.free) * cb
    ensures var f := d.files[i];
            Reply(cb, d, WriteOp(i, data)).n < TriedAt(f.pos, cb, |data|) ==> After(cb, d, WriteOp(i, data)).free == 0
  {
    hide TriedAt, Extent;
    var f := d.files[i];
    var n := Takes(f, d.free, cb, |data|);
    NoLess(f.clusters, f.clusters + d.free, cb);
    TakesFits(f, d.free, cb, data);
    if n < TriedAt(f.pos, cb, |data|) {
      var x := Extent(f.clusters, f.pos + n, cb);
      ExtentIs(f.clusters, f.pos + n, cb, x);
      if x < f.clusters + d.free { MulGap(cb, x, f.clusters + d.free); }
    }
  }

  lemma OneReply(cb: nat, d: Drive, op: Op)
    requires Allowed(cb, d, op)
    ensures Replies(cb, d, [op]) == [Reply(cb, d, op)]
  {
    AfterSound(cb, d, op);
    assert [op][1..] == [];
    assert Replies(cb, After(cb, d, op), []) == [];
  }

  /** On a full drive with two files of one cluster a write at the end of one takes nothing; once the other is deleted
      it takes that cluster. */
  lemma DeletionHelps(cb: nat, a: seq<Byte>, b: seq<Byte>, data: seq<Byte>)
    requires cb > 0 && |a| == |b| == |data| == cb
    ensures var d := Drive([UserFile(a, 0, 1), UserFile(b, cb, 1)], 0);
            && Sound(cb, d)
            && Replies(cb, d, [WriteOp(1, data)]) == [Took(0)]
            && Replies(cb, d, [DeleteOp(0), WriteOp(1, data)]) == [Gone, Took(cb)]
  {
    hide TriedAt, Written;
    var d := Drive([UserFile(a, 0, 1), UserFile(b, cb, 1)], 0);
    var one, two := [WriteOp(1, data)], [DeleteOp(0), WriteOp(1, data)];
    assert one[1..] == [] && two[1..] == one;
    DivModUnique(cb, 1, 0, cb);
    OneCluster(cb);
    var e := After(cb, d, DeleteOp(0));
    assert Sound(cb, e);
    assert e == Drive([NOTHING, UserFile(b, cb, 1)], 1);
    assert Reply(cb, d, WriteOp(1, data)) == Took(0);
    assert Reply(cb, e, WriteOp(1, data)) == Took(cb);
    OneReply(cb, d, WriteOp(1, data));
    OneReply(cb, e, WriteOp(1, data));
  }

  lemma OneCluster(cb: nat)
    requires cb > 0
    ensures TriedAt(cb, cb, cb) == cb
  {
    hide TriedAt;
    DivModUnique(cb, 1, 0, cb);
    TriedAtWholeIff(cb, cb, cb);
    MulGap(cb, 1, 0x10000);
  }

  /** What is written and sought back to is what is read. */
  lemma WrittenIsRead(cb: nat, d: Drive, i: nat, data: seq<Byte>)
    requires Allowed(cb, d, WriteOp(i, data))
    ensures var n := Takes(d.files[i], d.free, cb, |data|);
            var ops := [WriteOp(i, data), SeekOp(i, d.files[i].pos), ReadOp(i, n)];
            Replies(cb, d, ops) == [Took(n), Went(true), Found(data[..n])]
  {
    hide Takes, Extent;
    var n := Takes(d.files[i], d.free, cb, |data|);
    var ops := [WriteOp(i, data), SeekOp(i, d.files[i].pos), ReadOp(i, n)];
    var d1 := After(cb, d, ops[0]);
    AfterSound(cb, d, ops[0]);
    var d2 := After(cb, d1, ops[1]);
    AfterSound(cb, d1, ops[1]);
    assert ops[1..] == [ops[1], ops[2]] && ops[1..][1..] == [ops[2]] && [ops[2]][1..] == [];
    var f := d2.files[i];
    assert f.bytes[f.pos..f.pos + n] == data[..n];
    assert Reply(cb, d2, ops[2]) == Found(data[..n]);
    assert Replies(cb, d2, [ops[2]]) == [Found(data[..n])];
    assert Replies(cb, d1, ops[1..]) == [Went(true), Found(data[..n])];
  }

  class Volume {
    const c: Cache
    const dm: Dmd
    const files: seq<Ofd>
    /** The chain of each file and the place of its descriptor in it. */
    ghost var chains: seq<seq<nat>>
    ghost var ks: seq<int>
    ghost var os: seq<nat>
    /** The drive as its users see it. */
    ghost var model: Drive

    ghost function Dfds(): (s: set<Dfd>) { set i | 0 <= i < |files| :: files[i].dfd }

    /** No two files share a descriptor. */
    ghost predicate Apart() {
      forall i, j :: 0 <= i < j < |files| ==> files[i] != files[j] && files[i].dfd != files[j].dfd
    }

    ghost predicate ChainsApart()
      reads this
    {
      forall i, j :: 0 <= i < |chains| && 0 <= j < |chains| && i != j ==> Disjoint(chains[i], chains[j])
    }

    ghost predicate Valid()
      reads this, c, files, Dfds()
    {
      && c.Valid() && c.Mounted(dm) && dm.ClBytes() > 0 && Apart()
      && |chains| == |ks| == |os| == |model.files| == |files| && ChainsApart()
      && HasDrive(c.contents, dm) && model.free == Free(c.contents, dm)
      && forall i :: 0 <= i < |files| ==> files[i].dfd in Dfds() && Shows(c.contents, dm, files[i], chains[i], ks[i], os[i], model.files[i])
    }

    /** Files found on a drive, each with its chain, no two sharing a cluster. */
    constructor (c: Cache, dm: Dmd, files: seq<Ofd>, ghost chains: seq<seq<nat>>, ghost ks: seq<int>, ghost os: seq<nat>, ghost model: Drive)
      requires c.Valid() && c.Mounted(dm) && dm.ClBytes() > 0 && |chains| == |ks| == |os| == |model.files| == |files|
      requires HasDrive(c.contents, dm) && model.free == Free(c.contents, dm)
      requires forall i, j :: 0 <= i < j < |files| ==> files[i] != files[j] && files[i].dfd != files[j].dfd
      requires forall i, j :: 0 <= i < |chains| && 0 <= j < |chains| && i != j ==> Disjoint(chains[i], chains[j])
      requires forall i :: 0 <= i < |files| ==> Shows(c.contents, dm, files[i], chains[i], ks[i], os[i], model.files[i])
      ensures Valid() && this.model == model && this.files == files && this.c == c && this.dm == dm
    {
      hide Cache.Valid, Shows, Disjoint, HasDrive, Free;
      this.c, this.dm, this.files := c, dm, files;
      this.chains, this.ks, this.os, this.model := chains, ks, os, model;
    }

    /** Read from file i: exactly the bytes at its position, up to its end. */
    method Read(i: nat, len: int, buf: array<Byte>) returns (n: nat)
      requires Valid() && i < |files| && len <= buf.Length
      modifies this, c, files, Dfds(), buf
      ensures Valid() && n == Rest(old(model).files[i], len) <= buf.Length && buf[..n] == Part(old(model).files[i], n)
      ensures var f := old(model).files[i]; model == old(model).(files := old(model).files[i := f.(pos := f.pos + n)])
    {
      hide Cache.Valid, Shows, Disjoint, Rest, Part, HasDrive, Free;
      ghost var f, k, o := model.files[i], *, *;
      n, k, o := ReadFile(c, dm, files[i], len, buf, chains[i], ks[i], os[i], f);
      ks, os, model := ks[i := k], os[i := o], model.(files := model.files[i := f.(pos := f.pos + n)]);
    }

    /** Write to file i: it takes what is tried as far as its own and the free clusters go; the file becomes itself
        overwritten or extended by that, and no other file changes. */
    method Write(i: nat, data: array<Byte>) returns (n: nat)
      requires Valid() && i < |files|
      modifies this, c, files, Dfds(), data
      ensures Valid() && data[..] == old(data[..]) && dm.ClBytes() > 0
      ensures n == Takes(old(model).files[i], old(model).free, dm.ClBytes(), data.Length)
      ensures var f := old(model).files[i];
              && f.pos <= |f.bytes|
              && model.files == old(model).files[i := Written(f, data[..n], dm.ClBytes())]
              && model.free + model.files[i].clusters == old(model).free + f.clusters
    {
      hide Cache.Valid, Shows, KeepsOthers, Disjoint, Written, HasDrive, Free, Takes;
      ghost var m, ch, f := c.contents, chains[i], model.files[i];
      ghost var ch', k, o;
      ShownClusters(m, dm, files[i], ch, ks[i], os[i], f);
      n, ch', k, o := WriteFile(c, dm, files[i], data, ch, ks[i], os[i], f);
      forall j | 0 <= j < |files| && j != i
        ensures Shows(c.contents, dm, files[j], chains[j], ks[j], os[j], model.files[j]) && Disjoint(ch', chains[j]) && Disjoint(chains[j], ch')
      {
        StillShows(m, c.contents, dm, ch, ch', files[j], chains[j], ks[j], os[j], model.files[j]);
      }
      ShownClusters(c.contents, dm, files[i], ch', k, o, Written(f, data[..n], dm.ClBytes()));
      chains, ks, os := chains[i := ch'], ks[i := k], os[i := o];
      model := Drive(model.files[i := Written(f, data[..n], dm.ClBytes())], Free(c.contents, dm));
    }

    /** Move the position of file i: anywhere inside the file or to its end. */
    method Seek(i: nat, n: int) returns (ok: bool)
      requires Valid() && i < |files|
      modifies this, c, files, Dfds()
      ensures Valid() && ok == (0 <= n <= |old(model).files[i].bytes|)
      ensures var f := old(model).files[i]; model == if ok then old(model).(files := old(model).files[i := f.(pos := n)]) else old(model)
    {
      hide Cache.Valid, Cache.CopiesMirrored, OnDrive, Bytes, PosAt, Disjoint, HasDrive, Free;
      ghost var m, p, ch, f := c.contents, files[i], chains[i], model.files[i];
      assert Shows(m, dm, p, ch, ks[i], os[i], f);
      ReadAll(m, dm, p, ch, ks[i], os[i], f, 0);
      ok := 0 <= n <= files[i].dfd.fileln;
      if ok {
        ghost var k, o;
        k, o := SeekInside(c, dm, files[i], n, ch, ks[i], os[i]);
        ks, os, model := ks[i := k], os[i := o], model.(files := model.files[i := f.(pos := n)]);
      }
    }

    /** Delete file i: its clusters are freed and it is empty; no other file changes. */
    method Delete(i: nat)
      requires Valid() && i < |files|
      modifies this, c, files, Dfds()
      ensures Valid() && model == Drive(old(model).files[i := NOTHING], old(model).free + old(model).files[i].clusters)
      ensures forall cl :: cl in old(chains)[i] ==> IsFree(Table(c.contents, dm), cl)
    {
      hide Cache.Valid, Shows, KeepsOthers, Disjoint, HasDrive, Free, Table, IsFree, Freed;
      ghost var m, ch, f := c.contents, chains[i], model.files[i];
      ShownClusters(m, dm, files[i], ch, ks[i], os[i], f);
      EraseFile(c, dm, files[i], ch, ks[i], os[i], f);
      forall j | 0 <= j < |files| && j != i
        ensures Shows(c.contents, dm, files[j], chains[j], ks[j], os[j], model.files[j]) && Disjoint([], chains[j]) && Disjoint(chains[j], [])
      {
        StillShows(m, c.contents, dm, ch, [], files[j], chains[j], ks[j], os[j], model.files[j]);
      }
      chains, ks, os := chains[i := []], ks[i := -1], os[i := dm.ClBytes()];
      model := Drive(model.files[i := NOTHING], Free(c.contents, dm));
    }

    /** One operation. */
    method Do(op: Op) returns (ans: Answer)
      requires Valid() && op.i < |files|
      modifies this, c, files, Dfds()
      ensures Valid() && Allowed(dm.ClBytes(), old(model), op)
      ensures ans == Reply(dm.ClBytes(), old(model), op) && model == After(dm.ClBytes(), old(model), op)
    {
      hide Valid, Rest, Part, Written, Takes;
      SameCount();
      match op
      case ReadOp(i, len) =>
        var buf := new Byte[len];
        var n := Read(i, len, buf);
        ans := Found(buf[..n]);
      case WriteOp(i, data) =>
        var buf := new Byte[|data|](j requires 0 <= j < |data| => data[j]);
        assert buf[..] == data;
        var n := Write(i, buf);
        assert buf[..n] == data[..n];
        ans := Took(n);
      case SeekOp(i, n) =>
        var ok := Seek(i, n);
        ans := Went(ok);
      case DeleteOp(i) =>
        Delete(i);
        ans := Gone;
    }

    lemma SameCount()
      requires Valid()
      ensures |model.files| == |files| && Sound(dm.ClBytes(), model)
    {
      hide Cache.Valid, OnDrive, PosAt, Bytes, HasDrive;
      forall i | 0 <= i < |model.files|
        ensures model.files[i].pos <= |model.files[i].bytes| <= model.files[i].clusters * dm.ClBytes()
      {
        assert Shows(c.contents, dm, files[i], chains[i], ks[i], os[i], model.files[i]);
      }
    }

    /** A run of operations: every answer is the one that plain byte sequences and a count of free clusters give,
        and the drive stays these. */
    method Run(ops: seq<Op>) returns (answers: seq<Answer>)
      requires Valid() && forall k :: 0 <= k < |ops| ==> ops[k].i < |files|
      modifies this, c, files, Dfds()
      ensures Valid() && |old(model).files| == |files| && Sound(dm.ClBytes(), old(model))
      ensures answers == Replies(dm.ClBytes(), old(model), ops) && model == AfterAll(dm.ClBytes(), old(model), ops)
      decreases |ops|
    {
      hide Valid, Reply, After, Sound;
      SameCount();
      if ops == [] {
        return [];
      }
      var ans := Do(ops[0]);
      var rest := Run(ops[1..]);
      answers := [ans] + rest;
    }
  }

  lemma ShownClusters(m: Medium, dm: Dmd, p: Ofd, ch: seq<nat>, k: int, o: nat, f: UserFile)
    requires Shows(m, dm, p, ch, k, o, f)
    ensures f.clusters == |ch| && f.pos <= |f.bytes|
  {
  }

  /** A request inside the file is tried as a whole. */
  lemma ReadAll(m: Medium, dm: Dmd, p: Ofd, ch: seq<nat>, k: int, o: nat, f: UserFile, len: int)
    requires Shows(m, dm, p, ch, k, o, f) && dm.ClBytes() > 0
    ensures f.pos == p.bytnum <= |f.bytes| == p.dfd.fileln <= |ch| * dm.ClBytes()
    ensures var l := Min(if len < 0 then 0 else len, p.dfd.fileln - p.bytnum); TriedAt(p.bytnum, dm.ClBytes(), l) == l
  {
    hide OnDrive, Bytes, PosAt, TriedAt;
    var l := Min(if len < 0 then 0 else len, p.dfd.fileln - p.bytnum);
    TriedInChain(m, dm, p.dfd.strtcl, ch, p.bytnum, l);
  }

  lemma ReadBytes(was: seq<Byte>, now: seq<Byte>, all: seq<Byte>, f: UserFile, len: nat, n: nat)
    requires len <= |all| && f.bytes == all[..len] && f.pos + n <= len && n <= |was|
    requires now == Splice(was, 0, all[f.pos..f.pos + n])
    ensures |now| == |was| && now[..n] == f.bytes[f.pos..f.pos + n]
  {
  }

  lemma GrownApart(m: Medium, m': Medium, dm: Dmd, ch: seq<nat>, ch': seq<nat>, start2: Link, ch2: seq<nat>)
    requires HasDrive(m, dm) && HasDrive(m', dm) && Grown(Table(m, dm), Table(m', dm), ch, ch')
    requires OnDrive(m, dm, start2, ch2) && Disjoint(ch, ch2)
    ensures Disjoint(ch', ch2) && Disjoint(ch2, ch')
  {
    hide Table, HasDrive, Disjoint, Grown;
    SmallTable(m, dm);
    GrownOther(Table(m, dm), Table(m', dm), ch, ch', start2, ch2);
    DisjointSym(ch', ch2);
  }

  /** The file after a write shows what was written. */
  lemma WriteShows(m: Medium, m': Medium, dm: Dmd, p: Ofd, ch: seq<nat>, ch': seq<nat>, k: int, o: nat, f: UserFile, len0: nat, data: seq<Byte>)
    requires HasDrive(m, dm) && HasDrive(m', dm) && HasRegion(m, dm, Data) && ch <= ch' && dm.ClBytes() > 0
    requires OnDrive(m', dm, p.dfd.strtcl, ch') && PosAt(p, dm, ch', k, o) && p.bytnum == f.pos + |data|
    requires Fits(Image(m, dm, Data), dm.ClBytes(), ch) && Fits(Image(m, dm, Data), dm.ClBytes(), ch')
    requires f.pos <= len0 <= |ch| * dm.ClBytes() && f == UserFile(FileBytes(Image(m, dm, Data), dm.ClBytes(), ch)[..len0], f.pos, |ch|)
    requires p.dfd.fileln == (if p.bytnum > len0 then p.bytnum else len0) && p.bytnum <= |ch'| * dm.ClBytes()
    requires Bytes(m', dm, p.dfd.strtcl, ch') == Splice(FileBytes(Image(m, dm, Data), dm.ClBytes(), ch'), f.pos, data)
    requires |ch'| == Extent(|ch|, f.pos + |data|, dm.ClBytes())
    ensures Shows(m', dm, p, ch', k, o, Written(f, data, dm.ClBytes()))
  {
    hide OnDrive, Bytes, PosAt, Image, FileBytes, Fits, Splice, HasDrive, Extent;
    WrittenBytes(Image(m, dm, Data), dm.ClBytes(), ch, ch', len0, f.pos, data, p.dfd.fileln);
    WrittenPos(f, data, dm.ClBytes());
  }

  lemma WrittenPos(f: UserFile, data: seq<Byte>, cb: nat)
    requires f.pos <= |f.bytes| && cb > 0
    ensures Written(f, data, cb).pos == f.pos + |data| && Written(f, data, cb).clusters == Extent(f.clusters, f.pos + |data|, cb)
  {
  }

  lemma EmptyShows(m: Medium, dm: Dmd, p: Ofd)
    requires HasDrive(m, dm) && dm.ClBytes() > 0 && p.dfd.strtcl == 0 && p.dfd.fileln == 0
    requires p.bytnum == 0 && p.curcl == 0 && p.currec == 0 && p.curbyt == 0
    ensures Shows(m, dm, p, [], -1, dm.ClBytes(), NOTHING)
  {
    hide OnDrive, Bytes, HasDrive;
    EmptyOnDrive(m, dm);
  }

  lemma NothingApart(ch: seq<nat>)
    ensures Disjoint([], ch) && Disjoint(ch, [])
  {
  }
}
