/** The file allocation table: packed 12-bit or 16-bit links, read and written through the buffers. */
module FsFat {
  import opened Basics
  import opened FsMedia
  import opened FsCache

  // ---------- A region of a drive as one sequence of bytes

  ghost predicate HasRegion(m: Medium, dm: Dmd, t: BufType) {
    && dm.recsiz > 0
    && forall r: nat :: dm.InRegion(t, r) ==> dm.At(t, r) in m && |m[dm.At(t, r)]| == dm.recsiz
  }

  ghost predicate HasDrive(m: Medium, dm: Dmd) {
    dm.Valid() && forall t :: HasRegion(m, dm, t)
  }

  lemma RecordOf(len: nat, n: nat, j: nat)
    requires n > 0 && j < len * n
    ensures 0 <= j / n < len && 0 <= j % n < n && j == (j / n) * n + j % n
  {
    if j / n >= len { MulGap(n, len - 1, j / n); }
  }

  ghost function ByteAt(m: Medium, dm: Dmd, t: BufType, j: nat): (b: Byte)
    requires HasRegion(m, dm, t) && j < dm.RegionLen(t) * dm.recsiz
  {
    RecordOf(dm.RegionLen(t), dm.recsiz, j);
    m[dm.At(t, j / dm.recsiz)][j % dm.recsiz]
  }

  /** The bytes of region `t` of a drive. */
  ghost function Image(m: Medium, dm: Dmd, t: BufType): (s: seq<Byte>)
    requires HasRegion(m, dm, t)
    ensures |s| == dm.RegionLen(t) * dm.recsiz
  {
    seq(dm.RegionLen(t) * dm.recsiz, j requires 0 <= j < dm.RegionLen(t) * dm.recsiz => ByteAt(m, dm, t, j))
  }

  /** What lies on the drives outside region `t` of drive `dm` is the same in both. */
  ghost predicate SameOutside(m: Medium, m': Medium, dm: Dmd, t: BufType) {
    && m.Keys == m'.Keys
    && forall a :: a in m && !(a.drv == dm.drvnum && dm.RecOff(t) <= a.rec < dm.RecOff(t) + dm.RegionLen(t))
         ==> m'[a] == m[a]
  }

  lemma CacheHasDrive(c: Cache, dm: Dmd)
    requires c.Valid() && c.Mounted(dm)
    ensures dm.Valid() && HasDrive(c.contents, dm) && forall t :: HasRegion(c.contents, dm, t)
  {
    forall t, r: nat | dm.InRegion(t, r)
      ensures dm.At(t, r) in c.contents && |c.contents[dm.At(t, r)]| == dm.recsiz
    {
      AtInjective(dm, t, r, t, r);
    }
  }

  /** Two media that hold the same sectors of a region hold the same bytes there. */
  lemma SameImage(m: Medium, m': Medium, dm: Dmd, u: BufType)
    requires HasRegion(m, dm, u) && HasRegion(m', dm, u)
    requires forall r: nat :: dm.InRegion(u, r) ==> m'[dm.At(u, r)] == m[dm.At(u, r)]
    ensures Image(m', dm, u) == Image(m, dm, u)
  {
    forall j | 0 <= j < dm.RegionLen(u) * dm.recsiz
      ensures ByteAt(m', dm, u, j) == ByteAt(m, dm, u, j)
    {
      RecordOf(dm.RegionLen(u), dm.recsiz, j);
    }
  }

  /** Another region of the drive is not affected by what happens in region `t`. */
  lemma OtherImage(m: Medium, m': Medium, dm: Dmd, t: BufType, u: BufType)
    requires HasDrive(m, dm) && SameOutside(m, m', dm, t) && t != u
    ensures HasRegion(m, dm, u) && HasRegion(m', dm, u) && Image(m', dm, u) == Image(m, dm, u)
  {
    assert HasRegion(m, dm, u);
    forall r: nat | dm.InRegion(u, r)
      ensures dm.At(u, r) in m' && m'[dm.At(u, r)] == m[dm.At(u, r)]
    {
      assert dm.At(u, r) in m;
      assert !(dm.RecOff(t) <= dm.RecOff(u) + r < dm.RecOff(t) + dm.RegionLen(t));
    }
    SameImage(m, m', dm, u);
  }

  /** The place in the image of byte `off` of record `rec`. */
  lemma PlaceOf(dm: Dmd, t: BufType, rec: nat, off: nat)
    requires dm.InRegion(t, rec) && off < dm.recsiz
    ensures rec * dm.recsiz + off < dm.RegionLen(t) * dm.recsiz
    ensures (rec * dm.recsiz + off) / dm.recsiz == rec && (rec * dm.recsiz + off) % dm.recsiz == off
  {
    MulGap(dm.recsiz, rec, dm.RegionLen(t));
    DivModUnique(dm.recsiz, rec, off, rec * dm.recsiz + off);
  }

  /** Writing into a sector is writing into the image at the corresponding place. */
  lemma PokeImage(m: Medium, dm: Dmd, t: BufType, rec: nat, off: nat, bytes: seq<Byte>, m': Medium)
    requires HasDrive(m, dm) && dm.InRegion(t, rec) && off + |bytes| <= dm.recsiz
    requires HasRegion(m, dm, t)
    requires m' == m[dm.At(t, rec) := Splice(m[dm.At(t, rec)], off, bytes)]
    ensures HasDrive(m', dm) && SameOutside(m, m', dm, t)
    ensures rec * dm.recsiz + off + |bytes| <= dm.RegionLen(t) * dm.recsiz
    ensures Image(m', dm, t) == Splice(Image(m, dm, t), rec * dm.recsiz + off, bytes)
  {
    MulGap(dm.recsiz, rec, dm.RegionLen(t));
    assert m'.Keys == m.Keys;
    forall u
      ensures HasRegion(m', dm, u)
    {
      assert HasRegion(m, dm, u);
    }
    var n := rec * dm.recsiz;
    forall j | 0 <= j < dm.RegionLen(t) * dm.recsiz
      ensures ByteAt(m', dm, t, j) == if n + off <= j < n + off + |bytes| then bytes[j - n - off] else ByteAt(m, dm, t, j)
    {
      PokeByte(m, dm, t, rec, off, bytes, m', j);
    }
  }

  lemma PokeByte(m: Medium, dm: Dmd, t: BufType, rec: nat, off: nat, bytes: seq<Byte>, m': Medium, j: nat)
    requires dm.InRegion(t, rec) && off + |bytes| <= dm.recsiz
    requires HasRegion(m, dm, t) && HasRegion(m', dm, t) && j < dm.RegionLen(t) * dm.recsiz
    requires m' == m[dm.At(t, rec) := Splice(m[dm.At(t, rec)], off, bytes)]
    ensures var n := rec * dm.recsiz;
            ByteAt(m', dm, t, j) == if n + off <= j < n + off + |bytes| then bytes[j - n - off] else ByteAt(m, dm, t, j)
  {
    RecordOf(dm.RegionLen(t), dm.recsiz, j);
    var q := j / dm.recsiz;
    if q < rec { MulGap(dm.recsiz, q, rec); }
    if q > rec { MulGap(dm.recsiz, rec, q); }
  }

  // ---------- The packed links

  type Link = x: int | 0 <= x < 0x10000

  const ENDOFCHAIN: Link := 0xffff
  const FREECLUSTER: Link := 0

  predicate EndOfChain(l: Link) { l >= 0xfff8 }

  /** Where the two bytes that hold the entry of a cluster start. */
  function EntryOff(is16: bool, cl: nat): (o: nat) { if is16 then 2 * cl else cl + cl / 2 }

  ghost predicate InTable(fat: seq<Byte>, is16: bool, cl: nat) { EntryOff(is16, cl) + 2 <= |fat| }

  function Word(lo: Byte, hi: Byte): (w: Link) { lo + 256 * hi }

  /** The link held in the two bytes of an entry. */
  function Decode(is16: bool, cl: nat, w: Link): (l: Link) {
    if is16 then w else
      var v := if cl % 2 == 1 then w / 16 else w % 4096;
      if v >= 0xff8 then ENDOFCHAIN else v
  }

  /** The two bytes of an entry once `link` is put in: a 12-bit entry leaves its neighbour's nibble. */
  function Encode(is16: bool, cl: nat, w: Link, link: Link): (w': Link) {
    if is16 then link
    else if cl % 2 == 1 then w % 16 + link % 4096 * 16
    else w / 4096 * 4096 + link % 4096
  }

  function GetEntry(fat: seq<Byte>, is16: bool, cl: nat): (l: Link)
    requires EntryOff(is16, cl) + 2 <= |fat|
  {
    var o := EntryOff(is16, cl);
    Decode(is16, cl, Word(fat[o], fat[o + 1]))
  }

  function PutEntry(fat: seq<Byte>, is16: bool, cl: nat, link: Link): (fat': seq<Byte>)
    requires EntryOff(is16, cl) + 2 <= |fat|
  {
    var o := EntryOff(is16, cl);
    var w := Encode(is16, cl, Word(fat[o], fat[o + 1]), link);
    Splice(fat, o, [w % 256, w / 256])
  }

  /** What a link reads back as: 12-bit entries are cut to 12 bits and their end marks are widened. */
  function Stored(is16: bool, link: Link): (l: Link) {
    if is16 then link else if link % 4096 >= 0xff8 then ENDOFCHAIN else link % 4096
  }

  lemma DecodeEncode(is16: bool, cl: nat, w: Link, link: Link)
    ensures Decode(is16, cl, Encode(is16, cl, w, link)) == Stored(is16, link)
  {
  }

  lemma HighNibble(q: nat, x: nat)
    requires x < 4096
    ensures (q * 4096 + x) / 256 / 16 == q
  {
    var y := x / 256;
    assert (q * 4096 + x) / 256 == q * 16 + y;
  }

  lemma LowNibble(q: nat, x: nat)
    requires x < 16
    ensures (q * 16 + x) % 256 % 16 == x
  {
    DivModUnique(256, q / 16, q % 16 * 16 + x, q * 16 + x);
    DivModUnique(16, q % 16, x, q % 16 * 16 + x);
  }

  /** A 12-bit entry takes the low nibble of its second byte, or leaves the low nibble of its first. */
  lemma EncodeShares(cl: nat, w: Link, link: Link)
    ensures cl % 2 == 0 ==> Encode(false, cl, w, link) / 256 / 16 == w / 256 / 16
    ensures cl % 2 == 1 ==> Encode(false, cl, w, link) % 256 % 16 == w % 256 % 16
  {
    if cl % 2 == 0 {
      HighNibble(w / 4096, w % 4096);
      HighNibble(w / 4096, link % 4096);
    } else {
      LowNibble(w / 16, w % 16);
      LowNibble(link % 4096, w % 16);
    }
  }

  lemma DecodeNibble(cl: nat, lo: Byte, hi: Byte, b: Byte)
    ensures cl % 2 == 1 && lo / 16 == b / 16 ==> Decode(false, cl, Word(lo, hi)) == Decode(false, cl, Word(b, hi))
    ensures cl % 2 == 0 && hi % 16 == b % 16 ==> Decode(false, cl, Word(lo, hi)) == Decode(false, cl, Word(lo, b))
  {
    hide Word;
    WordNibbles(lo, hi);
    WordNibbles(b, hi);
    WordNibbles(lo, b);
  }

  lemma WordNibbles(lo: Byte, hi: Byte)
    ensures Word(lo, hi) / 16 == lo / 16 + 16 * hi && Word(lo, hi) % 4096 == lo + hi % 16 * 256
  {
    DivModUnique(16, lo / 16 + 16 * hi, lo % 16, Word(lo, hi));
    DivModUnique(4096, hi / 16, lo + hi % 16 * 256, Word(lo, hi));
  }

  lemma SplitWord(lo: Byte, hi: Byte)
    ensures Word(lo, hi) % 256 == lo && Word(lo, hi) / 256 == hi
  {
  }

  lemma JoinWord(w: Link)
    ensures 0 <= w % 256 < 256 && 0 <= w / 256 < 256 && Word(w % 256, w / 256) == w
  {
  }

  /** A 12-bit value read as a link: every end mark is ENDOFCHAIN. */
  function Widened(v: nat): (l: Link)
    requires v < 4096
    ensures l == if v < 0xff8 then v else 0xffff
  {
    if v / 8 == 0x1ff then ENDOFCHAIN else v
  }

  /** The layout of the table, byte by byte ("FAT Data Structure" in Microsoft's FAT specification): a 16-bit entry has its
      low byte first; two 12-bit entries share three bytes, the even one has all of the first byte and the low half of the
      second, the odd one the high half of the second and all of the third. */
  lemma EntryBytes(fat: seq<Byte>, is16: bool, cl: nat, h: nat)
    requires InTable(fat, is16, cl) && h == cl / 2
    ensures is16 ==> 2 * cl + 1 < |fat| && GetEntry(fat, true, cl) == fat[2 * cl] + 256 * (fat[2 * cl + 1] as int)
    ensures !is16 && cl == 2 * h ==>
              3 * h + 1 < |fat| && GetEntry(fat, false, cl) == Widened(fat[3 * h] + 256 * (fat[3 * h + 1] as int % 16))
    ensures !is16 && cl == 2 * h + 1 ==>
              3 * h + 2 < |fat| && GetEntry(fat, false, cl) == Widened(fat[3 * h + 1] / 16 + 16 * (fat[3 * h + 2] as int))
  {
    hide Word;
    var o := EntryOff(is16, cl);
    WordNibbles(fat[o], fat[o + 1]);
    WordIs(fat[o], fat[o + 1]);
  }

  lemma WordIs(lo: Byte, hi: Byte)
    ensures Word(lo, hi) == lo + 256 * hi
  {
  }

  /** The bytes that putting a link leaves, with `v` the low twelve bits of the link. */
  lemma PutBytes(fat: seq<Byte>, is16: bool, cl: nat, link: Link, h: nat, v: nat)
    requires InTable(fat, is16, cl) && h == cl / 2 && v == link % 4096
    ensures |PutEntry(fat, is16, cl, link)| == |fat|
    ensures is16 ==>
              2 * cl + 1 < |fat| && PutEntry(fat, true, cl, link) == fat[2 * cl := link % 256][2 * cl + 1 := link / 256]
    ensures !is16 && cl == 2 * h ==>
              3 * h + 1 < |fat| &&
              PutEntry(fat, false, cl, link) == fat[3 * h := v % 256][3 * h + 1 := fat[3 * h + 1] / 16 * 16 + v / 256]
    ensures !is16 && cl == 2 * h + 1 ==>
              3 * h + 2 < |fat| &&
              PutEntry(fat, false, cl, link) == fat[3 * h + 1 := fat[3 * h + 1] % 16 + v % 16 * 16][3 * h + 2 := v / 16]
  {
    hide Word, Encode;
    var o := EntryOff(is16, cl);
    EncodedBytes(is16, cl, fat[o], fat[o + 1], link, v);
  }

  lemma EncodedBytes(is16: bool, cl: nat, lo: Byte, hi: Byte, link: Link, v: nat)
    requires v == link % 4096
    ensures var w := Encode(is16, cl, Word(lo, hi), link);
            if is16 then w % 256 == link % 256 && w / 256 == link / 256
            else if cl % 2 == 0 then w % 256 == v % 256 && w / 256 == hi / 16 * 16 + v / 256
            else w % 256 == lo % 16 + v % 16 * 16 && w / 256 == v / 16
  {
    hide Word;
    var w := Encode(is16, cl, Word(lo, hi), link);
    WordIs(lo, hi);
    if !is16 && cl % 2 == 0 {
      DivModUnique(4096, hi / 16, lo + hi % 16 * 256, Word(lo, hi));
      DivModUnique(256, hi / 16 * 16 + v / 256, v % 256, w);
    } else if !is16 {
      DivModUnique(16, lo / 16 + 16 * hi, lo % 16, Word(lo, hi));
      DivModUnique(256, v / 16, lo % 16 + v % 16 * 16, w);
    }
  }

  /** A link reads back as it was stored. */
  lemma GetPutSame(fat: seq<Byte>, is16: bool, cl: nat, link: Link)
    requires InTable(fat, is16, cl)
    ensures GetEntry(PutEntry(fat, is16, cl, link), is16, cl) == Stored(is16, link)
  {
    hide Encode, Decode, Word, Stored;
    var o := EntryOff(is16, cl);
    var w := Word(fat[o], fat[o + 1]);
    JoinWord(Encode(is16, cl, w, link));
    DecodeEncode(is16, cl, w, link);
  }

  /** Every other entry reads as before, also the one that shares a byte with it. */
  lemma GetPutOther(fat: seq<Byte>, is16: bool, cl: nat, link: Link, c: nat)
    requires InTable(fat, is16, cl) && InTable(fat, is16, c) && c != cl
    ensures GetEntry(PutEntry(fat, is16, cl, link), is16, c) == GetEntry(fat, is16, c)
  {
    hide Encode, Decode, Word;
    var o, p := EntryOff(is16, cl), EntryOff(is16, c);
    var w := Word(fat[o], fat[o + 1]);
    var w' := Encode(is16, cl, w, link);
    JoinWord(w');
    SplitWord(fat[o], fat[o + 1]);
    if !is16 {
      EncodeShares(cl, w, link);
      if p == o + 1 {
        DecodeNibble(c, fat[p], fat[p + 1], w' / 256);
      } else if o == p + 1 {
        DecodeNibble(c, fat[p], fat[p + 1], w' % 256);
      }
    }
  }

  // ---------- The table of links

  lemma EntryInFat(dm: Dmd, cl: nat)
    requires dm.Valid() && cl < dm.numcl + 2
    ensures EntryOff(dm.is16, cl) + 2 <= dm.fsiz * dm.recsiz
  {
  }

  ghost function TableOf(fat: seq<Byte>, dm: Dmd): (t: seq<Link>)
    requires dm.Valid() && |fat| == dm.fsiz * dm.recsiz
    ensures |t| == dm.numcl + 2
  {
    seq(dm.numcl + 2, cl requires 0 <= cl < dm.numcl + 2 => EntryInFat(dm, cl); GetEntry(fat, dm.is16, cl))
  }

  /** The links of a drive, one for each cluster number. */
  ghost function Table(m: Medium, dm: Dmd): (t: seq<Link>)
    requires HasDrive(m, dm)
    ensures |t| == dm.numcl + 2
  {
    assert HasRegion(m, dm, Fat);
    TableOf(Image(m, dm, Fat), dm)
  }

  lemma PutTable(fat: seq<Byte>, dm: Dmd, cl: nat, link: Link)
    requires dm.Valid() && |fat| == dm.fsiz * dm.recsiz && cl < dm.numcl + 2
    ensures InTable(fat, dm.is16, cl)
    ensures TableOf(PutEntry(fat, dm.is16, cl, link), dm) == TableOf(fat, dm)[cl := Stored(dm.is16, link)]
  {
    hide Decode, Encode, Stored, Word;
    EntryInFat(dm, cl);
    GetPutSame(fat, dm.is16, cl, link);
    forall c | 0 <= c < dm.numcl + 2 && c != cl
      ensures GetEntry(PutEntry(fat, dm.is16, cl, link), dm.is16, c) == GetEntry(fat, dm.is16, c)
    {
      EntryInFat(dm, c);
      GetPutOther(fat, dm.is16, cl, link, c);
    }
  }

  /** Where the bytes of an entry are: next to each other, or at the end and start of two records. */
  lemma EntryPlace(dm: Dmd, cl: nat, rec: nat, off: nat)
    requires dm.Valid() && cl < dm.numcl + 2
    requires rec == Quot(EntryOff(dm.is16, cl), dm.recsiz) && off == Rem(EntryOff(dm.is16, cl), dm.recsiz)
    ensures EntryOff(dm.is16, cl) == rec * dm.recsiz + off && dm.InRegion(Fat, rec)
    ensures dm.is16 ==> off + 1 < dm.recsiz
    ensures off + 1 == dm.recsiz ==> dm.InRegion(Fat, rec + 1) && EntryOff(dm.is16, cl) + 1 == (rec + 1) * dm.recsiz
  {
    EntryInFat(dm, cl);
    PairPlace(dm.fsiz, dm.recsiz, EntryOff(dm.is16, cl));
  }

  /** Two neighbouring bytes of `len` records of even size n. */
  lemma PairPlace(len: nat, n: nat, o: nat)
    requires n >= 2 && n % 2 == 0 && o + 2 <= len * n
    ensures var q, r := Quot(o, n), Rem(o, n);
            && o == q * n + r && q < len && (o % 2 == 0 ==> r + 1 < n)
            && (r + 1 == n ==> q + 1 < len && o + 1 == (q + 1) * n)
  {
    hide Quot, Rem;
    var q, r := Quot(o, n), Rem(o, n);
    QuotOf(len, n, o, q, r);
    if r + 1 == n {
      NextMultiple(q, n);
      NextRecord(len, n, q, o + 1);
    }
    if o % 2 == 0 {
      EvenProduct(q, n);
    }
  }

  lemma QuotOf(len: nat, n: nat, o: nat, q: nat, r: nat)
    requires n > 0 && o < len * n && q == Quot(o, n) && r == Rem(o, n)
    ensures o == q * n + r && q < len
  {
    RecordOf(len, n, o);
  }

  lemma NextRecord(len: nat, n: nat, q: nat, o: nat)
    requires n > 0 && o < len * n && o == (q + 1) * n
    ensures q + 1 < len
  {
    DivModUnique(n, q + 1, 0, o);
    RecordOf(len, n, o);
  }

  lemma NextMultiple(q: nat, n: nat)
    ensures (q + 1) * n == q * n + n
  {
  }

  lemma EvenProduct(a: nat, n: nat)
    requires n % 2 == 0
    ensures (a * n) % 2 == 0
  {
    var h := n / 2;
    assert a * n == 2 * (a * h);
  }

  lemma ImageAt(m: Medium, dm: Dmd, t: BufType, rec: nat, off: nat)
    requires HasRegion(m, dm, t) && dm.InRegion(t, rec) && off < dm.recsiz
    ensures rec * dm.recsiz + off < |Image(m, dm, t)|
    ensures Image(m, dm, t)[rec * dm.recsiz + off] == m[dm.At(t, rec)][off]
  {
    PlaceOf(dm, t, rec, off);
  }

  /** The bytes of an entry in the records that hold them. */
  lemma EntryBytesAt(m: Medium, dm: Dmd, cl: nat, rec: nat, off: nat)
    requires HasDrive(m, dm) && cl < dm.numcl + 2
    requires rec == Quot(EntryOff(dm.is16, cl), dm.recsiz) && off == Rem(EntryOff(dm.is16, cl), dm.recsiz)
    ensures HasRegion(m, dm, Fat) && dm.InRegion(Fat, rec) && off < dm.recsiz && (dm.is16 ==> off + 1 < dm.recsiz)
    ensures off + 1 == dm.recsiz ==> dm.InRegion(Fat, rec + 1)
    ensures InTable(Image(m, dm, Fat), dm.is16, cl)
    ensures var o := EntryOff(dm.is16, cl);
            && Image(m, dm, Fat)[o] == m[dm.At(Fat, rec)][off]
            && Image(m, dm, Fat)[o + 1] == (if off + 1 == dm.recsiz then m[dm.At(Fat, rec + 1)][0] else m[dm.At(Fat, rec)][off + 1])
  {
    assert HasRegion(m, dm, Fat);
    EntryPlace(dm, cl, rec, off);
    EntryInFat(dm, cl);
    ImageAt(m, dm, Fat, rec, off);
    if off + 1 == dm.recsiz {
      ImageAt(m, dm, Fat, rec + 1, 0);
    } else {
      ImageAt(m, dm, Fat, rec, off + 1);
    }
  }

  lemma TableEntry(m: Medium, dm: Dmd, cl: nat)
    requires HasDrive(m, dm) && cl < dm.numcl + 2
    ensures HasRegion(m, dm, Fat) && InTable(Image(m, dm, Fat), dm.is16, cl)
    ensures Table(m, dm)[cl] == GetEntry(Image(m, dm, Fat), dm.is16, cl)
  {
    EntryInFat(dm, cl);
  }

  /** The link of a cluster. */
  method GetRealCl(c: Cache, dm: Dmd, cl: nat) returns (l: Link)
    requires c.Valid() && c.Mounted(dm) && cl < dm.numcl + 2
    modifies c
    ensures c.Valid() && c.contents == old(c.contents) && HasDrive(c.contents, dm)
    ensures l == Table(c.contents, dm)[cl]
    ensures old(c.CopiesMirrored()) ==> c.CopiesMirrored()
  {
    hide ListOk, MediumOk, DrivesOk, Mirrored, MruFirst, Renewed, Image, Decode, EntryOff, Table, Quot, Rem;
    CacheHasDrive(c, dm);
    var recnum, offset := Quot(EntryOff(dm.is16, cl), dm.recsiz), Rem(EntryOff(dm.is16, cl), dm.recsiz);
    EntryBytesAt(c.contents, dm, cl, recnum, offset);
    TableEntry(c.contents, dm, cl);
    var buf := c.GetRec(dm, Fat, recnum, false);
    if dm.is16 {
      return Decode(true, cl, Word(buf[offset], buf[offset + 1]));
    }
    var lo := buf[offset];
    if dm.recsiz - offset == 1 {
      buf := c.GetRec(dm, Fat, recnum + 1, false);
      l := Decode(false, cl, Word(lo, buf[0]));
    } else {
      l := Decode(false, cl, Word(lo, buf[offset + 1]));
    }
  }

  /** `m'` is `m` with the link of one cluster changed and everything else on the drives as it was. */
  ghost predicate Relinked(m: Medium, m': Medium, dm: Dmd, cl: nat, link: Link) {
    && HasDrive(m, dm) && HasDrive(m', dm) && SameOutside(m, m', dm, Fat)
    && cl < dm.numcl + 2 && Table(m', dm) == Table(m, dm)[cl := Stored(dm.is16, link)]
  }

  lemma SameOutsideTrans(m: Medium, m1: Medium, m2: Medium, dm: Dmd, t: BufType)
    requires SameOutside(m, m1, dm, t) && SameOutside(m1, m2, dm, t)
    ensures SameOutside(m, m2, dm, t)
  {
  }

  lemma SpliceTwice(s: seq<Byte>, o: nat, a: Byte, b: Byte)
    requires o + 2 <= |s|
    ensures Splice(Splice(s, o, [a]), o + 1, [b]) == Splice(s, o, [a, b])
  {
  }

  /** Writing the new bytes of an entry, one after the other, writes the entry. */
  lemma WriteEntryBytes(m: Medium, dm: Dmd, cl: nat, a: Byte, b: Byte, rec: nat, off: nat, m1: Medium, m2: Medium)
    requires HasDrive(m, dm) && cl < dm.numcl + 2 && HasRegion(m, dm, Fat)
    requires rec == Quot(EntryOff(dm.is16, cl), dm.recsiz) && off == Rem(EntryOff(dm.is16, cl), dm.recsiz)
    requires dm.InRegion(Fat, rec) && (off + 1 == dm.recsiz ==> dm.InRegion(Fat, rec + 1))
    requires InTable(Image(m, dm, Fat), dm.is16, cl)
    requires m1 == m[dm.At(Fat, rec) := Splice(m[dm.At(Fat, rec)], off, [a])]
    requires HasRegion(m1, dm, Fat)
    requires m2 == if off + 1 == dm.recsiz then m1[dm.At(Fat, rec + 1) := Splice(m1[dm.At(Fat, rec + 1)], 0, [b])]
                   else m1[dm.At(Fat, rec) := Splice(m1[dm.At(Fat, rec)], off + 1, [b])]
    ensures HasDrive(m2, dm) && SameOutside(m, m2, dm, Fat) && HasRegion(m2, dm, Fat)
    ensures Image(m2, dm, Fat) == Splice(Image(m, dm, Fat), EntryOff(dm.is16, cl), [a, b])
  {
    hide Image, Quot, Rem, EntryOff, Splice;
    EntryPlace(dm, cl, rec, off);
    PokeImage(m, dm, Fat, rec, off, [a], m1);
    if off + 1 == dm.recsiz {
      PokeImage(m1, dm, Fat, rec + 1, 0, [b], m2);
    } else {
      PokeImage(m1, dm, Fat, rec, off + 1, [b], m2);
    }
    SameOutsideTrans(m, m1, m2, dm, Fat);
    SpliceTwice(Image(m, dm, Fat), EntryOff(dm.is16, cl), a, b);
  }

  /** Putting a link into the image of the FAT relinks the cluster. */
  lemma PutRelinks(m: Medium, m': Medium, dm: Dmd, cl: nat, link: Link)
    requires HasDrive(m, dm) && HasDrive(m', dm) && SameOutside(m, m', dm, Fat) && cl < dm.numcl + 2
    requires HasRegion(m, dm, Fat) && HasRegion(m', dm, Fat) && InTable(Image(m, dm, Fat), dm.is16, cl)
    requires Image(m', dm, Fat) == PutEntry(Image(m, dm, Fat), dm.is16, cl, link)
    ensures Relinked(m, m', dm, cl, link)
  {
    hide Image, Encode, Stored, PutEntry, TableOf;
    PutTable(Image(m, dm, Fat), dm, cl, link);
  }

  /** Replace the link of a cluster. */
  method ClFix(c: Cache, dm: Dmd, cl: nat, link: Link)
    requires c.Valid() && c.Mounted(dm) && cl < dm.numcl + 2
    modifies c
    ensures c.Valid() && Relinked(old(c.contents), c.contents, dm, cl, link)
    ensures old(c.CopiesMirrored()) ==> c.CopiesMirrored()
  {
    hide ListOk, MediumOk, DrivesOk, Mirrored, MruFirst, Renewed, Image, Encode, EntryOff, Table, Quot, Rem, Relinked, Splice;
    CacheHasDrive(c, dm);
    var recnum, offset := Quot(EntryOff(dm.is16, cl), dm.recsiz), Rem(EntryOff(dm.is16, cl), dm.recsiz);
    EntryBytesAt(c.contents, dm, cl, recnum, offset);
    if dm.is16 {
      ClFix16(c, dm, cl, link, recnum, offset);
    } else {
      ClFix12(c, dm, cl, link, recnum, offset);
    }
  }

  /** A 16-bit link is aligned and never spans records. */
  method ClFix16(c: Cache, dm: Dmd, cl: nat, link: Link, recnum: nat, offset: nat)
    requires c.Valid() && c.Mounted(dm) && cl < dm.numcl + 2 && HasDrive(c.contents, dm)
    requires dm.is16 && recnum == Quot(EntryOff(true, cl), dm.recsiz) && offset == Rem(EntryOff(true, cl), dm.recsiz)
    modifies c
    ensures c.Valid() && Relinked(old(c.contents), c.contents, dm, cl, link)
    ensures old(c.CopiesMirrored()) ==> c.CopiesMirrored()
  {
    hide ListOk, MediumOk, DrivesOk, Mirrored, MruFirst, Renewed, Image, EntryOff, Table, Quot, Rem, Relinked, Splice, HasDrive;
    EntryBytesAt(c.contents, dm, cl, recnum, offset);
    var buf := c.GetRec(dm, Fat, recnum, true);
    c.Poke(dm, Fat, recnum, offset, [link % 256, link / 256]);
    WriteWhole(old(c.contents), dm, cl, link % 256, link / 256, recnum, offset, c.contents);
    PutRelinks(old(c.contents), c.contents, dm, cl, link);
  }

  lemma WriteWhole(m: Medium, dm: Dmd, cl: nat, a: Byte, b: Byte, rec: nat, off: nat, m': Medium)
    requires HasDrive(m, dm) && cl < dm.numcl + 2 && HasRegion(m, dm, Fat)
    requires rec == Quot(EntryOff(dm.is16, cl), dm.recsiz) && off == Rem(EntryOff(dm.is16, cl), dm.recsiz)
    requires dm.InRegion(Fat, rec) && off + 1 < dm.recsiz && InTable(Image(m, dm, Fat), dm.is16, cl)
    requires m' == m[dm.At(Fat, rec) := Splice(m[dm.At(Fat, rec)], off, [a, b])]
    ensures HasDrive(m', dm) && SameOutside(m, m', dm, Fat) && HasRegion(m', dm, Fat)
    ensures Image(m', dm, Fat) == Splice(Image(m, dm, Fat), EntryOff(dm.is16, cl), [a, b])
  {
    hide Image, Quot, Rem, EntryOff, Splice;
    EntryPlace(dm, cl, rec, off);
    PokeImage(m, dm, Fat, rec, off, [a, b], m');
  }

  /** A 12-bit link shares a byte with its neighbour and may span two records. */
  method ClFix12(c: Cache, dm: Dmd, cl: nat, link: Link, recnum: nat, offset: nat)
    requires c.Valid() && c.Mounted(dm) && cl < dm.numcl + 2 && HasDrive(c.contents, dm)
    requires !dm.is16 && recnum == Quot(EntryOff(false, cl), dm.recsiz) && offset == Rem(EntryOff(false, cl), dm.recsiz)
    modifies c
    ensures c.Valid() && Relinked(old(c.contents), c.contents, dm, cl, link)
    ensures old(c.CopiesMirrored()) ==> c.CopiesMirrored()
  {
    hide ListOk, MediumOk, DrivesOk, Mirrored, MruFirst, Renewed, Image, Encode, EntryOff, Table, Quot, Rem, Relinked, Splice, HasDrive;
    EntryBytesAt(c.contents, dm, cl, recnum, offset);
    var spans := dm.recsiz - offset == 1;
    var buf := c.GetRec(dm, Fat, recnum, false);
    var lo, hi := buf[offset], 0;
    if spans {
      buf := c.GetRec(dm, Fat, recnum + 1, false);
      hi := buf[0];
    } else {
      hi := buf[offset + 1];
    }
    var f := Encode(false, cl, Word(lo, hi), link);
    buf := c.GetRec(dm, Fat, recnum, true);
    c.Poke(dm, Fat, recnum, offset, [f % 256]);
    ghost var m1 := c.contents;
    if spans {
      buf := c.GetRec(dm, Fat, recnum + 1, true);
      c.Poke(dm, Fat, recnum + 1, 0, [f / 256]);
    } else {
      c.Poke(dm, Fat, recnum, offset + 1, [f / 256]);
    }
    WriteEntryBytes(old(c.contents), dm, cl, f % 256, f / 256, recnum, offset, m1, c.contents);
    PutRelinks(old(c.contents), c.contents, dm, cl, link);
  }
}
