/** The ELF loader: sizing scan, placing the segments, and relocation by the compact stream. */
module ElfLoad {
  import opened Basics
  import opened ElfUleb

  datatype Order = Big | Little

  /** The machine built for: byte order, the alignment its 32-bit accesses need, and its number in ELF files. */
  datatype Machine = Machine(order: Order, align: nat, number: nat)

  /** What the loader looks at in the ELF header. */
  datatype Ehdr = Ehdr(ident: seq<Byte>, kind: nat, machine: nat, entry: nat, phoff: nat, phentsize: nat, phnum: nat)

  datatype Phdr = Phdr(kind: nat, offset: nat, vaddr: nat, filesz: nat, memsz: nat)

  /** Lowest address, end of the file-backed part and end of the image. */
  datatype Info = Info(linkBase: nat, fileEnd: nat, memEnd: nat)

  datatype Outcome = Loaded | ThenImports | BySections | Malformed | NoRoom

  const ELF_MAGIC: seq<Byte> := [0x7f, 0x45, 0x4c, 0x46]
  const ELFCLASS32: nat := 1
  const ET_EXEC: nat := 2
  const ET_DYN: nat := 3
  const EHDR_SIZE: nat := 52
  const PHDR_SIZE: nat := 32
  const PT_LOAD: nat := 1
  const PT_PTOS_RELOC: nat := 0x6000_0001
  const PT_PTOS_IMPORTS: nat := 0x6000_0002
  const PTOS_RELOC_MAGIC: nat := 0x5054_4c31
  const PTOS_RELOC_VERSION: nat := 1

  // ---- Words in bytes

  function Join(order: Order, a: Byte, b: Byte, c: Byte, d: Byte): (r: nat) {
    if order.Big? then ((a * 256 + b) * 256 + c) * 256 + d else ((d * 256 + c) * 256 + b) * 256 + a
  }

  function WordAt(order: Order, s: seq<Byte>, at: nat): (r: nat)
    requires at + 4 <= |s|
  {
    Join(order, s[at], s[at + 1], s[at + 2], s[at + 3])
  }

  function PutWord(order: Order, s: seq<Byte>, at: nat, v: nat): (r: seq<Byte>)
    requires at + 4 <= |s| && v < TWO_32
    ensures |r| == |s| && forall i :: 0 <= i < |s| && !(at <= i < at + 4) ==> r[i] == s[i]
  {
    var a, b, c, d := v / 0x100_0000, v / 0x1_0000 % 256, v / 0x100 % 256, v % 256;
    if order.Big? then s[at := a][at + 1 := b][at + 2 := c][at + 3 := d]
    else s[at := d][at + 1 := c][at + 2 := b][at + 3 := a]
  }

  lemma JoinRange(order: Order, a: Byte, b: Byte, c: Byte, d: Byte)
    ensures Join(order, a, b, c, d) < TWO_32
  {
  }

  lemma JoinSplit(v: nat)
    requires v < TWO_32
    ensures ((v / 0x100_0000 * 256 + v / 0x1_0000 % 256) * 256 + v / 0x100 % 256) * 256 + v % 256 == v
  {
  }

  lemma WordPut(order: Order, s: seq<Byte>, at: nat, v: nat)
    requires at + 4 <= |s| && v < TWO_32
    ensures WordAt(order, PutWord(order, s, at, v), at) == v
  {
    JoinSplit(v);
  }

  lemma JoinUnique(a: Byte, b: Byte, c: Byte, d: Byte)
    ensures var v := ((a * 256 + b) * 256 + c) * 256 + d;
      v / 0x100_0000 == a && v / 0x1_0000 % 256 == b && v / 0x100 % 256 == c && v % 256 == d
  {
  }

  /** Writing back the word that is there changes nothing. */
  lemma PutSame(order: Order, s: seq<Byte>, at: nat)
    requires at + 4 <= |s| && WordAt(order, s, at) < TWO_32
    ensures PutWord(order, s, at, WordAt(order, s, at)) == s
  {
    if order.Big? {
      JoinUnique(s[at], s[at + 1], s[at + 2], s[at + 3]);
    } else {
      JoinUnique(s[at + 3], s[at + 2], s[at + 1], s[at]);
    }
  }

  // ---- Relocation on values

  predicate Aligned(at: nat, align: nat)
    requires align > 0
  {
    at % align == 0
  }

  /** The slot lies inside the image and is aligned where it is loaded. */
  predicate Fine(m: Machine, info: Info, base: nat, s: nat) {
    && info.linkBase <= s && info.memEnd >= 4 && s <= info.memEnd - 4
    && m.align > 0 && Aligned(base + (s - info.linkBase), m.align)
  }

  predicate AllFine(m: Machine, info: Info, base: nat, slots: seq<nat>) {
    forall i :: 0 <= i < |slots| ==> Fine(m, info, base, slots[i])
  }

  /** Each slot lies inside an image of n bytes that begins at `link`. */
  predicate Inside(slots: seq<nat>, link: nat, n: nat) {
    forall i :: 0 <= i < |slots| ==> link <= slots[i] && slots[i] - link + 4 <= n
  }

  function Fixed(order: Order, img: seq<Byte>, at: nat, bias: nat): (r: seq<Byte>)
    requires at + 4 <= |img|
    ensures |r| == |img| && forall i :: 0 <= i < |img| && !(at <= i < at + 4) ==> r[i] == img[i]
  {
    PutWord(order, img, at, (WordAt(order, img, at) + bias) % TWO_32)
  }

  /** The image with the bias added to every listed slot, in order. */
  function Relocated(order: Order, img: seq<Byte>, link: nat, slots: seq<nat>, bias: nat): (r: seq<Byte>)
    requires Inside(slots, link, |img|)
    ensures |r| == |img|
    decreases slots
  {
    if slots == [] then img
    else
      assert forall i :: 1 <= i < |slots| ==> slots[i] == slots[1..][i - 1];
      Relocated(order, Fixed(order, img, slots[0] - link, bias), link, slots[1..], bias)
  }

  /** Neighbouring slots do not overlap. */
  predicate Spaced(slots: seq<nat>) {
    forall i, j :: 0 <= i < j < |slots| ==> slots[i] + 4 <= slots[j]
  }

  predicate InSlot(slots: seq<nat>, link: nat, i: nat) {
    exists k :: 0 <= k < |slots| && slots[k] <= link + i < slots[k] + 4
  }

  /** Bytes in no slot stay as they were. */
  lemma {:induction false} RelocatedElsewhere(order: Order, img: seq<Byte>, link: nat, slots: seq<nat>, bias: nat, i: nat)
    requires Inside(slots, link, |img|) && i < |img| && !InSlot(slots, link, i)
    ensures Relocated(order, img, link, slots, bias)[i] == img[i]
    decreases slots
  {
    if slots != [] {
      assert slots[0] == slots[0];
      var t := slots[1..];
      assert forall k :: 0 <= k < |t| ==> t[k] == slots[k + 1];
      assert !InSlot(t, link, i);
      RelocatedElsewhere(order, Fixed(order, img, slots[0] - link, bias), link, t, bias, i);
    }
  }

  lemma WordSame(order: Order, a: seq<Byte>, b: seq<Byte>, at: nat)
    requires at + 4 <= |a| && |a| == |b| && forall i :: at <= i < at + 4 ==> a[i] == b[i]
    ensures WordAt(order, a, at) == WordAt(order, b, at)
  {
  }

  lemma SpacedTail(slots: seq<nat>, link: nat, n: nat)
    requires Spaced(slots) && Inside(slots, link, n) && slots != []
    ensures Spaced(slots[1..]) && Inside(slots[1..], link, n)
    ensures forall i :: slots[0] - link <= i < slots[0] - link + 4 ==> !InSlot(slots[1..], link, i)
  {
    var t := slots[1..];
    assert forall k :: 0 <= k < |t| ==> t[k] == slots[k + 1];
  }

  /** Every slot of a spaced list grows by the bias modulo 2^32. */
  lemma {:induction false} RelocatedSlot(order: Order, img: seq<Byte>, link: nat, slots: seq<nat>, bias: nat, k: nat)
    requires Inside(slots, link, |img|) && Spaced(slots) && k < |slots|
    ensures WordAt(order, Relocated(order, img, link, slots, bias), slots[k] - link)
         == (WordAt(order, img, slots[k] - link) + bias) % TWO_32
    decreases slots
  {
    hide WordAt, PutWord, InSlot;
    var at := slots[0] - link;
    var one := Fixed(order, img, at, bias);
    SpacedTail(slots, link, |img|);
    var end := Relocated(order, one, link, slots[1..], bias);
    if k == 0 {
      WordPut(order, img, at, (WordAt(order, img, at) + bias) % TWO_32);
      forall i | at <= i < at + 4
        ensures end[i] == one[i]
      {
        RelocatedElsewhere(order, one, link, slots[1..], bias, i);
      }
      WordSame(order, end, one, at);
    } else {
      RelocatedSlot(order, one, link, slots[1..], bias, k - 1);
      WordSame(order, one, img, slots[k] - link);
    }
  }

  /** Adding nothing changes nothing: loading at the link address needs no relocation. */
  lemma {:induction false} RelocatedZero(order: Order, img: seq<Byte>, link: nat, slots: seq<nat>)
    requires Inside(slots, link, |img|)
    ensures Relocated(order, img, link, slots, 0) == img
    decreases slots
  {
    hide Fixed;
    if slots != [] {
      FixedZero(order, img, slots[0] - link);
      RelocatedZero(order, img, link, slots[1..]);
    }
  }

  lemma FixedZero(order: Order, img: seq<Byte>, at: nat)
    requires at + 4 <= |img|
    ensures Fixed(order, img, at, 0) == img
  {
    hide PutWord;
    JoinRange(order, img[at], img[at + 1], img[at + 2], img[at + 3]);
    PutSame(order, img, at);
  }

  /** With four-byte alignment an ascending list of acceptable slots cannot overlap. */
  lemma AlignedSpaced(m: Machine, info: Info, base: nat, slots: seq<nat>)
    requires m.align == 4 && AllFine(m, info, base, slots) && Ascends(slots, info.linkBase, true)
    ensures Spaced(slots)
  {
    forall i, j | 0 <= i < j < |slots|
      ensures slots[i] + 4 <= slots[j]
    {
      assert Fine(m, info, base, slots[i]) && Fine(m, info, base, slots[j]);
      assert slots[i] < slots[j];
    }
  }

  lemma FineInside(m: Machine, info: Info, base: nat, slots: seq<nat>)
    requires AllFine(m, info, base, slots)
    ensures info.linkBase <= info.memEnd ==> Inside(slots, info.linkBase, info.memEnd - info.linkBase)
  {
    forall i | 0 <= i < |slots|
      ensures info.linkBase <= slots[i] && slots[i] <= info.memEnd - 4
    {
      assert Fine(m, info, base, slots[i]);
    }
  }

  function Bias(base: nat, link: nat): (r: nat) { (base - link) % TWO_32 }

  lemma BiasDifference(w: nat, a: nat, b: nat, link: nat)
    ensures ((w + Bias(b, link)) % TWO_32 - (w + Bias(a, link)) % TWO_32) % TWO_32 == (b - a) % TWO_32
  {
  }

  /**
   * Images of one program at two addresses differ in the listed slots only, and there by the
   * distance of the addresses modulo 2^32.
   */
  lemma TwoBases(order: Order, img: seq<Byte>, link: nat, slots: seq<nat>, a: nat, b: nat)
    requires Inside(slots, link, |img|) && Spaced(slots)
    ensures var x := Relocated(order, img, link, slots, Bias(a, link));
      var y := Relocated(order, img, link, slots, Bias(b, link));
      && (forall i :: 0 <= i < |img| && !InSlot(slots, link, i) ==> x[i] == y[i])
      && (forall k :: 0 <= k < |slots| ==>
            (WordAt(order, y, slots[k] - link) - WordAt(order, x, slots[k] - link)) % TWO_32 == (b - a) % TWO_32)
  {
    hide WordAt, InSlot, Bias;
    var x := Relocated(order, img, link, slots, Bias(a, link));
    var y := Relocated(order, img, link, slots, Bias(b, link));
    forall i | 0 <= i < |img| && !InSlot(slots, link, i)
      ensures x[i] == y[i]
    {
      RelocatedElsewhere(order, img, link, slots, Bias(a, link), i);
      RelocatedElsewhere(order, img, link, slots, Bias(b, link), i);
    }
    forall k | 0 <= k < |slots|
      ensures (WordAt(order, y, slots[k] - link) - WordAt(order, x, slots[k] - link)) % TWO_32 == (b - a) % TWO_32
    {
      RelocatedSlot(order, img, link, slots, Bias(a, link), k);
      RelocatedSlot(order, img, link, slots, Bias(b, link), k);
      BiasDifference(WordAt(order, img, slots[k] - link), a, b, link);
    }
  }

  // ---- Exactly when relocation is right

  /** The word at slot k is its old value plus the bias. */
  predicate Right(order: Order, img: seq<Byte>, link: nat, slots: seq<nat>, bias: nat, k: nat)
    requires Inside(slots, link, |img|) && k < |slots|
  {
    WordAt(order, Relocated(order, img, link, slots, bias), slots[k] - link) == (WordAt(order, img, slots[k] - link) + bias) % TWO_32
  }

  predicate AllRight(order: Order, img: seq<Byte>, link: nat, slots: seq<nat>, bias: nat)
    requires Inside(slots, link, |img|)
  {
    forall k :: 0 <= k < |slots| ==> Right(order, img, link, slots, bias, k)
  }

  /** The high and the low half of the word at `at` lie here. */
  function HighAt(order: Order, at: nat): (i: nat) { if order.Big? then at else at + 2 }

  function LowAt(order: Order, at: nat): (i: nat) { if order.Big? then at + 2 else at }

  lemma WordHalves(order: Order, s: seq<Byte>, at: nat)
    requires at + 4 <= |s|
    ensures WordAt(order, s, at) == 0x1_0000 * HalfAt(order, s, HighAt(order, at)) + HalfAt(order, s, LowAt(order, at))
    ensures HalfAt(order, s, at) < 0x1_0000 && HalfAt(order, s, at + 2) < 0x1_0000
  {
  }

  lemma HalvesUnique(h: nat, l: nat, g: nat, k: nat)
    requires l < 0x1_0000 && k < 0x1_0000 && 0x1_0000 * h + l == 0x1_0000 * g + k
    ensures h == g && l == k
  {
  }

  lemma AddHalves(h: nat, l: nat, b: nat)
    requires h < 0x1_0000 && l < 0x1_0000 && b < TWO_32
    ensures var hi, lo := b / 0x1_0000, b % 0x1_0000;
      (0x1_0000 * h + l + b) % TWO_32 == 0x1_0000 * ((h + hi + (l + lo) / 0x1_0000) % 0x1_0000) + (l + lo) % 0x1_0000
  {
    var hi, lo := b / 0x1_0000, b % 0x1_0000;
    var c := (l + lo) / 0x1_0000;
    assert 0x1_0000 * h + l + b == 0x1_0000 * (h + hi + c) + (l + lo) % 0x1_0000;
    var q := (h + hi + c) / 0x1_0000;
    assert h + hi + c == 0x1_0000 * q + (h + hi + c) % 0x1_0000;
    TopUp(q, 0x1_0000 * ((h + hi + c) % 0x1_0000) + (l + lo) % 0x1_0000, 0x1_0000 * h + l + b);
  }

  lemma TopUp(q: nat, r: nat, x: nat)
    requires r < TWO_32 && x == TWO_32 * q + r
    ensures x % TWO_32 == r
  {
  }

  /** The low half, and the high half with the carry, after adding the bias. */
  function AddLow(l: nat, bias: nat): (r: nat) { (l + bias % 0x1_0000) % 0x1_0000 }

  function AddHigh(h: nat, l: nat, bias: nat): (r: nat) {
    (h + bias / 0x1_0000 + (l + bias % 0x1_0000) / 0x1_0000) % 0x1_0000
  }

  /** Adding the bias to a word, half by half. */
  lemma FixedHalves(order: Order, img: seq<Byte>, at: nat, bias: nat)
    requires at + 4 <= |img| && bias < TWO_32
    ensures var r := Fixed(order, img, at, bias);
      var h, l := HalfAt(order, img, HighAt(order, at)), HalfAt(order, img, LowAt(order, at));
      HalfAt(order, r, LowAt(order, at)) == AddLow(l, bias) && HalfAt(order, r, HighAt(order, at)) == AddHigh(h, l, bias)
  {
    hide WordAt, PutWord, HalfAt;
    var r := Fixed(order, img, at, bias);
    WordHalves(order, img, at);
    WordHalves(order, r, at);
    var h, l := HalfAt(order, img, HighAt(order, at)), HalfAt(order, img, LowAt(order, at));
    var v := (WordAt(order, img, at) + bias) % TWO_32;
    WordPut(order, img, at, v);
    AddHalves(h, l, bias);
    var hi, lo := bias / 0x1_0000, bias % 0x1_0000;
    HalvesUnique(HalfAt(order, r, HighAt(order, at)), HalfAt(order, r, LowAt(order, at)),
      (h + hi + (l + lo) / 0x1_0000) % 0x1_0000, (l + lo) % 0x1_0000);
  }

  lemma HalfSame(order: Order, a: seq<Byte>, b: seq<Byte>, at: nat)
    requires at + 2 <= |a| == |b| && a[at] == b[at] && a[at + 1] == b[at + 1]
    ensures HalfAt(order, a, at) == HalfAt(order, b, at)
  {
  }

  /** A half outside every slot stays. */
  lemma RelocatedHalf(order: Order, img: seq<Byte>, link: nat, slots: seq<nat>, bias: nat, at: nat)
    requires Inside(slots, link, |img|) && at + 2 <= |img|
    requires forall k :: 0 <= k < |slots| ==> slots[k] + 4 <= link + at || link + at + 2 <= slots[k]
    ensures HalfAt(order, Relocated(order, img, link, slots, bias), at) == HalfAt(order, img, at)
  {
    hide HalfAt, Relocated;
    RelocatedElsewhere(order, img, link, slots, bias, at);
    RelocatedElsewhere(order, img, link, slots, bias, at + 1);
    RelocatedLength(order, img, link, slots, bias);
    HalfSame(order, Relocated(order, img, link, slots, bias), img, at);
  }

  lemma RelocatedLength(order: Order, img: seq<Byte>, link: nat, slots: seq<nat>, bias: nat)
    requires Inside(slots, link, |img|)
    ensures |Relocated(order, img, link, slots, bias)| == |img|
  {
  }

  /** A list is relocated part after part. */
  lemma {:induction false} RelocatedConcat(order: Order, img: seq<Byte>, link: nat, a: seq<nat>, b: seq<nat>, bias: nat)
    requires Inside(a + b, link, |img|) && Inside(a, link, |img|) && Inside(b, link, |img|)
    ensures Relocated(order, img, link, a + b, bias) == Relocated(order, Relocated(order, img, link, a, bias), link, b, bias)
    decreases a
  {
    hide Fixed;
    if a == [] {
      assert a + b == b;
    } else {
      assert (a + b)[0] == a[0] && (a + b)[1..] == a[1..] + b;
      FixedLength(order, img, a[0] - link, bias);
      assert forall i :: 0 <= i < |a[1..] + b| ==> (a[1..] + b)[i] == (a + b)[i + 1];
      RelocatedConcat(order, Fixed(order, img, a[0] - link, bias), link, a[1..], b, bias);
    }
  }

  lemma NoShift(x: nat, d: nat, z: nat)
    requires d < 0x1_0000 && z == x + d && z % 0x1_0000 == x % 0x1_0000
    ensures d == 0
  {
  }

  lemma ModAdd(x: nat, d: nat)
    ensures (x % 0x1_0000 + d) % 0x1_0000 == (x + d) % 0x1_0000
  {
  }

  /** What both slots of an overlapping pair being right says about the half they share: when the first slot
      has its low half there ... */
  lemma SharedLow(y: nat, low: nat, bias: nat)
    requires low < 0x1_0000 && bias < TWO_32
    requires AddHigh(AddLow(y, bias), low, bias) == AddLow(y, bias) == AddHigh(y, low, bias)
    ensures bias == 0
  {
    var hi, lo := bias / 0x1_0000, bias % 0x1_0000;
    var c := (low + lo) / 0x1_0000;
    ModAdd(y + lo, hi + c);
    assert (y + lo) % 0x1_0000 + hi + c == (y + lo) % 0x1_0000 + (hi + c);
    NoShift(y + hi + c, lo, y + lo + (hi + c));
    NoShift(y, hi, y + hi + c);
  }

  /** ... and when it has its high half there. */
  lemma SharedHigh(y: nat, low: nat, bias: nat)
    requires low < 0x1_0000 && bias < TWO_32
    requires AddLow(AddHigh(y, low, bias), bias) == AddLow(y, bias) == AddHigh(y, low, bias)
    ensures bias == 0
  {
    var hi, lo := bias / 0x1_0000, bias % 0x1_0000;
    var c := (low + lo) / 0x1_0000;
    ModAdd(y + hi + c, lo);
    NoShift(y + hi + c, lo, y + hi + c + lo);
    NoShift(y, hi, y + hi + c);
  }

  /** Strictly ascending slots an even distance apart. */
  predicate EvenlyUp(slots: seq<nat>) {
    forall i, j :: 0 <= i < j < |slots| ==> slots[i] < slots[j] && (slots[j] - slots[i]) % 2 == 0
  }

  /** A pair of slots that overlap, none before the first of them reaching into it. */
  predicate FirstPair(slots: seq<nat>, i: nat) {
    && i + 1 < |slots| && slots[i + 1] < slots[i] + 4
    && forall j :: 0 <= j < i ==> slots[j] + 4 <= slots[i]
  }

  lemma FindPair(slots: seq<nat>, from: nat) returns (i: nat)
    requires EvenlyUp(slots) && !Spaced(slots) && from < |slots|
    requires forall j, k :: 0 <= j < k <= from ==> slots[j] + 4 <= slots[k]
    ensures FirstPair(slots, i)
    decreases |slots| - from
  {
    NotLast(slots, from);
    if slots[from + 1] < slots[from] + 4 {
      i := from;
    } else {
      forall j, k | 0 <= j < k <= from + 1
        ensures slots[j] + 4 <= slots[k]
      {
        assert k == from + 1 && j < from ==> slots[j] + 4 <= slots[from];
      }
      i := FindPair(slots, from + 1);
    }
  }

  lemma NotLast(slots: seq<nat>, from: nat)
    requires !Spaced(slots) && from < |slots| && forall j, k :: 0 <= j < k <= from ==> slots[j] + 4 <= slots[k]
    ensures from + 1 < |slots|
  {
  }

  /** The image just after the pair has been relocated. */
  lemma PairSteps(order: Order, img: seq<Byte>, link: nat, slots: seq<nat>, bias: nat, i: nat)
    requires Inside(slots, link, |img|) && i + 1 < |slots|
    ensures Inside(slots[..i], link, |img|) && Inside(slots[i + 2..], link, |img|)
    ensures var one := Relocated(order, img, link, slots[..i], bias);
      var two := Fixed(order, one, slots[i] - link, bias);
      var three := Fixed(order, two, slots[i + 1] - link, bias);
      Relocated(order, img, link, slots, bias) == Relocated(order, three, link, slots[i + 2..], bias)
  {
    hide Fixed, Relocated, Inside;
    var a, t, u := slots[..i], slots[i..], slots[i + 1..];
    InsideParts(slots, link, |img|, i);
    InsideParts(slots, link, |img|, i + 1);
    InsideParts(slots, link, |img|, i + 2);
    assert slots == a + t && t[0] == slots[i] && t[1..] == u && u[0] == slots[i + 1] && u[1..] == slots[i + 2..];
    RelocatedConcat(order, img, link, a, t, bias);
    var one := Relocated(order, img, link, a, bias);
    RelocatedLength(order, img, link, a, bias);
    RelocatedFirst(order, one, link, t, bias);
    var two := Fixed(order, one, slots[i] - link, bias);
    RelocatedFirst(order, two, link, u, bias);
  }

  lemma InsideParts(slots: seq<nat>, link: nat, n: nat, i: nat)
    requires Inside(slots, link, n) && i <= |slots|
    ensures Inside(slots[..i], link, n) && Inside(slots[i..], link, n)
    ensures i < |slots| ==> link <= slots[i] && slots[i] - link + 4 <= n
  {
  }

  lemma RelocatedFirst(order: Order, img: seq<Byte>, link: nat, slots: seq<nat>, bias: nat)
    requires Inside(slots, link, |img|) && slots != []
    ensures link <= slots[0] && slots[0] - link + 4 <= |img| && Inside(slots[1..], link, |img|)
    ensures var r := Fixed(order, img, slots[0] - link, bias);
      |r| == |img| && Relocated(order, img, link, slots, bias) == Relocated(order, r, link, slots[1..], bias)
  {
    hide Fixed;
    InsideParts(slots, link, |img|, 1);
    FixedLength(order, img, slots[0] - link, bias);
  }

  /** Of an overlapping pair at least one slot is wrong. */
  lemma PairSpoils(order: Order, img: seq<Byte>, link: nat, slots: seq<nat>, bias: nat, i: nat)
    requires Inside(slots, link, |img|) && EvenlyUp(slots) && FirstPair(slots, i) && 0 < bias < TWO_32
    ensures !(Right(order, img, link, slots, bias, i) && Right(order, img, link, slots, bias, i + 1))
  {
    hide Fixed, WordAt, HalfAt, Relocated, Inside;
    PairSteps(order, img, link, slots, bias, i);
    var after := slots[i + 2..];
    PairPlace(slots, link, |img|, i, after);
    var at := slots[i] - link;
    var one := Relocated(order, img, link, slots[..i], bias);
    RelocatedLength(order, img, link, slots[..i], bias);
    FixedLength(order, one, at, bias);
    var two := Fixed(order, one, at, bias);
    FixedLength(order, two, at + 2, bias);
    var three := Fixed(order, two, at + 2, bias);
    var end := Relocated(order, three, link, after, bias);
    RelocatedLength(order, three, link, after, bias);
    PairHalves(order, img, one, two, link, slots[..i], bias, at);
    RelocatedHalf(order, three, link, after, bias, at + 2);
    if Right(order, img, link, slots, bias, i) && Right(order, img, link, slots, bias, i + 1) {
      BothRight(order, img, one, two, end, at, bias);
    }
  }

  lemma BothRight(order: Order, img: seq<Byte>, one: seq<Byte>, two: seq<Byte>, end: seq<Byte>, at: nat, bias: nat)
    requires at + 6 <= |img| == |one| == |two| == |end| && bias < TWO_32 && two == Fixed(order, one, at, bias)
    requires HalfAt(order, one, at) == HalfAt(order, img, at) && HalfAt(order, one, at + 2) == HalfAt(order, img, at + 2)
    requires HalfAt(order, two, at + 4) == HalfAt(order, img, at + 4)
    requires HalfAt(order, end, at + 2) == HalfAt(order, Fixed(order, two, at + 2, bias), at + 2)
    requires WordAt(order, end, at) == (WordAt(order, img, at) + bias) % TWO_32
    requires WordAt(order, end, at + 2) == (WordAt(order, img, at + 2) + bias) % TWO_32
    ensures bias == 0
  {
    hide Fixed, WordAt, HalfAt, AddLow, AddHigh;
    FixedHalves(order, one, at, bias);
    FixedHalves(order, two, at + 2, bias);
    FixedHalves(order, img, at, bias);
    FixedHalves(order, img, at + 2, bias);
    RightHalf(order, img, end, at, bias);
    RightHalf(order, img, end, at + 2, bias);
    WordHalves(order, img, at);
    WordHalves(order, img, at + 2);
    if order.Big? {
      SharedLow(HalfAt(order, img, at + 2), HalfAt(order, img, at + 4), bias);
    } else {
      SharedHigh(HalfAt(order, img, at + 2), HalfAt(order, img, at), bias);
    }
  }

  lemma PairPlace(slots: seq<nat>, link: nat, n: nat, i: nat, after: seq<nat>)
    requires Inside(slots, link, n) && EvenlyUp(slots) && FirstPair(slots, i) && after == slots[i + 2..]
    ensures link <= slots[i] && slots[i + 1] == slots[i] + 2 && slots[i] - link + 6 <= n
    ensures forall k :: 0 <= k < |slots[..i]| ==> slots[..i][k] + 4 <= slots[i]
    ensures forall k :: 0 <= k < |after| ==> after[k] >= slots[i] + 4
  {
    assert (slots[i + 1] - slots[i]) % 2 == 0;
    forall k | 0 <= k < |after|
      ensures after[k] >= slots[i] + 4
    {
      assert after[k] == slots[i + 2 + k];
      assert slots[i + 1] < slots[i + 2 + k] && (slots[i + 2 + k] - slots[i + 1]) % 2 == 0;
    }
  }

  /** The halves the pair works on are the old ones. */
  lemma PairHalves(order: Order, img: seq<Byte>, one: seq<Byte>, two: seq<Byte>, link: nat, before: seq<nat>, bias: nat, at: nat)
    requires Inside(before, link, |img|) && at + 6 <= |img| && |one| == |img|
    requires forall k :: 0 <= k < |before| ==> before[k] + 4 <= link + at
    requires one == Relocated(order, img, link, before, bias) && two == Fixed(order, one, at, bias)
    ensures HalfAt(order, one, at) == HalfAt(order, img, at) && HalfAt(order, one, at + 2) == HalfAt(order, img, at + 2)
    ensures |two| == |img| && HalfAt(order, two, at + 4) == HalfAt(order, img, at + 4)
  {
    hide HalfAt, Relocated;
    RelocatedHalf(order, img, link, before, bias, at);
    RelocatedHalf(order, img, link, before, bias, at + 2);
    RelocatedHalf(order, img, link, before, bias, at + 4);
    HalfSame(order, two, one, at + 4);
  }

  /** A word that is right has the halves of the word with the bias added. */
  lemma RightHalf(order: Order, img: seq<Byte>, end: seq<Byte>, at: nat, bias: nat)
    requires at + 4 <= |img| == |end| && WordAt(order, end, at) == (WordAt(order, img, at) + bias) % TWO_32
    ensures |Fixed(order, img, at, bias)| == |img|
    ensures HalfAt(order, end, at) == HalfAt(order, Fixed(order, img, at, bias), at)
    ensures HalfAt(order, end, at + 2) == HalfAt(order, Fixed(order, img, at, bias), at + 2)
  {
    hide WordAt, PutWord, HalfAt;
    var r := Fixed(order, img, at, bias);
    WordPut(order, img, at, (WordAt(order, img, at) + bias) % TWO_32);
    WordHalves(order, end, at);
    WordHalves(order, r, at);
    HalvesUnique(HalfAt(order, end, HighAt(order, at)), HalfAt(order, end, LowAt(order, at)),
      HalfAt(order, r, HighAt(order, at)), HalfAt(order, r, LowAt(order, at)));
  }

  /** Slots an even distance apart all come out right exactly when no two overlap, or there is nothing to add. */
  lemma AllRightIff(order: Order, img: seq<Byte>, link: nat, slots: seq<nat>, bias: nat)
    requires Inside(slots, link, |img|) && EvenlyUp(slots) && bias < TWO_32
    ensures AllRight(order, img, link, slots, bias) <==> Spaced(slots) || bias == 0
  {
    hide Relocated, WordAt;
    if Spaced(slots) {
      forall k | 0 <= k < |slots|
        ensures Right(order, img, link, slots, bias, k)
      {
        RelocatedSlot(order, img, link, slots, bias, k);
      }
    } else if bias == 0 {
      RelocatedZero(order, img, link, slots);
      forall k | 0 <= k < |slots|
        ensures Right(order, img, link, slots, bias, k)
      {
        WordBelow(order, img, slots[k] - link);
      }
    } else {
      var i := FindPair(slots, 0);
      PairSpoils(order, img, link, slots, bias, i);
    }
  }

  lemma WordBelow(order: Order, s: seq<Byte>, at: nat)
    requires at + 4 <= |s|
    ensures WordAt(order, s, at) < TWO_32
  {
    JoinRange(order, s[at], s[at + 1], s[at + 2], s[at + 3]);
  }

  /** Slots two bytes apart, which a two-byte aligned machine accepts, spoil each other. */
  lemma OverlapExample()
    ensures var m, info, img: seq<Byte> := Machine(Big, 2, 4), Info(0, 6, 6), [0, 0, 0, 0, 0, 0];
      && AllFine(m, info, 0x1_0000, [0, 2]) && Inside([0, 2], 0, |img|)
      && WordAt(Big, Relocated(Big, img, 0, [0, 2], Bias(0x1_0000, 0)), 0) == 0x1_0001
  {
    hide Fixed, WordAt;
    var img: seq<Byte> := [0, 0, 0, 0, 0, 0];
    FirstFixed();
    SecondFixed();
    var slots: seq<nat> := [0, 2];
    assert slots[1..] == [2] && slots[1..][1..] == [];
    assert Relocated(Big, img, 0, slots, 0x1_0000) == [0, 1, 0, 1, 0, 0];
  }

  lemma FirstFixed()
    ensures Fixed(Big, [0, 0, 0, 0, 0, 0], 0, 0x1_0000) == [0, 1, 0, 0, 0, 0]
  {
    hide PutWord;
    assert WordAt(Big, [0, 0, 0, 0, 0, 0], 0) == 0;
    PutExample([0, 0, 0, 0, 0, 0], 0);
  }

  lemma PutExample(s: seq<Byte>, at: nat)
    requires at + 4 <= |s|
    ensures PutWord(Big, s, at, 0x1_0000) == s[at := 0][at + 1 := 1][at + 2 := 0][at + 3 := 0]
  {
  }

  lemma SecondFixed()
    ensures Fixed(Big, [0, 1, 0, 0, 0, 0], 2, 0x1_0000) == [0, 1, 0, 1, 0, 0]
    ensures WordAt(Big, [0, 1, 0, 1, 0, 0], 0) == 0x1_0001
  {
    hide PutWord;
    assert WordAt(Big, [0, 1, 0, 0, 0, 0], 2) == 0;
    PutExample([0, 1, 0, 0, 0, 0], 2);
  }

  // ---- Program headers

  predicate InFile(f: seq<Byte>, at: nat, len: nat) { at <= LONG_MAX && at + len <= |f| }

  function HdrPos(e: Ehdr, i: nat): (r: nat) { e.phoff + i * e.phentsize }

  function PhdrAt(order: Order, f: seq<Byte>, at: nat): (r: Phdr)
    requires InFile(f, at, PHDR_SIZE)
  {
    Phdr(WordAt(order, f, at), WordAt(order, f, at + 4), WordAt(order, f, at + 8), WordAt(order, f, at + 16), WordAt(order, f, at + 20))
  }

  predicate TableFits(e: Ehdr) {
    e.phnum * e.phentsize < TWO_32 && e.phoff + e.phnum * e.phentsize < TWO_32
  }

  predicate Readable(f: seq<Byte>, e: Ehdr) {
    forall i :: 0 <= i < e.phnum ==> InFile(f, HdrPos(e, i), PHDR_SIZE)
  }

  function Headers(order: Order, f: seq<Byte>, e: Ehdr): (r: seq<Phdr>)
    requires Readable(f, e)
    ensures |r| == e.phnum
  {
    seq(e.phnum, i requires 0 <= i < e.phnum => PhdrAt(order, f, HdrPos(e, i)))
  }

  predicate Sound(p: Phdr) {
    p.kind == PT_LOAD ==> p.filesz <= p.memsz && p.vaddr + p.memsz < TWO_32
  }

  predicate AllSound(phs: seq<Phdr>) {
    forall i :: 0 <= i < |phs| ==> Sound(phs[i])
  }

  predicate Within(p: Phdr, x: Info) {
    x.linkBase <= p.vaddr && p.vaddr + p.filesz <= x.fileEnd && p.vaddr + p.memsz <= x.memEnd
  }

  /** `x` is the extent of the loadable segments: it holds them all, and each bound is met by one. */
  predicate Extent(phs: seq<Phdr>, x: Info) {
    && (forall i :: 0 <= i < |phs| && phs[i].kind == PT_LOAD ==> Within(phs[i], x))
    && (exists i :: 0 <= i < |phs| && phs[i].kind == PT_LOAD && phs[i].vaddr == x.linkBase)
    && (exists i :: 0 <= i < |phs| && phs[i].kind == PT_LOAD && phs[i].vaddr + phs[i].filesz == x.fileEnd)
    && (exists i :: 0 <= i < |phs| && phs[i].kind == PT_LOAD && phs[i].vaddr + phs[i].memsz == x.memEnd)
  }

  predicate SpansFit(x: Info) {
    x.fileEnd - x.linkBase <= LONG_MAX && x.memEnd - x.fileEnd <= LONG_MAX && x.memEnd - x.linkBase <= LONG_MAX
  }

  predicate Accepts(phs: seq<Phdr>, x: Info) {
    AllSound(phs) && Extent(phs, x) && SpansFit(x)
  }

  lemma ExtentUnique(phs: seq<Phdr>, x: Info, y: Info)
    requires Extent(phs, x) && Extent(phs, y)
    ensures x == y
  {
  }

  lemma ExtentOrder(phs: seq<Phdr>, x: Info)
    requires Extent(phs, x) && AllSound(phs)
    ensures x.linkBase <= x.fileEnd <= x.memEnd < TWO_32
  {
    var i :| 0 <= i < |phs| && phs[i].kind == PT_LOAD && phs[i].vaddr + phs[i].filesz == x.fileEnd;
    var j :| 0 <= j < |phs| && phs[j].kind == PT_LOAD && phs[j].vaddr + phs[j].memsz == x.memEnd;
    assert Sound(phs[i]) && Sound(phs[j]) && Within(phs[i], x);
  }

  predicate NoLoad(phs: seq<Phdr>) {
    forall i :: 0 <= i < |phs| ==> phs[i].kind != PT_LOAD
  }

  function Grown(seen: bool, x: Info, p: Phdr): (r: Info) {
    Info(
      if !seen || p.vaddr < x.linkBase then p.vaddr else x.linkBase,
      if !seen || p.vaddr + p.filesz > x.fileEnd then p.vaddr + p.filesz else x.fileEnd,
      if !seen || p.vaddr + p.memsz > x.memEnd then p.vaddr + p.memsz else x.memEnd)
  }

  lemma ExtentGrows(phs: seq<Phdr>, seen: bool, x: Info, p: Phdr)
    requires if seen then Extent(phs, x) else NoLoad(phs)
    ensures p.kind == PT_LOAD ==> Extent(phs + [p], Grown(seen, x, p))
    ensures p.kind != PT_LOAD ==> if seen then Extent(phs + [p], x) else NoLoad(phs + [p])
  {
    var q := phs + [p];
    var n := |phs|;
    assert q[n] == p && forall i :: 0 <= i < n ==> q[i] == phs[i];
    if seen {
      var i :| 0 <= i < |phs| && phs[i].kind == PT_LOAD && phs[i].vaddr == x.linkBase;
      var j :| 0 <= j < |phs| && phs[j].kind == PT_LOAD && phs[j].vaddr + phs[j].filesz == x.fileEnd;
      var k :| 0 <= k < |phs| && phs[k].kind == PT_LOAD && phs[k].vaddr + phs[k].memsz == x.memEnd;
      assert q[i] == phs[i] && q[j] == phs[j] && q[k] == phs[k];
    }
  }

  lemma NoExtent(phs: seq<Phdr>, x: Info)
    requires NoLoad(phs)
    ensures !Extent(phs, x)
  {
  }

  /** Size the program: succeeds exactly on sound tables, with their extent. */
  method ElfScan(m: Machine, f: seq<Byte>, e: Ehdr) returns (ok: bool, info: Info)
    ensures ok ==> TableFits(e) && Readable(f, e) && Accepts(Headers(m.order, f, e), info)
    ensures !ok ==> !(TableFits(e) && Readable(f, e) && exists x :: Accepts(Headers(m.order, f, e), x))
  {
    hide Extent, WordAt, Sound, NoLoad;
    info := Info(0, 0, 0);
    var seen := false;
    if e.phnum * e.phentsize >= TWO_32 || e.phoff + e.phnum * e.phentsize >= TWO_32 {
      return false, info;
    }
    var i: nat := 0;
    var phs: seq<Phdr> := [];
    NothingLoads();
    while i < e.phnum
      invariant i <= e.phnum && |phs| == i
      invariant forall j :: 0 <= j < i ==> InFile(f, HdrPos(e, j), PHDR_SIZE) && phs[j] == PhdrAt(m.order, f, HdrPos(e, j))
      invariant AllSound(phs) && if seen then Extent(phs, info) else NoLoad(phs)
    {
      if !InFile(f, HdrPos(e, i), PHDR_SIZE) {
        return false, info;
      }
      var p := PhdrAt(m.order, f, HdrPos(e, i));
      if !Sound(p) {
        NotSound(m.order, f, e, i);
        return false, info;
      }
      ExtentGrows(phs, seen, info, p);
      if p.kind == PT_LOAD {
        info := Grown(seen, info, p);
        seen := true;
      }
      phs := phs + [p];
      i := i + 1;
    }
    assert phs == Headers(m.order, f, e);
    if !seen {
      forall x
        ensures !Accepts(phs, x)
      {
        NoExtent(phs, x);
      }
      return false, info;
    }
    ExtentOrder(phs, info);
    forall x | Accepts(phs, x)
      ensures x == info
    {
      ExtentUnique(phs, x, info);
    }
    ok := SpansFit(info);
  }

  lemma NothingLoads()
    ensures NoLoad([])
  {
  }

  lemma NotSound(order: Order, f: seq<Byte>, e: Ehdr, i: nat)
    requires i < e.phnum && InFile(f, HdrPos(e, i), PHDR_SIZE) && !Sound(PhdrAt(order, f, HdrPos(e, i)))
    ensures Readable(f, e) ==> !AllSound(Headers(order, f, e))
  {
    hide Sound;
    if Readable(f, e) {
      assert Headers(order, f, e)[i] == PhdrAt(order, f, HdrPos(e, i));
    }
  }

  // ---- The image

  predicate Fills(p: Phdr, v: nat) {
    p.kind == PT_LOAD && p.vaddr <= v < p.vaddr + p.filesz
  }

  /** The byte at address v: from the last of the first n headers that fills it, otherwise zero. */
  function ByteAt(f: seq<Byte>, phs: seq<Phdr>, n: nat, v: nat): (r: Byte)
    requires n <= |phs|
    decreases n
  {
    if n == 0 then 0
    else
      var p := phs[n - 1];
      if Fills(p, v) then (if p.offset + (v - p.vaddr) < |f| then f[p.offset + (v - p.vaddr)] else 0)
      else ByteAt(f, phs, n - 1, v)
  }

  /** The image as linked. */
  function Content(f: seq<Byte>, phs: seq<Phdr>, x: Info): (r: seq<Byte>)
    requires x.linkBase <= x.memEnd
    ensures |r| == x.memEnd - x.linkBase
  {
    seq<Byte>(x.memEnd - x.linkBase, i requires 0 <= i < x.memEnd - x.linkBase => ByteAt(f, phs, |phs|, x.linkBase + i))
  }

  /** The file part of every segment can be read. */
  predicate Backed(f: seq<Byte>, p: Phdr) {
    p.kind == PT_LOAD && p.filesz > 0 ==> p.offset <= LONG_MAX && p.filesz <= LONG_MAX && p.offset + p.filesz <= |f|
  }

  predicate HasKind(phs: seq<Phdr>, kind: nat) { exists i :: 0 <= i < |phs| && phs[i].kind == kind }

  /** Header k is the last one of its kind. */
  predicate IsLast(phs: seq<Phdr>, kind: nat, k: nat) {
    k < |phs| && phs[k].kind == kind && forall j :: k < j < |phs| ==> phs[j].kind != kind
  }

  lemma LastUnique(phs: seq<Phdr>, kind: nat, k: nat, l: nat)
    requires IsLast(phs, kind, k) && IsLast(phs, kind, l)
    ensures k == l
  {
  }

  /** There is one exactly if there is a header of the kind. */
  lemma {:induction false} LastExists(phs: seq<Phdr>, kind: nat)
    ensures HasKind(phs, kind) <==> exists k :: IsLast(phs, kind, k)
    decreases phs
  {
    if phs != [] && phs[|phs| - 1].kind != kind {
      var n := |phs| - 1;
      var t := phs[..n];
      LastExists(t, kind);
      if HasKind(phs, kind) {
        var i :| 0 <= i < |phs| && phs[i].kind == kind;
        assert t[i].kind == kind;
        var k :| IsLast(t, kind, k);
        assert IsLast(phs, kind, k);
      }
    } else if phs != [] {
      assert IsLast(phs, kind, |phs| - 1);
    }
  }

  /** What is remembered of the first n headers: the last one of the kind, or |phs| if there is none. */
  predicate Remembered(phs: seq<Phdr>, n: nat, kind: nat, k: nat)
    requires n <= |phs|
  {
    if k == |phs| then forall j :: 0 <= j < n ==> phs[j].kind != kind
    else k < n && phs[k].kind == kind && forall j :: k < j < n ==> phs[j].kind != kind
  }

  lemma RememberedIs(phs: seq<Phdr>, kind: nat, k: nat)
    requires Remembered(phs, |phs|, kind, k)
    ensures k == |phs| <==> !HasKind(phs, kind)
    ensures k < |phs| ==> IsLast(phs, kind, k)
  {
  }

  function HalfAt(order: Order, s: seq<Byte>, at: nat): (r: nat)
    requires at + 2 <= |s|
  {
    if order.Big? then 256 * (s[at] as int) + s[at + 1] else 256 * (s[at + 1] as int) + s[at]
  }

  predicate RelocHeader(order: Order, f: seq<Byte>, p: Phdr) {
    && p.filesz >= 8 && p.offset + p.filesz < TWO_32 && InFile(f, p.offset, 8)
    && WordAt(order, f, p.offset) == PTOS_RELOC_MAGIC && HalfAt(order, f, p.offset + 4) == PTOS_RELOC_VERSION
  }

  function SlotsOf(f: seq<Byte>, p: Phdr, x: Info): (r: Slots) {
    Stream(f, p.offset + 8, p.offset + p.filesz, x.linkBase, true)
  }

  /** The stream is in order and every slot acceptable at this address; at the link address nobody looks. */
  predicate RelocAccepted(m: Machine, f: seq<Byte>, p: Phdr, x: Info, base: nat) {
    Bias(base, x.linkBase) == 0
    || (RelocHeader(m.order, f, p) && SlotsOf(f, p, x).Slots? && AllFine(m, x, base, SlotsOf(f, p, x).list))
  }

  /** An image with the compact stream applied. */
  function Patched(m: Machine, f: seq<Byte>, p: Phdr, x: Info, base: nat, img: seq<Byte>): (r: seq<Byte>)
    requires x.linkBase <= x.memEnd && RelocAccepted(m, f, p, x, base) && |img| == x.memEnd - x.linkBase
    ensures |r| == |img|
  {
    if Bias(base, x.linkBase) == 0 then img
    else
      FineInside(m, x, base, SlotsOf(f, p, x).list);
      Relocated(m.order, img, x.linkBase, SlotsOf(f, p, x).list, Bias(base, x.linkBase))
  }

  /** The image as loaded at `base`. */
  function Image(m: Machine, f: seq<Byte>, phs: seq<Phdr>, p: Phdr, x: Info, base: nat): (r: seq<Byte>)
    requires x.linkBase <= x.memEnd && RelocAccepted(m, f, p, x, base)
  {
    Patched(m, f, p, x, base, Content(f, phs, x))
  }

  /**
   * A program that loads at two addresses, one of them not its link address: the two images differ
   * in the listed slots only, there by the distance, provided no two slots overlap, which on a
   * machine with four-byte alignment the loader itself makes sure of.
   */
  lemma LoadsAlike(m: Machine, f: seq<Byte>, phs: seq<Phdr>, p: Phdr, x: Info, a: nat, b: nat)
    requires x.linkBase <= x.memEnd && RelocAccepted(m, f, p, x, a) && RelocAccepted(m, f, p, x, b)
    requires Bias(b, x.linkBase) != 0
    requires m.align == 4 || Spaced(SlotsOf(f, p, x).list)
    ensures var slots := SlotsOf(f, p, x).list; var y, z := Image(m, f, phs, p, x, a), Image(m, f, phs, p, x, b);
      && |y| == |z| == x.memEnd - x.linkBase && Inside(slots, x.linkBase, |y|) && Spaced(slots)
      && (forall i :: 0 <= i < |y| && !InSlot(slots, x.linkBase, i) ==> y[i] == z[i])
      && (forall k :: 0 <= k < |slots| ==>
            (WordAt(m.order, z, slots[k] - x.linkBase) - WordAt(m.order, y, slots[k] - x.linkBase)) % TWO_32 == (b - a) % TWO_32)
  {
    hide WordAt, InSlot, Bias, Stream, Content, Relocated, RelocHeader;
    var slots := SlotsOf(f, p, x).list;
    FineInside(m, x, b, slots);
    if m.align == 4 {
      StreamAscends(f, p.offset + 8, p.offset + p.filesz, x.linkBase, true);
      AlignedSpaced(m, x, b, slots);
    }
    RelocatedZero(m.order, Content(f, phs, x), x.linkBase, slots);
    TwoBases(m.order, Content(f, phs, x), x.linkBase, slots, a, b);
  }

  /** Accepted slots are an even distance apart, on machines that ask for two- or four-byte alignment. */
  lemma FineEven(m: Machine, info: Info, base: nat, slots: seq<nat>)
    requires (m.align == 2 || m.align == 4) && AllFine(m, info, base, slots) && Ascends(slots, info.linkBase, true)
    ensures EvenlyUp(slots)
  {
    forall i, j | 0 <= i < j < |slots|
      ensures slots[i] < slots[j] && (slots[j] - slots[i]) % 2 == 0
    {
      assert Fine(m, info, base, slots[i]) && Fine(m, info, base, slots[j]);
      EvenFrom(m.align, base, slots[i] - info.linkBase, slots[j] - info.linkBase);
    }
  }

  lemma EvenFrom(align: nat, base: nat, a: nat, b: nat)
    requires (align == 2 || align == 4) && (base + a) % align == 0 && (base + b) % align == 0
    ensures (b - a) % 2 == 0
  {
    var u, v := (base + a) / align, (base + b) / align;
    if align == 4 {
      assert b - a == 2 * (2 * (v - u));
    } else {
      assert b - a == 2 * (v - u);
    }
  }

  /** A program loaded away from its link address has every slot right exactly when no two of its slots overlap. */
  lemma LoadedRightIff(m: Machine, f: seq<Byte>, phs: seq<Phdr>, p: Phdr, x: Info, base: nat)
    requires x.linkBase <= x.memEnd && RelocAccepted(m, f, p, x, base) && Bias(base, x.linkBase) != 0
    requires m.align == 2 || m.align == 4
    ensures var slots := SlotsOf(f, p, x).list; var img := Content(f, phs, x);
      && Inside(slots, x.linkBase, |img|)
      && (AllRight(m.order, img, x.linkBase, slots, Bias(base, x.linkBase)) <==> Spaced(slots))
  {
    hide Stream, Content, Relocated, RelocHeader, AllRight;
    var slots := SlotsOf(f, p, x).list;
    FineInside(m, x, base, slots);
    StreamAscends(f, p.offset + 8, p.offset + p.filesz, x.linkBase, true);
    FineEven(m, x, base, slots);
    AllRightIff(m.order, Content(f, phs, x), x.linkBase, slots, Bias(base, x.linkBase));
  }

  /** At the link address any stream will do, even one without a header; elsewhere that one is refused. */
  lemma UncheckedExample()
    ensures var m, p, x := Machine(Big, 2, 4), Phdr(PT_PTOS_RELOC, 0, 0, 0, 0), Info(0, 4, 4);
      && !RelocHeader(m.order, [], p) && RelocAccepted(m, [], p, x, 0) && !RelocAccepted(m, [], p, x, 4)
  {
    assert Bias(0, 0) == 0 && Bias(4, 0) == 4;
  }

  // ---- The routines


  /** Memory outside the image at `base` is as it was. */
  twostate predicate OnlyImage(mem: array<Byte>, base: nat, n: nat)
    reads mem
  {
    forall a :: 0 <= a < mem.Length && !(base <= a < base + n) ==> mem[a] == old(mem[a])
  }

  /** Add the bias to the slot at `vaddr`, if it is acceptable. */
  method ElfFixup(m: Machine, mem: array<Byte>, base: nat, x: Info, bias: nat, vaddr: nat) returns (ok: bool)
    requires x.linkBase <= x.memEnd && base + (x.memEnd - x.linkBase) <= mem.Length && m.align > 0
    modifies mem
    ensures OnlyImage(mem, base, x.memEnd - x.linkBase)
    ensures ok == Fine(m, x, base, vaddr)
    ensures var n := x.memEnd - x.linkBase;
      mem[base..base + n] == if ok then Fixed(m.order, old(mem[base..base + n]), vaddr - x.linkBase, bias) else old(mem[base..base + n])
  {
    hide Join, WordByte, PutWord, WordAt, Fine, Aligned;
    ghost var n := x.memEnd - x.linkBase;
    ghost var was := mem[base..base + n];
    FineIs(m, x, base, vaddr);
    if vaddr < x.linkBase || x.memEnd < 4 || vaddr > x.memEnd - 4 {
      return false;
    }
    var at := base + (vaddr - x.linkBase);
    if !Aligned(at, m.align) {
      return false;
    }
    var w := LoadWord(m.order, mem, at);
    WordSlice(m.order, mem[..], base, n, vaddr - x.linkBase);
    assert mem[..][base..base + n] == was;
    StoreWord(m.order, mem, at, (w + bias) % TWO_32);
    PutSlice(m.order, was, vaddr - x.linkBase, (w + bias) % TWO_32, mem[base..base + n]);
    ok := true;
  }

  lemma FineIs(m: Machine, x: Info, base: nat, vaddr: nat)
    ensures vaddr < x.linkBase || x.memEnd < 4 || vaddr > x.memEnd - 4 ==> !Fine(m, x, base, vaddr)
    ensures m.align > 0 && x.linkBase <= vaddr && x.memEnd >= 4 && vaddr <= x.memEnd - 4 ==>
      (Fine(m, x, base, vaddr) <==> Aligned(base + (vaddr - x.linkBase), m.align))
  {
  }

  /** Byte k of the four that hold v. */
  function WordByte(order: Order, v: nat, k: nat): (r: Byte)
    requires v < TWO_32 && k < 4
  {
    var i := if order.Big? then k else 3 - k;
    if i == 0 then v / 0x100_0000 else if i == 1 then v / 0x1_0000 % 256 else if i == 2 then v / 0x100 % 256 else v % 256
  }

  lemma WordSlice(order: Order, s: seq<Byte>, base: nat, n: nat, at: nat)
    requires base + n <= |s| && at + 4 <= n
    ensures WordAt(order, s[base..base + n], at) == WordAt(order, s, base + at)
  {
  }

  lemma PutSlice(order: Order, s: seq<Byte>, at: nat, v: nat, r: seq<Byte>)
    requires at + 4 <= |s| == |r| && v < TWO_32
    requires forall i :: 0 <= i < |s| && !(at <= i < at + 4) ==> r[i] == s[i]
    requires r[at] == WordByte(order, v, 0) && r[at + 1] == WordByte(order, v, 1) && r[at + 2] == WordByte(order, v, 2) && r[at + 3] == WordByte(order, v, 3)
    ensures r == PutWord(order, s, at, v)
  {
  }

  method LoadWord(order: Order, mem: array<Byte>, at: nat) returns (v: nat)
    requires at + 4 <= mem.Length
    ensures v == WordAt(order, mem[..], at)
  {
    v := Join(order, mem[at], mem[at + 1], mem[at + 2], mem[at + 3]);
  }

  method StoreWord(order: Order, mem: array<Byte>, at: nat, v: nat)
    requires at + 4 <= mem.Length && v < TWO_32
    modifies mem
    ensures mem[at] == WordByte(order, v, 0) && mem[at + 1] == WordByte(order, v, 1)
    ensures mem[at + 2] == WordByte(order, v, 2) && mem[at + 3] == WordByte(order, v, 3)
    ensures forall i :: 0 <= i < mem.Length && !(at <= i < at + 4) ==> mem[i] == old(mem[i])
  {
    hide WordByte;
    var k: nat := 0;
    while k < 4
      invariant k <= 4 && forall i: nat :: i < k ==> mem[at + i] == WordByte(order, v, i)
      invariant forall i :: 0 <= i < mem.Length && !(at <= i < at + 4) ==> mem[i] == old(mem[i])
    {
      mem[at + k] := WordByte(order, v, k);
      k := k + 1;
    }
  }

  lemma {:induction false} RelocatedSnoc(order: Order, img: seq<Byte>, link: nat, slots: seq<nat>, s: nat, bias: nat)
    requires Inside(slots + [s], link, |img|) && Inside(slots, link, |img|)
    ensures link <= s && s - link + 4 <= |img|
    ensures Relocated(order, img, link, slots + [s], bias) == Fixed(order, Relocated(order, img, link, slots, bias), s - link, bias)
    decreases slots
  {
    hide Fixed;
    assert (slots + [s])[|slots|] == s;
    if slots == [] {
      assert (slots + [s])[1..] == [];
    } else {
      var t := slots[1..];
      assert (slots + [s])[1..] == t + [s] && (slots + [s])[0] == slots[0];
      assert forall i :: 0 <= i < |t + [s]| ==> (t + [s])[i] == (slots + [s])[i + 1];
      FixedLength(order, img, slots[0] - link, bias);
      RelocatedSnoc(order, Fixed(order, img, slots[0] - link, bias), link, t, s, bias);
    }
  }

  lemma FixedLength(order: Order, img: seq<Byte>, at: nat, bias: nat)
    requires at + 4 <= |img|
    ensures |Fixed(order, img, at, bias)| == |img|
  {
  }

  lemma StreamStep(f: seq<Byte>, pos: nat, limit: nat, vaddr: nat, first: bool)
    requires pos < limit
    ensures var s := Stream(f, pos, limit, vaddr, first); var d := Decode(f, pos, limit, 0);
      && (d.Bad? || (d.value == 0 && !first) || vaddr + d.value >= TWO_32 ==> s.BadStream?)
      && (d.Val? && !(d.value == 0 && !first) && vaddr + d.value < TWO_32 ==>
            var t := Stream(f, d.next, limit, vaddr + d.value, false);
            s == if t.BadStream? then BadStream else Slots([vaddr + d.value] + t.list))
  {
  }

  predicate Continues(whole: Slots, done: seq<nat>, rest: Slots) {
    whole == if rest.BadStream? then BadStream else Slots(done + rest.list)
  }

  lemma Continued(whole: Slots, done: seq<nat>, s: nat, rest: Slots)
    requires Continues(whole, done, if rest.BadStream? then BadStream else Slots([s] + rest.list))
    ensures Continues(whole, done + [s], rest)
    ensures whole.Slots? ==> |done| < |whole.list| && whole.list[|done|] == s
  {
    if rest.Slots? {
      assert done + ([s] + rest.list) == (done + [s]) + rest.list;
    }
  }

  lemma FineSnoc(m: Machine, x: Info, base: nat, done: seq<nat>, s: nat)
    requires AllFine(m, x, base, done) && Fine(m, x, base, s)
    ensures AllFine(m, x, base, done + [s])
  {
  }

  /** Apply the compact stream: succeeds exactly when it is acceptable, and then every slot has the bias added. */
  method ElfRelocatePtos(m: Machine, f: seq<Byte>, p: Phdr, mem: array<Byte>, base: nat, x: Info) returns (ok: bool)
    requires x.linkBase <= x.memEnd && base + (x.memEnd - x.linkBase) <= mem.Length && m.align > 0
    modifies mem
    ensures OnlyImage(mem, base, x.memEnd - x.linkBase)
    ensures ok == RelocAccepted(m, f, p, x, base)
    ensures var n := x.memEnd - x.linkBase;
      ok ==> mem[base..base + n] == Patched(m, f, p, x, base, old(mem[base..base + n]))
  {
    hide Stream, Decode, Fine, Fixed, WordAt, Bias, HalfAt, Continues, AllFine, Relocated, SlotsOf, RelocHeader;
    var n := x.memEnd - x.linkBase;
    var bias := Bias(base, x.linkBase);
    if bias == 0 {
      return true;
    }
    if !RelocHeader(m.order, f, p) {
      return false;
    }
    HeaderLength(m.order, f, p);
    var pos: nat, limit: nat := p.offset + 8, p.offset + p.filesz;
    var vaddr: nat, first := x.linkBase, true;
    ghost var done: seq<nat> := [];
    ghost var img := mem[base..base + n];
    StartContinues(SlotsOf(f, p, x));
    SlotsAre(f, p, x);
    NoneFine(m, x, base);
    RelocatedNone(m.order, img, x.linkBase, bias);
    while pos < limit
      invariant pos <= limit && OnlyImage(mem, base, n)
      invariant Continues(SlotsOf(f, p, x), done, Stream(f, pos, limit, vaddr, first))
      invariant AllFine(m, x, base, done) && Inside(done, x.linkBase, n)
      invariant mem[base..base + n] == Relocated(m.order, img, x.linkBase, done, bias)
      decreases limit - pos
    {
      var d := ReadUleb128(f, pos, limit);
      StreamStep(f, pos, limit, vaddr, first);
      if d.Bad? {
        BadContinues(SlotsOf(f, p, x), done);
        return false;
      }
      if d.value == 0 && !first {
        BadContinues(SlotsOf(f, p, x), done);
        return false;
      }
      if vaddr + d.value >= TWO_32 {
        BadContinues(SlotsOf(f, p, x), done);
        return false;
      }
      first, pos, vaddr := false, d.next, vaddr + d.value;
      Continued(SlotsOf(f, p, x), done, vaddr, Stream(f, pos, limit, vaddr, false));
      var fine := ElfFixup(m, mem, base, x, bias, vaddr);
      if !fine {
        NotAllFine(m, x, base, SlotsOf(f, p, x), |done|, vaddr);
        return false;
      }
      FineSnoc(m, x, base, done, vaddr);
      FineInside(m, x, base, done + [vaddr]);
      RelocatedSnoc(m.order, img, x.linkBase, done, vaddr, bias);
      done := done + [vaddr];
    }
    EndContinues(f, pos, limit, vaddr, first, SlotsOf(f, p, x), done);
    ok := true;
  }

  lemma SlotsAre(f: seq<Byte>, p: Phdr, x: Info)
    ensures SlotsOf(f, p, x) == Stream(f, p.offset + 8, p.offset + p.filesz, x.linkBase, true)
  {
  }

  lemma HeaderLength(order: Order, f: seq<Byte>, p: Phdr)
    requires RelocHeader(order, f, p)
    ensures p.filesz >= 8
  {
  }

  lemma RelocatedNone(order: Order, img: seq<Byte>, link: nat, bias: nat)
    ensures Relocated(order, img, link, [], bias) == img
  {
  }

  lemma NoneFine(m: Machine, x: Info, base: nat)
    ensures AllFine(m, x, base, [])
  {
  }

  lemma StartContinues(whole: Slots)
    ensures Continues(whole, [], whole)
  {
    if whole.Slots? {
      assert [] + whole.list == whole.list;
    }
  }

  lemma BadContinues(whole: Slots, done: seq<nat>)
    requires Continues(whole, done, BadStream)
    ensures whole.BadStream?
  {
  }

  lemma EndContinues(f: seq<Byte>, pos: nat, limit: nat, vaddr: nat, first: bool, whole: Slots, done: seq<nat>)
    requires pos >= limit && Continues(whole, done, Stream(f, pos, limit, vaddr, first))
    ensures whole == Slots(done)
  {
    assert done + [] == done;
  }

  lemma NotAllFine(m: Machine, x: Info, base: nat, whole: Slots, k: nat, s: nat)
    requires !Fine(m, x, base, s) && (whole.Slots? ==> k < |whole.list| && whole.list[k] == s)
    ensures whole.Slots? ==> !AllFine(m, x, base, whole.list)
  {
    hide Fine;
  }

  predicate AllBacked(f: seq<Byte>, phs: seq<Phdr>, n: nat)
    requires n <= |phs|
  {
    forall i :: 0 <= i < n ==> Backed(f, phs[i])
  }

  /** The image holds what the first n headers put there. */
  predicate Holds(img: seq<Byte>, f: seq<Byte>, phs: seq<Phdr>, n: nat, x: Info)
    requires n <= |phs|
  {
    forall i :: 0 <= i < |img| ==> img[i] == ByteAt(f, phs, n, x.linkBase + i)
  }

  lemma HoldsNothing(img: seq<Byte>, f: seq<Byte>, phs: seq<Phdr>, x: Info)
    requires forall i :: 0 <= i < |img| ==> img[i] == 0
    ensures Holds(img, f, phs, 0, x)
  {
  }

  lemma HoldsSame(img: seq<Byte>, f: seq<Byte>, phs: seq<Phdr>, h: nat, x: Info)
    requires h < |phs| && Holds(img, f, phs, h, x) && (phs[h].kind != PT_LOAD || phs[h].filesz == 0)
    ensures Holds(img, f, phs, h + 1, x) && Backed(f, phs[h])
  {
  }

  lemma HoldsMore(img: seq<Byte>, f: seq<Byte>, phs: seq<Phdr>, h: nat, x: Info, now: seq<Byte>)
    requires h < |phs| && Holds(img, f, phs, h, x) && |now| == |img|
    requires phs[h].kind == PT_LOAD && x.linkBase <= phs[h].vaddr && phs[h].offset + phs[h].filesz <= |f|
    requires forall i :: 0 <= i < |img| ==> var at := phs[h].vaddr - x.linkBase;
      now[i] == if at <= i < at + phs[h].filesz then f[phs[h].offset + (i - at)] else img[i]
    ensures Holds(now, f, phs, h + 1, x)
  {
  }

  lemma HoldsAll(img: seq<Byte>, f: seq<Byte>, phs: seq<Phdr>, x: Info)
    requires x.linkBase <= x.memEnd && |img| == x.memEnd - x.linkBase && Holds(img, f, phs, |phs|, x)
    ensures img == Content(f, phs, x)
  {
  }

  /** Clear the image, then read the file part of each segment over it; the headers of relocation stream and imports that
      come last are remembered. */
  method LoadSegments(f: seq<Byte>, phs: seq<Phdr>, mem: array<Byte>, base: nat, x: Info) returns (ok: bool, reloc: nat, imports: nat)
    requires AllSound(phs) && Extent(phs, x) && x.linkBase <= x.memEnd && base + (x.memEnd - x.linkBase) <= mem.Length
    modifies mem
    ensures OnlyImage(mem, base, x.memEnd - x.linkBase)
    ensures ok == AllBacked(f, phs, |phs|)
    ensures ok ==> mem[base..base + (x.memEnd - x.linkBase)] == Content(f, phs, x)
    ensures ok ==> (reloc == |phs| <==> !HasKind(phs, PT_PTOS_RELOC)) && (reloc < |phs| ==> IsLast(phs, PT_PTOS_RELOC, reloc))
    ensures ok ==> reloc <= |phs| && (imports < |phs| <==> HasKind(phs, PT_PTOS_IMPORTS))
  {
    hide Sound, Backed, Holds, Content, HasKind, IsLast;
    reloc, imports := |phs|, |phs|;
    var n := x.memEnd - x.linkBase;
    Clear(mem, base, n);
    HoldsNothing(mem[base..base + n], f, phs, x);
    var h: nat := 0;
    while h < |phs|
      invariant h <= |phs| && OnlyImage(mem, base, n)
      invariant AllBacked(f, phs, h) && Holds(mem[base..base + n], f, phs, h, x)
      invariant Remembered(phs, h, PT_PTOS_RELOC, reloc) && Remembered(phs, h, PT_PTOS_IMPORTS, imports)
    {
      var p := phs[h];
      if p.kind == PT_PTOS_RELOC {
        reloc := h;
      } else if p.kind == PT_PTOS_IMPORTS {
        imports := h;
      }
      if p.kind == PT_LOAD && p.filesz > 0 {
        assert Sound(p) && Within(p, x);
        SoundIs(p);
        BackedIs(f, p);
        if p.offset > LONG_MAX || p.filesz > LONG_MAX {
          return false, reloc, imports;
        }
        ghost var was := mem[base..base + n];
        var got := ReadSegment(f, p, mem, base + (p.vaddr - x.linkBase));
        if got != p.filesz {
          return false, reloc, imports;
        }
        HoldsMore(was, f, phs, h, x, mem[base..base + n]);
      } else {
        HoldsSame(mem[base..base + n], f, phs, h, x);
      }
      h := h + 1;
    }
    HoldsAll(mem[base..base + n], f, phs, x);
    RememberedIs(phs, PT_PTOS_RELOC, reloc);
    RememberedIs(phs, PT_PTOS_IMPORTS, imports);
    ok := true;
  }

  method Clear(mem: array<Byte>, base: nat, n: nat)
    requires base + n <= mem.Length
    modifies mem
    ensures forall a :: base <= a < base + n ==> mem[a] == 0
    ensures OnlyImage(mem, base, n)
  {
    var i: nat := 0;
    while i < n
      invariant i <= n && OnlyImage(mem, base, n)
      invariant forall a :: base <= a < base + i ==> mem[a] == 0
    {
      mem[base + i] := 0;
      i := i + 1;
    }
  }

  lemma SoundIs(p: Phdr)
    requires Sound(p) && p.kind == PT_LOAD
    ensures p.filesz <= p.memsz
  {
  }

  lemma BackedIs(f: seq<Byte>, p: Phdr)
    requires p.kind == PT_LOAD && p.filesz > 0
    ensures Backed(f, p) <==> p.offset <= LONG_MAX && p.filesz <= LONG_MAX && p.offset + p.filesz <= |f|
  {
  }

  /** Read the file part of a segment to address `at`; gives the number of bytes there were. */
  method ReadSegment(f: seq<Byte>, p: Phdr, mem: array<Byte>, at: nat) returns (got: nat)
    requires at + p.filesz <= mem.Length
    modifies mem
    ensures got <= p.filesz && (got == p.filesz <==> p.offset + p.filesz <= |f| || p.filesz == 0)
    ensures p.offset + got <= |f| || got == 0
    ensures forall a :: at <= a < at + got ==> mem[a] == f[p.offset + (a - at)]
    ensures forall a :: 0 <= a < mem.Length && !(at <= a < at + got) ==> mem[a] == old(mem[a])
  {
    got := if p.offset + p.filesz <= |f| then p.filesz else if p.offset <= |f| then |f| - p.offset else 0;
    var i: nat := 0;
    while i < got
      invariant i <= got
      invariant forall a :: at <= a < at + i ==> mem[a] == f[p.offset + (a - at)]
      invariant forall a :: 0 <= a < mem.Length && !(at <= a < at + got) ==> mem[a] == old(mem[a])
    {
      mem[at + i] := f[p.offset + i];
      i := i + 1;
    }
  }

  /** The program can be loaded at `base`, with extent x. */
  ghost predicate Loadable(m: Machine, f: seq<Byte>, e: Ehdr, x: Info, base: nat) {
    && TableFits(e) && Readable(f, e) && Accepts(Headers(m.order, f, e), x)
    && x.linkBase <= e.entry < x.memEnd
    && var phs := Headers(m.order, f, e);
       && AllBacked(f, phs, |phs|)
       && forall k :: 0 <= k < |phs| && IsLast(phs, PT_PTOS_RELOC, k) ==> RelocAccepted(m, f, phs[k], x, base)
  }

  /** What a load that succeeds leaves: the image as linked if there is no relocation stream, which is then left to the
      sections, and otherwise the image with the last stream applied; the imports come last. */
  ghost predicate LoadedAs(m: Machine, f: seq<Byte>, phs: seq<Phdr>, x: Info, base: nat, r: Outcome, img: seq<Byte>)
    requires x.linkBase <= x.memEnd
    requires forall k :: 0 <= k < |phs| && IsLast(phs, PT_PTOS_RELOC, k) ==> RelocAccepted(m, f, phs[k], x, base)
  {
    && (r == BySections <==> !HasKind(phs, PT_PTOS_RELOC))
    && (r == ThenImports <==> HasKind(phs, PT_PTOS_RELOC) && HasKind(phs, PT_PTOS_IMPORTS))
    && (r == Loaded <==> HasKind(phs, PT_PTOS_RELOC) && !HasKind(phs, PT_PTOS_IMPORTS))
    && (!HasKind(phs, PT_PTOS_RELOC) ==> img == Content(f, phs, x))
    && (forall k :: 0 <= k < |phs| && IsLast(phs, PT_PTOS_RELOC, k) ==> img == Image(m, f, phs, phs[k], x, base))
  }

  /** A file with a relocation stream, accepted away from its link address, with no two slots overlapping: every slot of the
      last stream has grown by the bias, and every other byte is as linked. */
  lemma LoadedSlots(m: Machine, f: seq<Byte>, phs: seq<Phdr>, x: Info, base: nat, r: Outcome, img: seq<Byte>, k: nat)
    requires x.linkBase <= x.memEnd && Bias(base, x.linkBase) != 0 && (m.align == 2 || m.align == 4)
    requires forall k :: 0 <= k < |phs| && IsLast(phs, PT_PTOS_RELOC, k) ==> RelocAccepted(m, f, phs[k], x, base)
    requires LoadedAs(m, f, phs, x, base, r, img) && IsLast(phs, PT_PTOS_RELOC, k)
    ensures (r == Loaded || r == ThenImports) && |img| == x.memEnd - x.linkBase && SlotsOf(f, phs[k], x).Slots?
    ensures var slots, linked := SlotsOf(f, phs[k], x).list, Content(f, phs, x);
      && Inside(slots, x.linkBase, |img|)
      && (Spaced(slots) ==> forall i :: 0 <= i < |slots| ==>
           WordAt(m.order, img, slots[i] - x.linkBase) == (WordAt(m.order, linked, slots[i] - x.linkBase) + Bias(base, x.linkBase)) % TWO_32)
      && (forall i :: 0 <= i < |img| && !InSlot(slots, x.linkBase, i) ==> img[i] == linked[i])
  {
    hide WordAt, InSlot, Stream, Content, Relocated, RelocHeader, Fine, Bias, LoadedAs, IsLast;
    LoadedIs(m, f, phs, x, base, r, img, k);
    var slots, linked, bias := SlotsOf(f, phs[k], x).list, Content(f, phs, x), Bias(base, x.linkBase);
    FineInside(m, x, base, slots);
    if Spaced(slots) {
      forall i | 0 <= i < |slots|
        ensures WordAt(m.order, img, slots[i] - x.linkBase) == (WordAt(m.order, linked, slots[i] - x.linkBase) + bias) % TWO_32
      {
        RelocatedSlot(m.order, linked, x.linkBase, slots, bias, i);
      }
    }
    forall i | 0 <= i < |img| && !InSlot(slots, x.linkBase, i)
      ensures img[i] == linked[i]
    {
      RelocatedElsewhere(m.order, linked, x.linkBase, slots, bias, i);
    }
  }

  lemma LoadedIs(m: Machine, f: seq<Byte>, phs: seq<Phdr>, x: Info, base: nat, r: Outcome, img: seq<Byte>, k: nat)
    requires x.linkBase <= x.memEnd && IsLast(phs, PT_PTOS_RELOC, k)
    requires forall k :: 0 <= k < |phs| && IsLast(phs, PT_PTOS_RELOC, k) ==> RelocAccepted(m, f, phs[k], x, base)
    requires LoadedAs(m, f, phs, x, base, r, img)
    ensures k < |phs| && phs[k].kind == PT_PTOS_RELOC && (r == Loaded || r == ThenImports)
    ensures RelocAccepted(m, f, phs[k], x, base) && img == Image(m, f, phs, phs[k], x, base)
  {
    hide RelocAccepted, Image, Content;
    assert HasKind(phs, PT_PTOS_RELOC);
  }

  lemma LoadableExtent(m: Machine, f: seq<Byte>, e: Ehdr, x: Info, base: nat)
    requires TableFits(e) && Readable(f, e) && Accepts(Headers(m.order, f, e), x) && !Loadable(m, f, e, x, base)
    ensures forall y :: !Loadable(m, f, e, y, base)
  {
    forall y | Loadable(m, f, e, y, base)
      ensures y == x
    {
      hide Extent, AllSound, RelocAccepted, AllBacked, IsLast;
      ExtentUnique(Headers(m.order, f, e), x, y);
    }
  }

  /**
   * Load a program with a good ELF header at `base`, in memory granted up to `hitpa`. Nothing outside the image the sizing
   * scan announced is written; a load that succeeds leaves the relocated image there.
   */
  method LoadProgram(m: Machine, f: seq<Byte>, e: Ehdr, mem: array<Byte>, base: nat, hitpa: nat) returns (r: Outcome, x: Info)
    requires base <= hitpa <= mem.Length && m.align > 0
    modifies mem
    ensures x.memEnd >= x.linkBase
    ensures OnlyImage(mem, base, if base + (x.memEnd - x.linkBase) <= hitpa then x.memEnd - x.linkBase else 0)
    ensures r == Malformed ==> forall y :: !Loadable(m, f, e, y, base)
    ensures r != Malformed ==> TableFits(e) && Readable(f, e) && Accepts(Headers(m.order, f, e), x)
    ensures r != Malformed ==> (r == NoRoom <==> hitpa < base + (x.memEnd - x.linkBase))
    ensures r != Malformed && r != NoRoom ==>
      && Loadable(m, f, e, x, base)
      && LoadedAs(m, f, Headers(m.order, f, e), x, base, r, mem[base..base + (x.memEnd - x.linkBase)])
  {
    hide Extent, AllSound, RelocAccepted, Patched, Content, AllBacked, HasKind, IsLast;
    var ok;
    ok, x := ElfScan(m, f, e);
    if !ok {
      return Malformed, Info(0, 0, 0);
    }
    var phs := Headers(m.order, f, e);
    ExtentOrder(phs, x);
    if e.entry < x.linkBase || e.entry >= x.memEnd {
      LoadableExtent(m, f, e, x, base);
      return Malformed, x;
    }
    var n := x.memEnd - x.linkBase;
    if n > hitpa - base {
      return NoRoom, x;
    }
    var k, imports;
    ok, k, imports := LoadSegments(f, phs, mem, base, x);
    if !ok {
      LoadableExtent(m, f, e, x, base);
      return Malformed, x;
    }
    if k == |phs| {
      NoStream(phs);
      return BySections, x;
    }
    OnlyLast(phs, k);
    ok := ElfRelocatePtos(m, f, phs[k], mem, base, x);
    if !ok {
      LoadableExtent(m, f, e, x, base);
      return Malformed, x;
    }
    r := if imports < |phs| then ThenImports else Loaded;
  }

  lemma NoStream(phs: seq<Phdr>)
    requires !HasKind(phs, PT_PTOS_RELOC)
    ensures forall k :: 0 <= k < |phs| ==> !IsLast(phs, PT_PTOS_RELOC, k)
  {
  }

  lemma OnlyLast(phs: seq<Phdr>, k: nat)
    requires IsLast(phs, PT_PTOS_RELOC, k)
    ensures forall l :: 0 <= l < |phs| ==> (IsLast(phs, PT_PTOS_RELOC, l) <==> l == k)
  {
  }

  // ---- The ELF header

  function EhdrAt(order: Order, f: seq<Byte>): (e: Ehdr)
    requires InFile(f, 0, EHDR_SIZE)
  {
    Ehdr(f[..16], HalfAt(order, f, 16), HalfAt(order, f, 18), WordAt(order, f, 24), WordAt(order, f, 28), HalfAt(order, f, 42), HalfAt(order, f, 44))
  }

  /** A 32-bit executable in native byte order for this machine, with program headers of at least their size. */
  predicate HeaderOk(m: Machine, e: Ehdr) {
    && |e.ident| == 16 && e.ident[..4] == ELF_MAGIC && e.ident[4] == ELFCLASS32
    && e.ident[5] == (if m.order.Big? then 2 else 1)
    && (e.kind == ET_EXEC || e.kind == ET_DYN) && e.machine == m.number
    && e.phnum != 0 && e.phentsize >= PHDR_SIZE
  }

  predicate GoodFile(m: Machine, f: seq<Byte>) {
    InFile(f, 0, EHDR_SIZE) && HeaderOk(m, EhdrAt(m.order, f))
  }

  /** The file is one for this machine and can be loaded at `base`, with extent x. */
  ghost predicate FileLoadable(m: Machine, f: seq<Byte>, x: Info, base: nat) {
    GoodFile(m, f) && Loadable(m, f, EhdrAt(m.order, f), x, base)
  }

  /** The file is one for this machine, and x is the extent of its segments. */
  ghost predicate FileExtent(m: Machine, f: seq<Byte>, x: Info) {
    && GoodFile(m, f)
    && var e := EhdrAt(m.order, f); TableFits(e) && Readable(f, e) && Accepts(Headers(m.order, f, e), x)
  }

  /** The segment fields of the base page. */
  datatype Page = Page(tbase: nat, tlen: nat, dbase: nat, dlen: nat, bbase: nat, blen: nat)

  function PageOf(e: Ehdr, x: Info, base: nat): (p: Page)
    requires x.linkBase <= e.entry < x.memEnd && x.linkBase <= x.fileEnd <= x.memEnd
    ensures base <= p.tbase < p.bbase + p.blen && p.bbase + p.blen == base + (x.memEnd - x.linkBase)
    ensures p.tlen + p.dlen + p.blen == x.memEnd - x.linkBase && p.dbase == p.bbase == base + p.tlen
  {
    var text := x.fileEnd - x.linkBase;
    Page(base + (e.entry - x.linkBase), text, base + text, 0, base + text, x.memEnd - x.fileEnd)
  }

  predicate Measures(x: Info, tlen: nat, blen: nat) {
    x.linkBase <= x.fileEnd <= x.memEnd && tlen == x.fileEnd - x.linkBase && tlen + blen == x.memEnd - x.linkBase
  }

  /** The sizing pass: text and bss lengths that add up to the image, for exactly the files with an extent. */
  method ElfPgmhdrld(m: Machine, f: seq<Byte>) returns (ok: bool, tlen: nat, blen: nat)
    ensures ok ==> exists x :: FileExtent(m, f, x) && Measures(x, tlen, blen)
    ensures !ok ==> forall x :: !FileExtent(m, f, x)
  {
    hide Accepts, WordAt, HalfAt;
    ok, tlen, blen := false, 0, 0;
    if !InFile(f, 0, EHDR_SIZE) {
      return;
    }
    var e := EhdrAt(m.order, f);
    if !HeaderOk(m, e) {
      return;
    }
    var x;
    ok, x := ElfScan(m, f, e);
    if ok {
      AcceptsOrder(Headers(m.order, f, e), x);
      tlen, blen := x.fileEnd - x.linkBase, x.memEnd - x.fileEnd;
      assert FileExtent(m, f, x) && Measures(x, tlen, blen);
    }
  }

  lemma AcceptsOrder(phs: seq<Phdr>, x: Info)
    requires Accepts(phs, x)
    ensures x.linkBase <= x.fileEnd <= x.memEnd < TWO_32
  {
    ExtentOrder(phs, x);
  }

  /**
   * The load pass. A file is refused as malformed exactly when it cannot be loaded; one that is loaded
   * leaves its image and its base page fields, and nothing outside the image the sizing pass announced
   * is written.
   */
  method ElfPgmld(m: Machine, f: seq<Byte>, mem: array<Byte>, base: nat, hitpa: nat) returns (r: Outcome, x: Info, page: Page)
    requires base <= hitpa <= mem.Length && m.align > 0
    modifies mem
    ensures x.memEnd >= x.linkBase
    ensures OnlyImage(mem, base, if base + (x.memEnd - x.linkBase) <= hitpa then x.memEnd - x.linkBase else 0)
    ensures r == Malformed ==> forall y :: !FileLoadable(m, f, y, base)
    ensures r != Malformed ==> FileExtent(m, f, x) && (r == NoRoom <==> hitpa < base + (x.memEnd - x.linkBase))
    ensures r != Malformed && r != NoRoom ==>
      var e := EhdrAt(m.order, f);
      && FileLoadable(m, f, x, base) && x.linkBase <= x.fileEnd <= x.memEnd && page == PageOf(e, x, base)
      && LoadedAs(m, f, Headers(m.order, f, e), x, base, r, mem[base..base + (x.memEnd - x.linkBase)])
  {
    hide Accepts, WordAt, HalfAt, RelocAccepted, Patched, Content, AllBacked, Headers, PageOf, LoadedAs, IsLast;
    r, x, page := Malformed, Info(0, 0, 0), Page(0, 0, 0, 0, 0, 0);
    if !InFile(f, 0, EHDR_SIZE) {
      return;
    }
    var e := EhdrAt(m.order, f);
    if !HeaderOk(m, e) {
      return;
    }
    r, x := LoadProgram(m, f, e, mem, base, hitpa);
    if r != Malformed && r != NoRoom {
      AcceptsOrder(Headers(m.order, f, e), x);
      page := PageOf(e, x, base);
    }
  }

  // ---- The layout of the headers

  function WordBytes(order: Order, v: nat): (s: seq<Byte>)
    requires v < TWO_32
    ensures |s| == 4
  {
    [WordByte(order, v, 0), WordByte(order, v, 1), WordByte(order, v, 2), WordByte(order, v, 3)]
  }

  function HalfBytes(order: Order, v: nat): (s: seq<Byte>)
    requires v < 0x1_0000
    ensures |s| == 2
  {
    if order.Big? then [v / 256, v % 256] else [v % 256, v / 256]
  }

  /** Which byte comes first. */
  lemma ByteOrders()
    ensures WordBytes(Big, 0x0102_0304) == [1, 2, 3, 4] && WordBytes(Little, 0x0102_0304) == [4, 3, 2, 1]
    ensures HalfBytes(Big, 0x0102) == [1, 2] && HalfBytes(Little, 0x0102) == [2, 1]
  {
  }

  /** A word is read where it was written: `at` in file `f`. */
  lemma WordOf(order: Order, f: seq<Byte>, at: nat, v: nat)
    requires v < TWO_32 && at + 4 <= |f| && f[at..at + 4] == WordBytes(order, v)
    ensures WordAt(order, f, at) == v
  {
    assert f[at] == f[at..at + 4][0] && f[at + 1] == f[at..at + 4][1] && f[at + 2] == f[at..at + 4][2] && f[at + 3] == f[at..at + 4][3];
    JoinSplit(v);
  }

  lemma HalfOf(order: Order, f: seq<Byte>, at: nat, v: nat)
    requires v < 0x1_0000 && at + 2 <= |f| && f[at..at + 2] == HalfBytes(order, v)
    ensures HalfAt(order, f, at) == v
  {
    assert f[at] == f[at..at + 2][0] && f[at + 1] == f[at..at + 2][1];
  }

  /** A program header as in the file: type, offset, virtual and physical address, size in the file and in memory, flags,
      alignment (gABI chapter 5, Program Header). */
  function PhdrBytes(order: Order, p: Phdr, paddr: nat, flags: nat, align: nat): (s: seq<Byte>)
    requires p.kind < TWO_32 && p.offset < TWO_32 && p.vaddr < TWO_32 && p.filesz < TWO_32 && p.memsz < TWO_32
    requires paddr < TWO_32 && flags < TWO_32 && align < TWO_32
    ensures |s| == PHDR_SIZE
  {
    WordBytes(order, p.kind) + WordBytes(order, p.offset) + WordBytes(order, p.vaddr) + WordBytes(order, paddr)
    + WordBytes(order, p.filesz) + WordBytes(order, p.memsz) + WordBytes(order, flags) + WordBytes(order, align)
  }

  lemma SliceOf(f: seq<Byte>, at: nat, n: nat, i: nat, j: nat)
    requires at + n <= |f| && i <= j <= n
    ensures f[at..at + n][i..j] == f[at + i..at + j]
  {
    var g, a, b := f[at..at + n], f[at..at + n][i..j], f[at + i..at + j];
    forall k | 0 <= k < j - i
      ensures a[k] == b[k]
    {
      assert a[k] == g[i + k] == f[at + (i + k)];
    }
    assert a == b;
  }

  lemma PhdrLayout(order: Order, f: seq<Byte>, at: nat, p: Phdr, paddr: nat, flags: nat, align: nat)
    requires p.kind < TWO_32 && p.offset < TWO_32 && p.vaddr < TWO_32 && p.filesz < TWO_32 && p.memsz < TWO_32
    requires paddr < TWO_32 && flags < TWO_32 && align < TWO_32
    requires InFile(f, at, PHDR_SIZE) && f[at..at + PHDR_SIZE] == PhdrBytes(order, p, paddr, flags, align)
    ensures PhdrAt(order, f, at) == p
  {
    hide WordAt, WordBytes;
    var h := f[at..at + PHDR_SIZE];
    SliceOf(f, at, PHDR_SIZE, 0, 4);
    SliceOf(f, at, PHDR_SIZE, 4, 8);
    SliceOf(f, at, PHDR_SIZE, 8, 12);
    SliceOf(f, at, PHDR_SIZE, 16, 20);
    SliceOf(f, at, PHDR_SIZE, 20, 24);
    assert h[0..4] == WordBytes(order, p.kind) && h[4..8] == WordBytes(order, p.offset) && h[8..12] == WordBytes(order, p.vaddr);
    assert h[16..20] == WordBytes(order, p.filesz) && h[20..24] == WordBytes(order, p.memsz);
    WordOf(order, f, at, p.kind);
    WordOf(order, f, at + 4, p.offset);
    WordOf(order, f, at + 8, p.vaddr);
    WordOf(order, f, at + 16, p.filesz);
    WordOf(order, f, at + 20, p.memsz);
  }

  /** What else the ELF header holds. */
  datatype Rest = Rest(version: nat, shoff: nat, flags: nat, ehsize: nat, shentsize: nat, shnum: nat, shstrndx: nat)

  predicate FieldsFit(e: Ehdr, o: Rest) {
    && |e.ident| == 16 && e.kind < 0x1_0000 && e.machine < 0x1_0000 && o.version < TWO_32 && e.entry < TWO_32 && e.phoff < TWO_32
    && o.shoff < TWO_32 && o.flags < TWO_32 && o.ehsize < 0x1_0000 && e.phentsize < 0x1_0000 && e.phnum < 0x1_0000
    && o.shentsize < 0x1_0000 && o.shnum < 0x1_0000 && o.shstrndx < 0x1_0000
  }

  /** The ELF header as in the file: identification, type, machine, version, entry point, offsets of the program and section
      headers, flags, header size, size and number of program headers, then of section headers, and the index of the
      section names (gABI chapter 4, ELF Header). */
  function EhdrBytes(order: Order, e: Ehdr, o: Rest): (s: seq<Byte>)
    requires FieldsFit(e, o)
    ensures |s| == EHDR_SIZE
  {
    e.ident + HalfBytes(order, e.kind) + HalfBytes(order, e.machine) + WordBytes(order, o.version)
    + WordBytes(order, e.entry) + WordBytes(order, e.phoff) + WordBytes(order, o.shoff) + WordBytes(order, o.flags)
    + HalfBytes(order, o.ehsize) + HalfBytes(order, e.phentsize) + HalfBytes(order, e.phnum)
    + HalfBytes(order, o.shentsize) + HalfBytes(order, o.shnum) + HalfBytes(order, o.shstrndx)
  }

  lemma EhdrLayout(order: Order, f: seq<Byte>, e: Ehdr, o: Rest)
    requires FieldsFit(e, o) && InFile(f, 0, EHDR_SIZE) && f[..EHDR_SIZE] == EhdrBytes(order, e, o)
    ensures EhdrAt(order, f) == e
  {
    hide WordAt, WordBytes, HalfAt, HalfBytes;
    var h := f[..EHDR_SIZE];
    assert f[..16] == h[..16] == e.ident;
    assert f[16..18] == h[16..18] == HalfBytes(order, e.kind);
    assert f[18..20] == h[18..20] == HalfBytes(order, e.machine);
    assert f[24..28] == h[24..28] == WordBytes(order, e.entry);
    assert f[28..32] == h[28..32] == WordBytes(order, e.phoff);
    assert f[42..44] == h[42..44] == HalfBytes(order, e.phentsize);
    assert f[44..46] == h[44..46] == HalfBytes(order, e.phnum);
    HalfOf(order, f, 16, e.kind);
    HalfOf(order, f, 18, e.machine);
    WordOf(order, f, 24, e.entry);
    WordOf(order, f, 28, e.phoff);
    HalfOf(order, f, 42, e.phentsize);
    HalfOf(order, f, 44, e.phnum);
  }

  /** The header of the compact stream: "PTL1" as a number, version 1, and two bytes nobody looks at; the stream begins
      after these eight. */
  lemma RelocLayout(order: Order, f: seq<Byte>, p: Phdr, version: nat, unused: seq<Byte>)
    requires version < 0x1_0000 && |unused| == 2 && InFile(f, p.offset, 8)
    requires f[p.offset..p.offset + 8] == WordBytes(order, 0x5054_4c31) + HalfBytes(order, version) + unused
    ensures RelocHeader(order, f, p) <==> version == 1 && 8 <= p.filesz < TWO_32 - p.offset
    ensures forall x :: SlotsOf(f, p, x) == Stream(f, p.offset + 8, p.offset + p.filesz, x.linkBase, true)
  {
    hide WordAt, WordBytes, HalfAt, HalfBytes, Stream;
    var h := f[p.offset..p.offset + 8];
    SliceOf(f, p.offset, 8, 0, 4);
    SliceOf(f, p.offset, 8, 4, 6);
    assert h[0..4] == WordBytes(order, 0x5054_4c31) && h[4..6] == HalfBytes(order, version);
    WordOf(order, f, p.offset, 0x5054_4c31);
    HalfOf(order, f, p.offset + 4, version);
  }

  /** The files the loader takes for this machine: magic number, 32-bit class, byte order, type, machine. */
  lemma HeaderLayout(m: Machine, f: seq<Byte>, e: Ehdr, o: Rest)
    requires FieldsFit(e, o) && InFile(f, 0, EHDR_SIZE) && f[..EHDR_SIZE] == EhdrBytes(m.order, e, o)
    ensures GoodFile(m, f) <==>
              && f[0] == 0x7f && f[1] == 'E' as int && f[2] == 'L' as int && f[3] == 'F' as int && f[4] == 1
              && f[5] == (match m.order case Little => 1 case Big => 2)
              && 2 <= e.kind <= 3 && e.machine == m.number && e.phnum > 0 && e.phentsize >= 32
  {
    hide WordBytes, HalfBytes;
    EhdrLayout(m.order, f, e, o);
    assert f[..16] == f[..EHDR_SIZE][..16] == e.ident;
  }
}
