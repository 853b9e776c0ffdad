/** The user memory pools: first fit, freeing with coalescing, shrinking and the owner sweeps. */
module MemUser {

  /** A stretch of memory: the `m_start` and `m_length` of a memory descriptor. */
  datatype Block = Block(start: int, length: int)
  {
    function End(): (r: int) { start + length }
  }

  /** A descriptor on the allocated list, with its owner. */
  datatype Held = Held(block: Block, own: int)

  /**
   * A memory pool over the addresses lo..hi. `free` and `alloc` are the two descriptor lists;
   * `reserved` holds the blocks whose descriptors `reserve_blocks` threw away. `align` is the
   * allocation unit: the mask of the program plus one.
   */
  datatype Pool = Pool(lo: int, hi: int, align: int, free: seq<Block>, alloc: seq<Held>, reserved: seq<Block>)

  /** What `ffit` gives back: nothing, a size or a block. */
  datatype Answer = Null | Size(size: int) | Got(block: Block)

  datatype Code = Done | BadAddress | GrowthRefused | NoDescriptor

  // ---- 32-bit arithmetic

  function U32(x: int): (r: int) { x % 0x1_0000_0000 }

  function S32(x: int): (r: int) {
    var u := U32(x);
    if u < 0x8000_0000 then u else u - 0x1_0000_0000
  }

  /** (a + mask) & ~mask, as a 32-bit signed result. */
  function Rounded(a: int, align: int): (r: int)
    requires align > 0
  {
    S32(U32(a + align - 1) / align * align)
  }

  // ---- Tiling

  predicate In(x: int, b: Block) { b.start <= x < b.End() }

  /** How many blocks of `s` hold the address x. */
  function Count(s: seq<Block>, x: int): (r: nat)
    decreases s
  {
    if s == [] then 0 else (if In(x, s[0]) then 1 else 0) + Count(s[1..], x)
  }

  function Blocks(a: seq<Held>): (s: seq<Block>)
    ensures |s| == |a|
  {
    seq(|a|, i requires 0 <= i < |a| => a[i].block)
  }

  /** How many blocks of the pool hold the address x. */
  function Holders(p: Pool, x: int): (r: nat) {
    Count(p.free, x) + Count(Blocks(p.alloc), x) + Count(p.reserved, x)
  }

  /** Every address of the pool is in exactly one block, and no block reaches outside. */
  ghost predicate Tiles(p: Pool) {
    forall x: int :: Holders(p, x) == if p.lo <= x < p.hi then 1 else 0
  }

  predicate Fits(b: Block, align: int)
    requires align > 0
  {
    b.length > 0 && b.start % align == 0 && b.length % align == 0
  }

  /** The free list ascends and no two of its blocks touch. */
  predicate Separated(f: seq<Block>) {
    && (forall i :: 0 <= i < |f| ==> f[i].length > 0)
    && (forall i, j :: 0 <= i < j < |f| ==> f[i].End() < f[j].start)
  }

  predicate AllFit(s: seq<Block>, align: int)
    requires align > 0
  {
    forall i :: 0 <= i < |s| ==> Fits(s[i], align)
  }

  predicate Shape(p: Pool) {
    && (p.align == 2 || p.align == 4)
    && 0 <= p.lo <= p.hi < 0x1_0000_0000 && p.hi - p.lo <= 0x7fff_fffc
  }

  /** What every operation keeps. */
  ghost predicate Ok(p: Pool) {
    && Shape(p) && Separated(p.free) && Tiles(p)
    && AllFit(p.free, p.align) && AllFit(Blocks(p.alloc), p.align)
  }

  // ---- Operations on values

  /** The first block of at least `amount` bytes, or the length of the list. */
  function FindFit(f: seq<Block>, amount: int): (k: nat)
    ensures k <= |f|
    ensures forall i :: 0 <= i < k ==> f[i].length < amount
    ensures k < |f| ==> f[k].length >= amount
    decreases f
  {
    if f == [] || f[0].length >= amount then 0
    else
      var k := FindFit(f[1..], amount);
      assert forall i :: 1 <= i < |f| ==> f[i] == f[1..][i - 1];
      k + 1
  }

  /** First fit for an amount already rounded; `md` says whether a descriptor can be had. */
  function Fit(p: Pool, amount: int, own: int, md: bool): (r: (Pool, Answer)) {
    var k := FindFit(p.free, amount);
    if k == |p.free| then (p, Null)
    else
      var b := p.free[k];
      if b.length == amount then
        (p.(free := p.free[..k] + p.free[k + 1..], alloc := [Held(b, own)] + p.alloc), Got(b))
      else if !md then (p, Null)
      else
        var rest := Block(U32(b.start + amount), S32(b.length - amount));
        var got := Block(b.start, amount);
        (p.(free := p.free[..k] + [rest] + p.free[k + 1..], alloc := [Held(got, own)] + p.alloc), Got(got))
  }

  function Malloc(p: Pool, amount: int, own: int, md: bool): (r: (Pool, Answer))
    requires p.align > 0
  {
    Fit(p, Rounded(amount, p.align), own, md)
  }

  /** The first free block that starts at or after `start`. */
  function FindPlace(f: seq<Block>, start: int): (k: nat)
    ensures k <= |f|
    ensures forall i :: 0 <= i < k ==> f[i].start < start
    ensures k < |f| ==> start <= f[k].start
    decreases f
  {
    if f == [] || start <= f[0].start then 0
    else
      var k := FindPlace(f[1..], start);
      assert forall i :: 1 <= i < |f| ==> f[i] == f[1..][i - 1];
      k + 1
  }

  predicate JoinsHigh(f: seq<Block>, k: nat, b: Block)
  {
    k < |f| && b.End() == f[k].start
  }

  predicate JoinsLow(f: seq<Block>, k: nat, b: Block)
    requires k <= |f|
  {
    k > 0 && f[k - 1].End() == b.start
  }

  /** f with the blocks i..j replaced by m. */
  function Put(f: seq<Block>, i: nat, j: nat, m: Block): (r: seq<Block>)
    requires i <= j <= |f|
  {
    f[..i] + [m] + f[j..]
  }

  /** Put `b` in before position k, joining it to the neighbours it touches. */
  function InsertAt(f: seq<Block>, k: nat, b: Block): (r: seq<Block>)
    requires k <= |f|
  {
    var mid := if JoinsHigh(f, k, b) then Block(b.start, b.length + f[k].length) else b;
    var j := if JoinsHigh(f, k, b) then k + 1 else k;
    if JoinsLow(f, k, b) then Put(f, k - 1, j, Block(f[k - 1].start, f[k - 1].length + mid.length))
    else Put(f, k, j, mid)
  }

  function Insert(f: seq<Block>, b: Block): (r: seq<Block>) {
    InsertAt(f, FindPlace(f, b.start), b)
  }

  /** The allocated block that starts at `start`, or the length of the list. */
  function FindHeld(a: seq<Held>, start: int): (k: nat)
    ensures k <= |a|
    ensures forall i :: 0 <= i < k ==> a[i].block.start != start
    ensures k < |a| ==> a[k].block.start == start
    decreases a
  {
    if a == [] || a[0].block.start == start then 0
    else
      var k := FindHeld(a[1..], start);
      assert forall i :: 1 <= i < |a| ==> a[i] == a[1..][i - 1];
      k + 1
  }

  function Without(a: seq<Held>, i: nat): (r: seq<Held>)
    requires i < |a|
  {
    a[..i] + a[i + 1..]
  }

  /** Free the block that starts at `start`; nothing happens when there is none. */
  function Release(p: Pool, start: int): (r: Pool) {
    var i := FindHeld(p.alloc, start);
    if i == |p.alloc| then p
    else p.(alloc := Without(p.alloc, i), free := Insert(p.free, p.alloc[i].block))
  }

  /** Shrink allocated block i to the rounded length n. */
  function Shrunk(p: Pool, i: nat, n: int): (r: Pool)
    requires i < |p.alloc|
  {
    var m := p.alloc[i].block;
    var f := Block(U32(m.start + n), S32(m.length - n));
    p.(alloc := p.alloc[i := p.alloc[i].(block := Block(m.start, n))], free := Insert(p.free, f))
  }

  function Mshrink(p: Pool, addr: int, len: int, md: bool): (r: (Pool, Code))
    requires p.align > 0
  {
    var i := FindHeld(p.alloc, addr);
    if !(p.lo <= addr < p.hi) || i == |p.alloc| then (p, BadAddress)
    else
      var r, length := Rounded(len, p.align), p.alloc[i].block.length;
      if length < r then (p, GrowthRefused)
      else if length == r then (p, Done)
      else if r == 0 then (Release(p, addr), Done)
      else if !md then (p, NoDescriptor)
      else (Shrunk(p, i, Rounded(r, 4)), Done)
  }

  /** What the sweeps keep on the allocated list. */
  function NotOwned(a: seq<Held>, own: int): (r: seq<Held>)
    ensures forall h :: h in r <==> h in a && h.own != own
    decreases a
  {
    if a == [] then []
    else (if a[0].own == own then [] else [a[0]]) + NotOwned(a[1..], own)
  }

  function OwnedBlocks(a: seq<Held>, own: int): (r: seq<Block>)
    decreases a
  {
    if a == [] then []
    else (if a[0].own == own then [a[0].block] else []) + OwnedBlocks(a[1..], own)
  }

  /** Give up the descriptors of a resident process; its memory stays taken for good. */
  function Reserve(p: Pool, own: int): (r: Pool) {
    p.(alloc := NotOwned(p.alloc, own), reserved := p.reserved + OwnedBlocks(p.alloc, own))
  }

  // ---- Counting

  lemma {:induction false} CountConcat(a: seq<Block>, b: seq<Block>, x: int)
    ensures Count(a + b, x) == Count(a, x) + Count(b, x)
    decreases a
  {
    if a == [] {
      assert a + b == b;
    } else {
      assert (a + b)[1..] == a[1..] + b;
      CountConcat(a[1..], b, x);
    }
  }

  function One(x: int, b: Block): (r: nat) { if In(x, b) then 1 else 0 }

  lemma CountOne(b: Block, x: int)
    ensures Count([b], x) == One(x, b)
  {
    assert [b][1..] == [];
  }

  lemma CountPick(s: seq<Block>, k: nat, x: int)
    requires k < |s|
    ensures Count(s, x) == Count(s[..k], x) + One(x, s[k]) + Count(s[k + 1..], x)
  {
    assert s == s[..k] + ([s[k]] + s[k + 1..]);
    CountConcat(s[..k], [s[k]] + s[k + 1..], x);
    CountConcat([s[k]], s[k + 1..], x);
    CountOne(s[k], x);
  }

  lemma CountPut(a: seq<Block>, b: Block, c: seq<Block>, x: int)
    ensures Count(a + [b] + c, x) == Count(a, x) + One(x, b) + Count(c, x)
  {
    CountConcat(a + [b], c, x);
    CountConcat(a, [b], x);
    CountOne(b, x);
  }

  lemma CountCut(s: seq<Block>, k: nat, x: int)
    requires k <= |s|
    ensures Count(s, x) == Count(s[..k], x) + Count(s[k..], x)
  {
    assert s == s[..k] + s[k..];
    CountConcat(s[..k], s[k..], x);
  }

  /** Two blocks of one list that share an address are counted twice. */
  lemma {:induction false} CountTwice(s: seq<Block>, i: nat, j: nat, x: int)
    requires i < j < |s| && In(x, s[i]) && In(x, s[j])
    ensures Count(s, x) >= 2
  {
    CountPick(s, j, x);
    CountPick(s[..j], i, x);
  }

  lemma CountSome(s: seq<Block>, i: nat, x: int)
    requires i < |s| && In(x, s[i])
    ensures Count(s, x) >= 1
  {
    CountPick(s, i, x);
  }

  lemma {:induction false} CountNone(s: seq<Block>, x: int)
    requires forall i :: 0 <= i < |s| ==> !In(x, s[i])
    ensures Count(s, x) == 0
    decreases s
  {
    if s != [] {
      CountNone(s[1..], x);
    }
  }

  lemma {:induction false} CountFinds(s: seq<Block>, x: int) returns (i: nat)
    requires Count(s, x) >= 1
    ensures i < |s| && In(x, s[i])
    decreases s
  {
    if In(x, s[0]) {
      i := 0;
    } else {
      i := CountFinds(s[1..], x);
      i := i + 1;
    }
  }

  // ---- The free list is the one separated list of the free addresses

  /** Two separated lists over the same addresses are the same list. */
  lemma {:induction false} Canonical(a: seq<Block>, b: seq<Block>)
    requires Separated(a) && Separated(b)
    requires forall x: int :: Count(a, x) == Count(b, x)
    ensures a == b
    decreases a
  {
    if a == [] || b == [] {
      if b != [] {
        NonEmpty(a, b);
      }
      if a != [] {
        NonEmpty(b, a);
      }
    } else {
      StartsFirst(a, b);
      StartsFirst(b, a);
      EndsFirst(a, b);
      EndsFirst(b, a);
      forall x: int
        ensures Count(a[1..], x) == Count(b[1..], x)
      {
        assert Count(a, x) == Count(b, x);
      }
      Canonical(a[1..], b[1..]);
    }
  }

  lemma NonEmpty(a: seq<Block>, b: seq<Block>)
    requires Separated(b) && b != []
    requires forall x: int :: Count(a, x) == Count(b, x)
    ensures a != []
  {
    var x := b[0].start;
    CountSome(b, 0, x);
    var i := CountFinds(a, x);
  }

  lemma StartsFirst(a: seq<Block>, b: seq<Block>)
    requires Separated(a) && Separated(b) && a != [] && b != []
    requires forall x: int :: Count(a, x) == Count(b, x)
    ensures b[0].start <= a[0].start
  {
    CountSome(a, 0, a[0].start);
    assert Count(a, a[0].start) == Count(b, a[0].start);
    var i := CountFinds(b, a[0].start);
  }

  lemma EndsFirst(a: seq<Block>, b: seq<Block>)
    requires Separated(a) && Separated(b) && a != [] && b != [] && a[0].start == b[0].start
    requires forall x: int :: Count(a, x) == Count(b, x)
    ensures b[0].End() <= a[0].End()
  {
    if a[0].End() < b[0].End() {
      var x := a[0].End();
      CountSome(b, 0, x);
      assert Count(a, x) == Count(b, x);
      var i := CountFinds(a, x);
    }
  }

  /** Pools that agree on what is taken have the same free list. */
  lemma FreeDetermined(p: Pool, q: Pool)
    requires Ok(p) && Ok(q) && p.lo == q.lo && p.hi == q.hi
    requires forall x: int :: Count(Blocks(p.alloc), x) + Count(p.reserved, x) == Count(Blocks(q.alloc), x) + Count(q.reserved, x)
    ensures p.free == q.free
  {
    forall x: int
      ensures Count(p.free, x) == Count(q.free, x)
    {
      assert Holders(p, x) == Holders(q, x);
    }
    Canonical(p.free, q.free);
  }

  /** When nothing is taken, the free list is the whole region in one block. */
  lemma AllFree(p: Pool)
    requires Ok(p) && p.alloc == [] && p.reserved == []
    ensures p.free == if p.lo < p.hi then [Block(p.lo, p.hi - p.lo)] else []
  {
    var whole := if p.lo < p.hi then [Block(p.lo, p.hi - p.lo)] else [];
    assert Blocks(p.alloc) == [];
    forall x: int
      ensures Count(p.free, x) == Count(whole, x)
    {
      assert Holders(p, x) == Count(p.free, x);
      if p.lo < p.hi {
        CountOne(whole[0], x);
      }
    }
    Canonical(p.free, whole);
  }

  // ---- Taking a block

  lemma BlocksPush(h: Held, a: seq<Held>)
    ensures Blocks([h] + a) == [h.block] + Blocks(a)
  {
  }

  lemma BlocksPick(a: seq<Held>, i: nat)
    requires i < |a|
    ensures Blocks(Without(a, i)) == Blocks(a)[..i] + Blocks(a)[i + 1..]
  {
  }

  lemma HoldersPush(p: Pool, h: Held, x: int)
    ensures Count(Blocks([h] + p.alloc), x) == One(x, h.block) + Count(Blocks(p.alloc), x)
  {
    BlocksPush(h, p.alloc);
    CountConcat([h.block], Blocks(p.alloc), x);
    CountOne(h.block, x);
  }

  /** A free block lies inside the pool. */
  lemma FreeInside(p: Pool, k: nat)
    requires Ok(p) && k < |p.free|
    ensures p.lo <= p.free[k].start && p.free[k].End() <= p.hi
  {
    var b := p.free[k];
    CountSome(p.free, k, b.start);
    CountSome(p.free, k, b.End() - 1);
    assert Holders(p, b.start) >= 1 && Holders(p, b.End() - 1) >= 1;
  }

  lemma HeldInside(p: Pool, i: nat)
    requires Ok(p) && i < |p.alloc|
    ensures p.lo <= p.alloc[i].block.start && p.alloc[i].block.End() <= p.hi
  {
    var b := p.alloc[i].block;
    assert Blocks(p.alloc)[i] == b && Fits(b, p.align);
    CountSome(Blocks(p.alloc), i, b.start);
    CountSome(Blocks(p.alloc), i, b.End() - 1);
    assert Holders(p, b.start) >= 1 && Holders(p, b.End() - 1) >= 1;
  }

  /** Taking `got` from free block k, leaving `f`, keeps the pool. */
  lemma TakeKeeps(p: Pool, f: seq<Block>, got: Block, own: int)
    requires Ok(p) && Separated(f) && AllFit(f, p.align) && Fits(got, p.align)
    requires forall x: int :: Count(f, x) + One(x, got) == Count(p.free, x)
    ensures Ok(p.(free := f, alloc := [Held(got, own)] + p.alloc))
  {
    hide Separated, Fits;
    var q := p.(free := f, alloc := [Held(got, own)] + p.alloc);
    forall x: int
      ensures Holders(q, x) == Holders(p, x)
    {
      HoldersPush(p, Held(got, own), x);
      assert Count(f, x) + One(x, got) == Count(p.free, x);
    }
    BlocksPush(Held(got, own), p.alloc);
  }

  /** A block cut out whole, or cut down from the front. */
  lemma WholeTaken(f: seq<Block>, k: nat, align: int)
    requires k < |f| && Separated(f) && align > 0 && AllFit(f, align)
    ensures var g := f[..k] + f[k + 1..];
      && Separated(g) && AllFit(g, align)
      && forall x: int :: Count(g, x) + One(x, f[k]) == Count(f, x)
  {
    hide Fits, Count;
    var g := f[..k] + f[k + 1..];
    forall x: int
      ensures Count(g, x) + One(x, f[k]) == Count(f, x)
    {
      CountPick(f, k, x);
      CountConcat(f[..k], f[k + 1..], x);
    }
  }

  lemma FrontTaken(f: seq<Block>, k: nat, amount: int, align: int)
    requires k < |f| && Separated(f) && (align == 2 || align == 4) && AllFit(f, align)
    requires 0 < amount < f[k].length && amount % align == 0
    ensures var g := f[..k] + [Block(f[k].start + amount, f[k].length - amount)] + f[k + 1..];
      && Separated(g) && AllFit(g, align)
      && forall x: int :: Count(g, x) + One(x, Block(f[k].start, amount)) == Count(f, x)
  {
    hide Count, Fits;
    var rest := Block(f[k].start + amount, f[k].length - amount);
    var g := f[..k] + [rest] + f[k + 1..];
    assert g == Put(f, k, k + 1, rest);
    assert k > 0 ==> f[k - 1].End() < f[k].start;
    assert k + 1 < |f| ==> f[k].End() < f[k + 1].start;
    PutSeparated(f, k, k + 1, rest);
    RestFits(f[k], amount, align);
    PutFits(f, k, k + 1, rest, align);
    forall x: int
      ensures Count(g, x) + One(x, Block(f[k].start, amount)) == Count(f, x)
    {
      CountPick(f, k, x);
      CountPut(f[..k], rest, f[k + 1..], x);
    }
  }

  /** First fit on a rounded amount keeps the pool and hands out the head of the first block that is big enough. */
  lemma FitKeeps(p: Pool, amount: int, own: int, md: bool)
    requires Ok(p) && amount > 0 && amount % p.align == 0
    ensures var (q, r) := Fit(p, amount, own, md);
      var k := FindFit(p.free, amount);
      && Ok(q) && q.reserved == p.reserved && q.lo == p.lo && q.hi == p.hi && q.align == p.align
      && (r == Null <==> k == |p.free| || (p.free[k].length != amount && !md))
      && (r == Null ==> q == p)
      && (r != Null ==> r == Got(Block(p.free[k].start, amount)) && q.alloc == [Held(r.block, own)] + p.alloc)
      && (r != Null ==> forall x: int :: Count(q.free, x) + One(x, r.block) == Count(p.free, x))
  {
    hide Separated, Count, Tiles, One;
    var (q, r) := Fit(p, amount, own, md);
    var k := FindFit(p.free, amount);
    if r != Null {
      var b := p.free[k];
      assert Fits(b, p.align);
      FreeInside(p, k);
      if b.length == amount {
        WholeTaken(p.free, k, p.align);
        TakeKeeps(p, q.free, b, own);
      } else {
        FrontTaken(p.free, k, amount, p.align);
        TakeKeeps(p, q.free, r.block, own);
      }
    }
  }

  // ---- Giving a block back

  predicate Apart(f: seq<Block>, b: Block) {
    forall i :: 0 <= i < |f| ==> f[i].End() <= b.start || b.End() <= f[i].start
  }

  lemma CountApart(f: seq<Block>, b: Block)
    requires b.length > 0 && Separated(f)
    requires forall x: int :: In(x, b) ==> Count(f, x) == 0
    ensures Apart(f, b)
  {
    forall i | 0 <= i < |f|
      ensures f[i].End() <= b.start || b.End() <= f[i].start
    {
      var x := if f[i].start < b.start then b.start else f[i].start;
      if In(x, b) && In(x, f[i]) {
        CountSome(f, i, x);
      }
    }
  }

  lemma PutSeparated(f: seq<Block>, i: nat, j: nat, m: Block)
    requires i <= j <= |f| && Separated(f) && m.length > 0
    requires i > 0 ==> f[i - 1].End() < m.start
    requires j < |f| ==> m.End() < f[j].start
    ensures Separated(Put(f, i, j, m))
  {
    var g := Put(f, i, j, m);
    forall a, c | 0 <= a < c < |g|
      ensures g[a].End() < g[c].start
    {
      var l := g[a];
      var r := g[c];
      assert l == if a < i then f[a] else if a == i then m else f[a - i - 1 + j];
      assert r == if c < i then f[c] else if c == i then m else f[c - i - 1 + j];
      assert i > 0 && a < i - 1 ==> f[a].End() < f[i - 1].start;
      assert j < |f| && c > i + 1 ==> f[j].End() < r.start;
    }
  }

  lemma PutFits(f: seq<Block>, i: nat, j: nat, m: Block, align: int)
    requires align > 0 && i <= j <= |f| && AllFit(f, align) && Fits(m, align)
    ensures AllFit(Put(f, i, j, m), align)
  {
    hide Fits;
    var g := Put(f, i, j, m);
    forall a | 0 <= a < |g|
      ensures Fits(g[a], align)
    {
      assert g[a] == if a < i then f[a] else if a == i then m else f[a - i - 1 + j];
    }
  }

  lemma InsertSeparated(f: seq<Block>, b: Block)
    requires Separated(f) && b.length > 0 && Apart(f, b)
    ensures Separated(Insert(f, b))
  {
    hide Put;
    var k := FindPlace(f, b.start);
    var mid := if JoinsHigh(f, k, b) then Block(b.start, b.length + f[k].length) else b;
    var j := if JoinsHigh(f, k, b) then k + 1 else k;
    assert k > 0 ==> f[k - 1].End() <= b.start;
    assert k < |f| ==> b.End() <= f[k].start;
    if JoinsLow(f, k, b) {
      PutSeparated(f, k - 1, j, Block(f[k - 1].start, f[k - 1].length + mid.length));
    } else {
      PutSeparated(f, k, j, mid);
    }
  }

  /** Replacing neighbours by the block they fill together counts the same. */
  lemma PutCounts(f: seq<Block>, i: nat, j: nat, m: Block, b: Block, x: int)
    requires i <= j <= |f|
    requires One(x, m) == Count(f[i..j], x) + One(x, b)
    ensures Count(Put(f, i, j, m), x) == Count(f, x) + One(x, b)
  {
    CountPut(f[..i], m, f[j..], x);
    CountCut(f, j, x);
    CountCut(f[..j], i, x);
    assert f[..j][..i] == f[..i] && f[..j][i..] == f[i..j];
  }

  lemma InsertCounts(f: seq<Block>, b: Block, x: int)
    requires Separated(f) && b.length >= 0
    ensures Count(Insert(f, b), x) == Count(f, x) + One(x, b)
  {
    hide Put, Count;
    var k := FindPlace(f, b.start);
    var high := JoinsHigh(f, k, b);
    var mid := if high then Block(b.start, b.length + f[k].length) else b;
    var j := if high then k + 1 else k;
    Counted(f, k, j, x);
    if JoinsLow(f, k, b) {
      CountPick(f[k - 1..j], 0, x);
      assert f[k - 1..j][0 + 1..] == f[k..j] && f[k - 1..j][..0] == [];
      Counted(f, k, k, x);
      assert f[k..k] == [];
      PutCounts(f, k - 1, j, Block(f[k - 1].start, f[k - 1].length + mid.length), b, x);
    } else {
      PutCounts(f, k, j, mid, b, x);
    }
  }

  lemma Counted(f: seq<Block>, k: nat, j: nat, x: int)
    requires k <= j <= |f| && j <= k + 1
    ensures Count(f[k..j], x) == if j == k then 0 else One(x, f[k])
  {
    if j == k + 1 {
      assert f[k..j] == [f[k]];
      CountOne(f[k], x);
    }
  }

  lemma JoinFits(a: Block, b: Block, align: int)
    requires (align == 2 || align == 4) && Fits(a, align) && Fits(b, align)
    ensures Fits(Block(a.start, a.length + b.length), align)
  {
  }

  lemma InsertFits(f: seq<Block>, b: Block, align: int)
    requires (align == 2 || align == 4) && AllFit(f, align) && Fits(b, align)
    ensures AllFit(Insert(f, b), align)
  {
    hide Put, Fits;
    var k := FindPlace(f, b.start);
    var mid := if JoinsHigh(f, k, b) then Block(b.start, b.length + f[k].length) else b;
    var j := if JoinsHigh(f, k, b) then k + 1 else k;
    if k < |f| {
      JoinFits(b, f[k], align);
    }
    if JoinsLow(f, k, b) {
      JoinFits(f[k - 1], mid, align);
      PutFits(f, k - 1, j, Block(f[k - 1].start, f[k - 1].length + mid.length), align);
    } else {
      PutFits(f, k, j, mid, align);
    }
  }

  /** Addresses of an allocated block are in no free block. */
  lemma HeldApart(p: Pool, i: nat)
    requires Ok(p) && i < |p.alloc|
    ensures Apart(p.free, p.alloc[i].block)
  {
    var b := p.alloc[i].block;
    assert Blocks(p.alloc)[i] == b && Fits(b, p.align);
    forall x: int | In(x, b)
      ensures Count(p.free, x) == 0
    {
      CountSome(Blocks(p.alloc), i, x);
      assert Holders(p, x) <= 1;
    }
    CountApart(p.free, b);
  }

  /** No two allocated blocks start at the same address. */
  lemma StartsUnique(p: Pool, i: nat, j: nat)
    requires Ok(p) && i < j < |p.alloc|
    ensures p.alloc[i].block.start != p.alloc[j].block.start
  {
    var s := Blocks(p.alloc);
    assert Fits(s[i], p.align) && Fits(s[j], p.align);
    if s[i].start == s[j].start {
      var x := s[i].start;
      assert Holders(p, x) <= 1;
      CountTwice(s, i, j, x);
    }
  }

  lemma FindHeldIs(p: Pool, i: nat)
    requires Ok(p) && i < |p.alloc|
    ensures FindHeld(p.alloc, p.alloc[i].block.start) == i
  {
    var k := FindHeld(p.alloc, p.alloc[i].block.start);
    if k < i {
      StartsUnique(p, k, i);
    }
  }

  /** Freeing an allocated block keeps the pool, and its addresses become free. */
  lemma ReleaseKeeps(p: Pool, i: nat)
    requires Ok(p) && i < |p.alloc|
    ensures var b := p.alloc[i].block; var q := Release(p, b.start);
      && Ok(q) && q == p.(alloc := Without(p.alloc, i), free := Insert(p.free, b))
      && forall x: int :: Count(q.free, x) == Count(p.free, x) + One(x, b)
  {
    var b := p.alloc[i].block;
    var q := Release(p, b.start);
    FindHeldIs(p, i);
    HeldApart(p, i);
    var s := Blocks(p.alloc);
    assert s[i] == b && Fits(b, p.align);
    InsertSeparated(p.free, b);
    InsertFits(p.free, b, p.align);
    BlocksPick(p.alloc, i);
    forall x: int
      ensures Count(q.free, x) == Count(p.free, x) + One(x, b)
      ensures Holders(q, x) == Holders(p, x)
    {
      InsertCounts(p.free, b, x);
      CountPick(s, i, x);
      CountConcat(s[..i], s[i + 1..], x);
    }
  }

  /** Freeing what was just taken restores the pool exactly. */
  lemma MallocFree(p: Pool, amount: int, own: int, md: bool)
    requires Ok(p) && amount > 0 && amount % p.align == 0
    ensures var (q, r) := Fit(p, amount, own, md); r.Got? ==> Release(q, r.block.start) == p
  {
    var (q, r) := Fit(p, amount, own, md);
    FitKeeps(p, amount, own, md);
    if r.Got? {
      ReleaseKeeps(q, 0);
      var z := Release(q, r.block.start);
      assert z.alloc == p.alloc;
      FreeDetermined(p, z);
    }
  }

  /** The order in which two blocks are freed does not matter. */
  lemma FreesCommute(p: Pool, i: nat, j: nat)
    requires Ok(p) && i < j < |p.alloc|
    ensures var s, t := p.alloc[i].block.start, p.alloc[j].block.start;
      Release(Release(p, s), t) == Release(Release(p, t), s)
  {
    hide Ok, Insert, Release, Count;
    var s, t := p.alloc[i].block.start, p.alloc[j].block.start;
    ReleaseKeeps(p, i);
    ReleaseKeeps(p, j);
    var a, b := Release(p, s), Release(p, t);
    assert a.alloc[j - 1] == p.alloc[j];
    assert b.alloc[i] == p.alloc[i];
    ReleaseKeeps(a, j - 1);
    ReleaseKeeps(b, i);
    assert Without(a.alloc, j - 1) == Without(b.alloc, i);
    FreeDetermined(Release(a, t), Release(b, s));
  }

  // ---- Rounding

  /** Within range, rounding gives the least multiple of the unit that is at least the amount. */
  lemma RoundedIs(a: int, align: int)
    requires (align == 2 || align == 4) && 0 <= a <= 0x8000_0000 - align
    ensures var r := Rounded(a, align); a <= r < a + align && r % align == 0 && r <= 0x8000_0000 - align
  {
    hide S32;
    var s := a + align - 1;
    assert U32(s) == s;
    Multiple(s, align);
    SmallS32(s / align * align);
  }

  lemma SmallS32(x: int)
    requires 0 <= x < 0x8000_0000
    ensures S32(x) == x
  {
  }

  lemma Multiple(s: int, align: int)
    requires align == 2 || align == 4
    ensures var r := s / align * align; s - align < r <= s && r % align == 0
  {
  }

  lemma RoundedMultiple(a: int, align: int)
    requires align == 2 || align == 4
    ensures Rounded(a, align) % align == 0 && -0x8000_0000 <= Rounded(a, align) < 0x8000_0000
  {
    hide U32;
    var u := U32(a + align - 1);
    U32Range(a + align - 1);
    U32Same(u / align * align);
    TimesUnit(u / align, align);
  }

  lemma U32Range(x: int)
    ensures 0 <= U32(x) < 0x1_0000_0000
  {
  }

  lemma U32Same(x: int)
    ensures 0 <= x < 0x1_0000_0000 ==> U32(x) == x
  {
  }

  lemma TimesUnit(q: int, align: int)
    requires align == 2 || align == 4
    ensures q * align % align == 0 && (q * align - 0x1_0000_0000) % align == 0
  {
    assert q * align == if align == 2 then 2 * q else 4 * q;
  }

  /** Above it, the sum wraps and the rounded amount is negative. */
  lemma RoundedWraps(a: int, align: int)
    requires (align == 2 || align == 4) && 0x8000_0000 - align < a < 0x8000_0000
    ensures Rounded(a, align) == -0x8000_0000
  {
  }

  /** An allocation request keeps the pool exactly when the amount is at most 2^31 - align. */
  lemma MallocKeepsIff(p: Pool, amount: int, own: int, md: bool)
    requires Ok(p) && 0 < amount < 0x8000_0000 && md && p.free != []
    ensures Ok(Malloc(p, amount, own, md).0) <==> amount <= 0x8000_0000 - p.align
  {
    var q := Malloc(p, amount, own, md).0;
    if amount <= 0x8000_0000 - p.align {
      RoundedIs(amount, p.align);
      FitKeeps(p, Rounded(amount, p.align), own, md);
    } else {
      RoundedWraps(amount, p.align);
      assert p.free[0].length > 0;
      assert q.alloc[0].block.length < 0;
      assert Blocks(q.alloc)[0] == q.alloc[0].block;
    }
  }

  /** 2147483645 bytes are granted from any pool with a free block, and the pool is ruined. */
  lemma MallocWrapsExample()
    ensures var p := Pool(0, 64, 4, [Block(0, 64)], [], []);
      Ok(p) && Malloc(p, 0x7fff_fffd, 1, true).1 == Got(Block(0, -0x8000_0000)) && !Ok(Malloc(p, 0x7fff_fffd, 1, true).0)
  {
    var p := Pool(0, 64, 4, [Block(0, 64)], [], []);
    forall x: int
      ensures Holders(p, x) == if 0 <= x < 64 then 1 else 0
    {
      CountOne(Block(0, 64), x);
    }
    MallocKeepsIff(p, 0x7fff_fffd, 1, true);
    RoundedWraps(0x7fff_fffd, 4);
  }

  // ---- Shrinking

  lemma UpdateCounts(a: seq<Held>, i: nat, h: Held, x: int)
    requires i < |a|
    ensures Count(Blocks(a[i := h]), x) + One(x, a[i].block) == Count(Blocks(a), x) + One(x, h.block)
  {
    hide Count, One;
    var s, t := Blocks(a), Blocks(a[i := h]);
    CountPick(s, i, x);
    CountPick(t, i, x);
    assert s[..i] == t[..i] && s[i + 1..] == t[i + 1..];
  }

  lemma UpdateFits(a: seq<Held>, i: nat, h: Held, align: int)
    requires i < |a| && align > 0 && AllFit(Blocks(a), align) && Fits(h.block, align)
    ensures AllFit(Blocks(a[i := h]), align)
  {
    hide Fits;
    var s, t := Blocks(a), Blocks(a[i := h]);
    forall j | 0 <= j < |t|
      ensures Fits(t[j], align)
    {
      assert j != i ==> t[j] == s[j];
    }
  }

  /** Cutting an allocated block down keeps the pool and frees the rest of it. */
  lemma ShrunkKeeps(p: Pool, i: nat, n: int)
    requires Ok(p) && i < |p.alloc| && 0 < n < p.alloc[i].block.length && n % p.align == 0
    ensures Ok(Shrunk(p, i, n))
  {
    hide Separated, Count, Insert, Fits, Apart, One, U32, S32;
    var m, q := p.alloc[i].block, Shrunk(p, i, n);
    var b := Block(m.start + n, m.length - n);
    ShrinkParts(p, i, n);
    InsertSeparated(p.free, b);
    InsertFits(p.free, b, p.align);
    var h := p.alloc[i].(block := Block(m.start, n));
    UpdateFits(p.alloc, i, h, p.align);
    forall x: int
      ensures Holders(q, x) == Holders(p, x)
    {
      InsertCounts(p.free, b, x);
      UpdateCounts(p.alloc, i, h, x);
      OneSplit(m, n, x);
    }
  }

  lemma OneSplit(m: Block, n: int, x: int)
    requires 0 < n < m.length
    ensures One(x, m) == One(x, Block(m.start, n)) + One(x, Block(m.start + n, m.length - n))
  {
  }

  lemma ShrinkParts(p: Pool, i: nat, n: int)
    requires Ok(p) && i < |p.alloc| && 0 < n < p.alloc[i].block.length && n % p.align == 0
    ensures var m := p.alloc[i].block; var b := Block(m.start + n, m.length - n);
      && b == Block(U32(m.start + n), S32(m.length - n)) && Fits(b, p.align) && Fits(Block(m.start, n), p.align)
      && b.length > 0 && Apart(p.free, b)
  {
    hide Separated, Tiles, Count, Apart, Fits, U32, S32;
    HeldInside(p, i);
    HeldApart(p, i);
    HeldFits(p, i);
    RestApart(p.free, p.alloc[i].block, n);
    RestFits(p.alloc[i].block, n, p.align);
    RestIs(p.alloc[i].block, n);
  }

  lemma RestApart(f: seq<Block>, m: Block, n: int)
    requires Apart(f, m) && 0 < n < m.length
    ensures Apart(f, Block(m.start + n, m.length - n))
  {
  }

  lemma RestFits(m: Block, n: int, align: int)
    requires (align == 2 || align == 4) && Fits(m, align) && 0 < n < m.length && n % align == 0
    ensures Fits(Block(m.start + n, m.length - n), align) && Fits(Block(m.start, n), align)
  {
  }

  lemma RestIs(m: Block, n: int)
    requires 0 <= m.start && m.End() < 0x1_0000_0000 && 0 < n < m.length <= 0x7fff_fffc
    ensures U32(m.start + n) == m.start + n && S32(m.length - n) == m.length - n
  {
  }

  /** A free block begins where allocated block i ends. */
  predicate FreeAfter(p: Pool, i: nat)
    requires i < |p.alloc|
  {
    exists k :: 0 <= k < |p.free| && p.free[k].start == p.alloc[i].block.End()
  }

  /** An empty block put in front of a free block joins it; elsewhere it stays on the list. */
  lemma EmptyJoins(f: seq<Block>, e: int, k: nat)
    requires Separated(f) && k < |f| && f[k].start == e
    ensures Insert(f, Block(e, 0)) == f
  {
    var j := FindPlace(f, e);
    assert j <= k;
    assert j == k;
    assert k > 0 ==> f[k - 1].End() < f[k].start;
    assert f[..k] + [f[k]] + f[k + 1..] == f;
  }

  lemma EmptyStays(f: seq<Block>, e: int)
    requires forall k :: 0 <= k < |f| ==> f[k].start != e && f[k].End() != e
    ensures !Separated(Insert(f, Block(e, 0)))
  {
    var k := FindPlace(f, e);
    assert Insert(f, Block(e, 0)) == f[..k] + [Block(e, 0)] + f[k..];
    assert Insert(f, Block(e, 0))[k].length == 0;
  }

  /** Shrinking to the full length frees an empty block: harmless only next to a free block. */
  lemma ShrunkToFull(p: Pool, i: nat)
    requires Ok(p) && i < |p.alloc|
    ensures Ok(Shrunk(p, i, p.alloc[i].block.length)) <==> FreeAfter(p, i)
  {
    hide Separated, Insert, Tiles;
    var m := p.alloc[i].block;
    var q := Shrunk(p, i, m.length);
    assert Blocks(p.alloc)[i] == m && Fits(m, p.align);
    HeldInside(p, i);
    HeldApart(p, i);
    assert q.free == Insert(p.free, Block(m.End(), 0));
    if FreeAfter(p, i) {
      var k :| 0 <= k < |p.free| && p.free[k].start == m.End();
      EmptyJoins(p.free, m.End(), k);
      assert q.alloc == p.alloc;
      assert q == p;
    } else {
      forall k | 0 <= k < |p.free|
        ensures p.free[k].start != m.End() && p.free[k].End() != m.End()
      {
        assert Fits(p.free[k], p.align);
      }
      EmptyStays(p.free, m.End());
    }
  }

  /** Shrinking to a length that is not positive leaves a block without length. */
  lemma ShrunkAway(p: Pool, i: nat, n: int)
    requires Shape(p) && i < |p.alloc| && n <= 0
    ensures !Ok(Shrunk(p, i, n))
  {
    var q := Shrunk(p, i, n);
    assert Blocks(q.alloc)[i].length == n;
  }

  /** When `shrinkit` is reached, and what it is then asked for leaves the pool in order. */
  predicate ShrinkReached(p: Pool, addr: int, len: int) {
    var i := FindHeld(p.alloc, addr);
    && p.align > 0 && p.lo <= addr < p.hi && i < |p.alloc|
    && Rounded(len, p.align) < p.alloc[i].block.length && Rounded(len, p.align) != 0
  }

  predicate ShrinkFine(p: Pool, addr: int, len: int)
    requires ShrinkReached(p, addr, len)
  {
    var i := FindHeld(p.alloc, addr);
    var r := Rounded(len, p.align);
    r > 0 && (r % 4 == 0 || r + 2 < p.alloc[i].block.length || FreeAfter(p, i))
  }

  /**
   * `Mshrink` keeps the pool unless it hands `shrinkit` a negative length, or, with two-byte units,
   * one that rounds up to the whole block and no free block follows.
   */
  lemma MshrinkKeepsIff(p: Pool, addr: int, len: int, md: bool)
    requires Ok(p)
    ensures Ok(Mshrink(p, addr, len, md).0) <==> (md && ShrinkReached(p, addr, len) ==> ShrinkFine(p, addr, len))
  {
    hide Ok, Insert, Rounded, Shrunk, Release, ShrinkFine;
    var i := FindHeld(p.alloc, addr);
    AlignOf(p);
    if md && ShrinkReached(p, addr, len) {
      ShrunkIff(p, addr, len);
    } else if i < |p.alloc| {
      ReleaseKeeps(p, i);
    }
  }

  /** The outcomes of `Mshrink` for block k and a length that is not negative and does not wrap: the block is freed for length 0,
      keeps its length if less than a unit would be left over, and otherwise gets the least multiple of 4 that is enough;
      growth is refused; without a descriptor nothing happens where one is needed. No other block changes. */
  lemma MshrinkOutcome(p: Pool, k: nat, len: int, md: bool)
    requires Ok(p) && k < |p.alloc| && 0 <= len <= 0x8000_0000 - p.align
    ensures var (q, code) := Mshrink(p, p.alloc[k].block.start, len, md);
      var b := p.alloc[k].block;
      && (code == GrowthRefused <==> len > b.length)
      && (code == NoDescriptor <==> !md && 0 < len <= b.length - p.align)
      && (code == Done <==> len == 0 || b.length - p.align < len <= b.length || (md && len <= b.length))
      && (code != Done ==> q == p)
      && (code == Done && len == 0 ==> q.alloc == p.alloc[..k] + p.alloc[k + 1..])
      && (code == Done && len > b.length - p.align ==> q == p)
      && (code == Done && 0 < len <= b.length - p.align ==>
           |q.alloc| == |p.alloc| && (forall j :: 0 <= j < |p.alloc| && j != k ==> q.alloc[j] == p.alloc[j])
           && q.alloc[k].own == p.alloc[k].own && q.alloc[k].block.start == b.start
           && len <= q.alloc[k].block.length < len + 4 && q.alloc[k].block.length % 4 == 0)
  {
    hide Ok, Insert, Rounded;
    AlignOf(p);
    var b, r := p.alloc[k].block, Rounded(len, p.align);
    FindHeldIs(p, k);
    HeldInside(p, k);
    HeldFits(p, k);
    RoundedIs(len, p.align);
    UnitsApart(r, b.length, p.align, len);
    if 0 < r < b.length {
      RoundedIs(r, 4);
      TwiceRounded(len, p.align, r, Rounded(r, 4));
    }
  }

  lemma UnitsApart(r: int, length: int, align: int, len: int)
    requires (align == 2 || align == 4) && r % align == 0 && length % align == 0 && len <= r < len + align && length > 0 && len >= 0
    ensures r > length <==> len > length
    ensures r == length <==> length - align < len <= length
    ensures r == 0 <==> len == 0
  {
    var a, b := r / align, length / align;
    if align == 2 {
      assert r == 2 * a && length == 2 * b;
    } else {
      assert r == 4 * a && length == 4 * b;
    }
  }

  /** Rounding to the unit and then to four bytes gives the least multiple of four. */
  lemma TwiceRounded(len: int, align: int, r: int, n: int)
    requires (align == 2 || align == 4) && r % align == 0 && len <= r < len + align && r <= n < r + 4 && n % 4 == 0
    ensures len <= n < len + 4
  {
    var a, b := r / align, n / 4;
    if align == 2 {
      EvenFour(a / 2, a, b);
    } else {
      EvenFour(a, 2 * a, b);
    }
  }

  /** There is no such block exactly if the address is refused. */
  lemma MshrinkBadAddress(p: Pool, addr: int, len: int, md: bool)
    requires Ok(p)
    ensures Mshrink(p, addr, len, md).1 == BadAddress <==> forall k :: 0 <= k < |p.alloc| ==> p.alloc[k].block.start != addr
    ensures Mshrink(p, addr, len, md).1 == BadAddress ==> Mshrink(p, addr, len, md).0 == p
  {
    hide Ok, Insert, Rounded, Shrunk, Release;
    AlignOf(p);
    var k := FindHeld(p.alloc, addr);
    if k < |p.alloc| {
      HeldInside(p, k);
      HeldFits(p, k);
    }
  }

  /** A negative length, or one so large that rounding wraps, is never refused as growth: the block is freed, or is left with
      no length or a negative one. */
  lemma MshrinkBadLength(p: Pool, k: nat, len: int)
    requires Ok(p) && k < |p.alloc| && (-0x8000_0000 <= len < 0 || 0x8000_0000 - p.align < len < 0x8000_0000)
    ensures var (q, code) := Mshrink(p, p.alloc[k].block.start, len, true);
      && code == Done
      && (if -p.align < len < 0 then q.alloc == p.alloc[..k] + p.alloc[k + 1..]
          else |q.alloc| == |p.alloc| && q.alloc[k].block.length <= 0)
  {
    hide Ok, Insert, Rounded;
    AlignOf(p);
    FindHeldIs(p, k);
    HeldInside(p, k);
    HeldFits(p, k);
    var r := Rounded(len, p.align);
    if len < 0 {
      RoundedBelow(len, p.align);
    } else {
      RoundedWraps(len, p.align);
    }
    if r < 0 {
      RoundedBelow(r, 4);
    }
  }

  lemma RoundedBelow(a: int, align: int)
    requires (align == 2 || align == 4) && -0x8000_0000 <= a < 0
    ensures -0x8000_0000 <= Rounded(a, align) <= 0 && (Rounded(a, align) == 0 <==> -align < a)
  {
  }

  lemma ShrunkIff(p: Pool, addr: int, len: int)
    requires Ok(p) && ShrinkReached(p, addr, len)
    ensures Ok(Shrunk(p, FindHeld(p.alloc, addr), Rounded(Rounded(len, p.align), 4))) <==> ShrinkFine(p, addr, len)
  {
    hide Ok, Insert, Rounded, Shrunk, FreeAfter;
    var i, r := FindHeld(p.alloc, addr), Rounded(len, p.align);
    AlignOf(p);
    RoundedMultiple(len, p.align);
    HeldFits(p, i);
    if r > 0 {
      RoundedIs(r, 4);
      NextFour(r, Rounded(r, 4), p.alloc[i].block.length, p.align);
      if Rounded(r, 4) < p.alloc[i].block.length {
        ShrunkKeeps(p, i, Rounded(r, 4));
      } else {
        ShrunkToFull(p, i);
      }
    } else {
      RoundedNegative(r);
      ShrunkAway(p, i, Rounded(r, 4));
    }
  }

  /** Rounding an even length up to four bytes adds nothing or two. */
  lemma NextFour(r: int, n: int, length: int, align: int)
    requires (align == 2 || align == 4) && r % align == 0 && length % align == 0 && 0 < r < length && r <= n < r + 4 && n % 4 == 0
    ensures n == (if r % 4 == 0 then r else r + 2) && n <= length
  {
    var a, b, c := r / align, n / 4, length / align;
    if align == 2 {
      EvenFour(a / 2, a, b);
      FourTimes(a / 2);
    } else {
      EvenFour(a, 2 * a, b);
      FourTimes(a);
    }
  }

  lemma EvenFour(h: int, u: int, b: int)
    requires (u == 2 * h || u == 2 * h + 1) && 2 * u <= 4 * b < 2 * u + 4
    ensures b == if u == 2 * h then h else h + 1
  {
  }

  lemma FourTimes(h: int)
    ensures 4 * h % 4 == 0 && (4 * h + 2) % 4 == 2
  {
  }

  lemma AlignOf(p: Pool)
    requires Ok(p)
    ensures Shape(p)
  {
  }

  lemma HeldFits(p: Pool, i: nat)
    requires Ok(p) && i < |p.alloc|
    ensures Fits(p.alloc[i].block, p.align) && p.alloc[i].block.length <= 0x7fff_fffc
  {
    assert Blocks(p.alloc)[i] == p.alloc[i].block;
    HeldInside(p, i);
  }

  lemma RoundedNegative(r: int)
    requires -0x8000_0000 <= r < 0
    ensures Rounded(r, 4) <= 0
  {
  }

  /** Two neighbouring blocks of eight bytes, allocated in units of two. */
  function TwoBlocks(): (r: Pool) {
    Pool(0, 16, 2, [], [Held(Block(0, 8), 1), Held(Block(8, 8), 1)], [])
  }

  lemma TwoBlocksOk()
    ensures Ok(TwoBlocks())
  {
    var p := TwoBlocks();
    assert Blocks(p.alloc) == [Block(0, 8)] + [Block(8, 8)];
    forall x: int
      ensures Holders(p, x) == if 0 <= x < 16 then 1 else 0
    {
      CountConcat([Block(0, 8)], [Block(8, 8)], x);
      CountOne(Block(0, 8), x);
      CountOne(Block(8, 8), x);
    }
  }

  /** Shrinking the first of them to five bytes reports success and leaves an empty block on the free list. */
  lemma MshrinkRoundsExample()
    ensures var (q, r) := Mshrink(TwoBlocks(), 0, 5, true);
      Ok(TwoBlocks()) && r == Done && q.free == [Block(8, 0)] && q.alloc == TwoBlocks().alloc && !Ok(q)
  {
    TwoBlocksOk();
    var p := TwoBlocks();
    assert FindHeld(p.alloc, 0) == 0 && Rounded(5, 2) == 6 && Rounded(6, 4) == 8;
    assert FindPlace(p.free, 8) == 0;
    MshrinkKeepsIff(p, 0, 5, true);
  }

  /** Shrinking it to minus eight bytes reports success and leaves a block of negative length. */
  lemma MshrinkNegativeExample()
    ensures var (q, r) := Mshrink(TwoBlocks(), 0, -8, true);
      Ok(TwoBlocks()) && r == Done && q.alloc[0].block == Block(0, -8) && !Ok(q)
  {
    hide Ok, Insert, Rounded, U32, S32;
    TwoBlocksOk();
    MinusEight();
    var p := TwoBlocks();
    assert FindHeld(p.alloc, 0) == 0;
    MshrinkKeepsIff(p, 0, -8, true);
  }

  lemma MinusEight()
    ensures Rounded(-8, 2) == -8 && Rounded(-8, 4) == -8
  {
    assert U32(-7) == 0xffff_fff9 && U32(-5) == 0xffff_fffb;
    assert 0xffff_fff9 / 2 * 2 == 0xffff_fff8 && 0xffff_fffb / 4 * 4 == 0xffff_fff8;
    assert S32(0xffff_fff8) == -8;
  }

  // ---- The owner sweeps

  /** The sweep of a terminating process frees its blocks one by one. */
  function FreeOwned(p: Pool, i: nat, own: int): (r: Pool)
    requires i <= |p.alloc|
    decreases |p.alloc| - i
  {
    if i == |p.alloc| then p
    else if p.alloc[i].own != own then FreeOwned(p, i + 1, own)
    else FreeOwned(p.(alloc := Without(p.alloc, i), free := Insert(p.free, p.alloc[i].block)), i, own)
  }

  function Swept(a: seq<Held>, i: nat, own: int): (r: seq<Held>)
    requires i <= |a|
  {
    a[..i] + NotOwned(a[i..], own)
  }

  lemma SweptStep(a: seq<Held>, i: nat, own: int)
    requires i <= |a|
    ensures i == |a| ==> Swept(a, i, own) == a
    ensures i < |a| && a[i].own != own ==> Swept(a, i, own) == Swept(a, i + 1, own)
    ensures i < |a| && a[i].own == own ==> Swept(a, i, own) == Swept(Without(a, i), i, own)
    ensures i == 0 ==> Swept(a, i, own) == NotOwned(a, own)
  {
    hide NotOwned, Without;
    assert a[0..] == a && a[..0] == [];
    assert a[|a|..] == [] && a[..|a|] == a;
    NothingSwept(own);
    if i < |a| {
      SweptOne(a, i, own);
      SweptWithout(a, i);
    }
  }

  lemma NothingSwept(own: int)
    ensures NotOwned([], own) == []
  {
  }

  lemma SweptOne(a: seq<Held>, i: nat, own: int)
    requires i < |a|
    ensures NotOwned(a[i..], own) == (if a[i].own == own then [] else [a[i]]) + NotOwned(a[i + 1..], own)
    ensures a[..i + 1] == a[..i] + [a[i]]
    ensures a[..i] + ([a[i]] + NotOwned(a[i + 1..], own)) == a[..i + 1] + NotOwned(a[i + 1..], own)
  {
    assert a[i..][0] == a[i] && a[i..][1..] == a[i + 1..];
  }

  lemma SweptWithout(a: seq<Held>, i: nat)
    requires i < |a|
    ensures Without(a, i)[..i] == a[..i] && Without(a, i)[i..] == a[i + 1..]
  {
  }

  /** Exactly the blocks of other processes stay allocated, in their order. */
  lemma {:induction false} FreeOwnedKeeps(p: Pool, i: nat, own: int)
    requires Ok(p) && i <= |p.alloc|
    ensures var q := FreeOwned(p, i, own);
      Ok(q) && q == p.(alloc := Swept(p.alloc, i, own), free := q.free)
    decreases |p.alloc| - i
  {
    hide Ok, Insert, Release, Swept;
    SweptStep(p.alloc, i, own);
    if i < |p.alloc| {
      if p.alloc[i].own != own {
        FreeOwnedKeeps(p, i + 1, own);
      } else {
        ReleaseKeeps(p, i);
        FreeOwnedKeeps(p.(alloc := Without(p.alloc, i), free := Insert(p.free, p.alloc[i].block)), i, own);
      }
    }
  }

  lemma {:induction false} SweepCounts(a: seq<Held>, own: int, x: int)
    ensures Count(Blocks(NotOwned(a, own)), x) + Count(OwnedBlocks(a, own), x) == Count(Blocks(a), x)
    decreases a
  {
    hide Blocks, Count;
    if a == [] {
      NoneCounted(x);
    } else {
      var h, t := a[0], a[1..];
      SweepCounts(t, own, x);
      assert a == [h] + t;
      CountPush(h, t, x);
      if h.own == own {
        CountConcat([h.block], OwnedBlocks(t, own), x);
        CountOne(h.block, x);
        assert [] + NotOwned(t, own) == NotOwned(t, own);
      } else {
        CountPush(h, NotOwned(t, own), x);
        assert [] + OwnedBlocks(t, own) == OwnedBlocks(t, own);
      }
    }
  }

  lemma NoneCounted(x: int)
    ensures Blocks([]) == [] && Count([], x) == 0
  {
  }

  lemma CountPush(h: Held, t: seq<Held>, x: int)
    ensures Count(Blocks([h] + t), x) == One(x, h.block) + Count(Blocks(t), x)
  {
    BlocksPush(h, t);
    CountConcat([h.block], Blocks(t), x);
    CountOne(h.block, x);
  }

  lemma ReserveKeeps(p: Pool, own: int)
    requires Ok(p)
    ensures Ok(Reserve(p, own)) && forall h :: h in Reserve(p, own).alloc ==> h.own != own
  {
    hide Separated, Count, Fits;
    var q := Reserve(p, own);
    forall x: int
      ensures Holders(q, x) == Holders(p, x)
    {
      SweepCounts(p.alloc, own, x);
      CountConcat(p.reserved, OwnedBlocks(p.alloc, own), x);
    }
    forall i | 0 <= i < |Blocks(q.alloc)|
      ensures Fits(Blocks(q.alloc)[i], p.align)
    {
      assert q.alloc[i] in q.alloc;
      var j :| 0 <= j < |p.alloc| && p.alloc[j] == q.alloc[i];
      assert Blocks(p.alloc)[j] == Blocks(q.alloc)[i];
    }
  }

  // ---- Whole runs

  datatype Op =
    | OpMalloc(amount: int, own: int, md: bool)
    | OpFree(addr: int)
    | OpShrink(addr: int, len: int, md: bool)
    | OpExit(own: int)
    | OpReserve(own: int)

  function Apply(p: Pool, op: Op): (r: Pool)
    requires p.align > 0
  {
    match op
    case OpMalloc(amount, own, md) => if amount <= 0 then p else Malloc(p, amount, own, md).0
    case OpFree(addr) => Release(p, addr)
    case OpShrink(addr, len, md) => Mshrink(p, addr, len, md).0
    case OpExit(own) => FreeOwned(p, 0, own)
    case OpReserve(own) => Reserve(p, own)
  }

  /** What a caller has to see to: sizes that do not wrap, shrinking that leaves something to free. */
  predicate Proper(p: Pool, op: Op) {
    match op
    case OpMalloc(amount, own, md) => amount <= 0x8000_0000 - p.align
    case OpShrink(addr, len, md) => ShrinkReached(p, addr, len) ==> ShrinkFine(p, addr, len)
    case OpFree(_) => true
    case OpExit(_) => true
    case OpReserve(_) => true
  }

  lemma ApplyKeeps(p: Pool, op: Op)
    requires Ok(p) && Proper(p, op)
    ensures var q := Apply(p, op);
      && Ok(q) && q.lo == p.lo && q.hi == p.hi && q.align == p.align
      && (op.OpExit? || op.OpReserve? ==> forall h :: h in q.alloc <==> h in p.alloc && h.own != op.own)
      && (op.OpExit? ==> q.reserved == p.reserved)
  {
    hide Ok, Rounded, Insert, Fit;
    AlignOf(p);
    match op
    case OpMalloc(amount, own, md) =>
      if amount > 0 {
        RoundedIs(amount, p.align);
        FitKeeps(p, Rounded(amount, p.align), own, md);
      }
    case OpFree(addr) =>
      var i := FindHeld(p.alloc, addr);
      if i < |p.alloc| {
        ReleaseKeeps(p, i);
      }
    case OpShrink(addr, len, md) =>
      MshrinkKeepsIff(p, addr, len, md);
    case OpExit(own) =>
      FreeOwnedKeeps(p, 0, own);
      SweptStep(p.alloc, 0, own);
    case OpReserve(own) =>
      ReserveKeeps(p, own);
  }

  ghost predicate ProperRun(p: Pool, ops: seq<Op>)
    requires p.align > 0
    decreases |ops|
  {
    ops == [] || (Proper(p, ops[0]) && Apply(p, ops[0]).align > 0 && ProperRun(Apply(p, ops[0]), ops[1..]))
  }

  function Run(p: Pool, ops: seq<Op>): (r: Pool)
    requires p.align > 0
    decreases |ops|
  {
    if ops == [] then p
    else var q := Apply(p, ops[0]); if q.align > 0 then Run(q, ops[1..]) else q
  }

  /** Every run of proper calls keeps the pool. */
  lemma {:induction false} RunKeeps(p: Pool, ops: seq<Op>)
    requires Ok(p) && ProperRun(p, ops)
    ensures var q := Run(p, ops); Ok(q) && q.lo == p.lo && q.hi == p.hi
    decreases |ops|
  {
    if ops != [] {
      ApplyKeeps(p, ops[0]);
      RunKeeps(Apply(p, ops[0]), ops[1..]);
    }
  }

  lemma WholeFits(lo: int, hi: int, unit: int)
    requires lo < hi && (unit == 2 || unit == 4) && lo % unit == 0 && hi % unit == 0
    ensures Fits(Block(lo, hi - lo), unit)
  {
    if unit == 2 {
      assert (hi - lo) % 2 == 0;
    } else {
      assert (hi - lo) % 4 == 0;
    }
  }

  lemma FreshOk(lo: int, hi: int, unit: int)
    requires 0 <= lo < hi < 0x1_0000_0000 && hi - lo <= 0x7fff_fffc && (unit == 2 || unit == 4)
    requires lo % unit == 0 && hi % unit == 0
    ensures Ok(Pool(lo, hi, unit, [Block(lo, hi - lo)], [], []))
  {
    hide Fits;
    var p := Pool(lo, hi, unit, [Block(lo, hi - lo)], [], []);
    WholeFits(lo, hi, unit);
    assert Blocks(p.alloc) == [];
    forall x: int
      ensures Holders(p, x) == if lo <= x < hi then 1 else 0
    {
      CountOne(p.free[0], x);
    }
  }

  // ---- The routines

  class Memory {
    const lo: int
    const hi: int
    const align: int
    var free: seq<Block>
    var alloc: seq<Held>
    ghost var reserved: seq<Block>
    /** How many descriptors are out: taken from `xmgetmd` and not given back. */
    var mds: int

    ghost function S(): (r: Pool)
      reads this
    {
      Pool(lo, hi, align, free, alloc, reserved)
    }

    ghost predicate Valid()
      reads this
    {
      Ok(S()) && mds == |free| + |alloc|
    }

    /** A fresh pool is one free block. */
    constructor (start: int, end: int, unit: int)
      requires 0 <= start < end < 0x1_0000_0000 && end - start <= 0x7fff_fffc && (unit == 2 || unit == 4)
      requires start % unit == 0 && end % unit == 0
      ensures Valid() && S() == Pool(start, end, unit, [Block(start, end - start)], [], [])
    {
      lo, hi, align := start, end, unit;
      free, alloc, reserved, mds := [Block(start, end - start)], [], [], 1;
      new;
      FreshOk(start, end, unit);
    }

    /** The size of the largest free block; trimming it to the allocation unit never has anything to do. */
    method FfitMax() returns (size: int)
      requires Valid()
      ensures (free == [] && size == 0) || (exists i :: 0 <= i < |free| && free[i].length == size)
      ensures forall i :: 0 <= i < |free| ==> free[i].length <= size
    {
      hide Tiles, Separated;
      var i: nat, at: nat := 0, 0;
      size := 0;
      while i < |free|
        invariant i <= |free| && forall j :: 0 <= j < i ==> free[j].length <= size
        invariant i == 0 ==> size == 0
        invariant i > 0 ==> at < |free| && free[at].length == size
      {
        assert Fits(free[i], align);
        if free[i].length > size {
          size, at := free[i].length, i;
        }
        i := i + 1;
      }
      size := size - size % align;
    }

    /** First fit; `md` says whether `xmgetmd` finds a descriptor. */
    method Ffit(amount: int, own: int, md: bool) returns (r: Answer)
      requires Valid() && 0 < amount < 0x8000_0000
      modifies this
      ensures (S(), r) == Malloc(old(S()), amount, own, md)
      ensures amount <= 0x8000_0000 - align ==> Valid()
    {
      hide Ok, Rounded, U32, S32;
      AlignOf(S());
      var n := Rounded(amount, align);
      if amount <= 0x8000_0000 - align {
        RoundedIs(amount, align);
        FitKeeps(S(), n, own, md);
      }
      var k: nat := 0;
      while k < |free| && free[k].length < n
        invariant k <= |free| && forall i :: 0 <= i < k ==> free[i].length < n
      {
        k := k + 1;
      }
      assert k == FindFit(free, n);
      if k == |free| {
        return Null;
      }
      var b := free[k];
      if b.length == n {
        free := free[..k] + free[k + 1..];
      } else {
        if !md {
          return Null;
        }
        mds := mds + 1;
        free := free[..k] + [Block(U32(b.start + n), S32(b.length - n))] + free[k + 1..];
        b := Block(b.start, n);
      }
      alloc := [Held(b, own)] + alloc;
      r := Got(b);
    }

    /** Free the block that starts at `start`. */
    method FreeIt(start: int)
      requires Valid()
      modifies this
      ensures Valid() && S() == Release(old(S()), start)
    {
      hide Ok;
      var i: nat := 0;
      while i < |alloc| && alloc[i].block.start != start
        invariant i <= |alloc| && forall j :: 0 <= j < i ==> alloc[j].block.start != start
      {
        i := i + 1;
      }
      assert i == FindHeld(alloc, start);
      if i == |alloc| {
        return;
      }
      ReleaseKeeps(S(), i);
      var b := alloc[i].block;
      alloc := alloc[..i] + alloc[i + 1..];
      AddFree(b);
    }

    /** The second half of `freeit`: insert in address order and join what touches. */
    method AddFree(b: Block)
      modifies this
      ensures free == Insert(old(free), b) && mds == old(mds) + |free| - |old(free)| - 1
      ensures alloc == old(alloc) && reserved == old(reserved)
    {
      var k: nat := 0;
      while k < |free| && b.start > free[k].start
        invariant k <= |free| && forall j :: 0 <= j < k ==> free[j].start < b.start
      {
        k := k + 1;
      }
      assert k == FindPlace(free, b.start);
      var mid, j := b, k;
      if k < |free| && b.End() == free[k].start {
        mid, j, mds := Block(b.start, b.length + free[k].length), k + 1, mds - 1;
      }
      if k > 0 && free[k - 1].End() == mid.start {
        free := free[..k - 1] + [Block(free[k - 1].start, free[k - 1].length + mid.length)] + free[j..];
        mds := mds - 1;
      } else {
        free := free[..k] + [mid] + free[j..];
      }
    }

    /** Cut allocated block i down to newlen rounded to four; false when no descriptor is to be had. */
    method ShrinkIt(i: nat, newlen: int, md: bool) returns (ok: bool)
      requires Valid() && i < |alloc|
      modifies this
      ensures ok == md
      ensures S() == if md then Shrunk(old(S()), i, Rounded(newlen, 4)) else old(S())
      ensures mds == |free| + |alloc|
    {
      hide Ok, Rounded, U32, S32, Insert;
      if !md {
        return false;
      }
      var m, n := alloc[i].block, Rounded(newlen, 4);
      mds := mds + 1;
      alloc := alloc[i := alloc[i].(block := Block(m.start, n))];
      // The rest goes on the head of the allocated list, where freeing it finds it first.
      AddFree(Block(U32(m.start + n), S32(m.length - n)));
      ok := true;
    }

    /** `Mfree`: free a block by its address. */
    method Xmfree(addr: int) returns (r: Code)
      requires Valid()
      modifies this
      ensures Valid()
      ensures r == BadAddress <==> forall i :: 0 <= i < |old(alloc)| ==> old(alloc)[i].block.start != addr
      ensures r == BadAddress ==> S() == old(S())
      ensures r != BadAddress ==> r == Done && S() == Release(old(S()), addr)
    {
      hide Ok, Insert;
      if !(lo <= addr < hi) {
        forall i | 0 <= i < |alloc|
          ensures alloc[i].block.start != addr
        {
          HeldInside(S(), i);
          HeldFits(S(), i);
        }
        return BadAddress;
      }
      var i: nat := 0;
      while i < |alloc| && alloc[i].block.start != addr
        invariant i <= |alloc| && forall j :: 0 <= j < i ==> alloc[j].block.start != addr
      {
        i := i + 1;
      }
      if i == |alloc| {
        return BadAddress;
      }
      FreeIt(addr);
      r := Done;
    }

    /** `Mshrink`. */
    method Xsetblk(addr: int, len: int, md: bool) returns (r: Code)
      requires Valid()
      modifies this
      ensures (S(), r) == Mshrink(old(S()), addr, len, md)
      ensures Valid() <==> (md && ShrinkReached(old(S()), addr, len) ==> ShrinkFine(old(S()), addr, len))
    {
      hide Ok, Rounded, Insert, Release, ShrinkReached, ShrinkFine, Shrunk;
      MshrinkKeepsIff(S(), addr, len, md);
      AlignOf(S());
      if !(lo <= addr < hi) {
        return BadAddress;
      }
      var i: nat := 0;
      while i < |alloc| && alloc[i].block.start != addr
        invariant i <= |alloc| && forall j :: 0 <= j < i ==> alloc[j].block.start != addr
      {
        i := i + 1;
      }
      assert i == FindHeld(alloc, addr);
      if i == |alloc| {
        return BadAddress;
      }
      var n := Rounded(len, align);
      if alloc[i].block.length < n {
        return GrowthRefused;
      }
      if alloc[i].block.length == n {
        return Done;
      }
      if n == 0 {
        FreeIt(addr);
        return Done;
      }
      var ok := ShrinkIt(i, n, md);
      r := if ok then Done else NoDescriptor;
    }

    /** Free everything a process owns: exactly the blocks of others stay allocated. */
    method FreeAllOwned(own: int)
      requires Valid()
      modifies this
      ensures Valid() && S() == FreeOwned(old(S()), 0, own)
      ensures alloc == NotOwned(old(alloc), own) && reserved == old(reserved)
    {
      hide Ok, Insert, Release, Swept;
      FreeOwnedKeeps(S(), 0, own);
      SweptStep(alloc, 0, own);
      var i: nat := 0;
      while i < |alloc|
        invariant Valid() && i <= |alloc|
        invariant FreeOwned(S(), i, own) == FreeOwned(old(S()), 0, own)
        decreases |alloc| - i
      {
        if alloc[i].own == own {
          ReleaseKeeps(S(), i);
          FreeIt(alloc[i].block.start);
        } else {
          i := i + 1;
        }
      }
    }

    /** Drop the descriptors of everything a process owns. */
    method ReserveBlocks(own: int)
      requires Valid()
      modifies this
      ensures Valid() && S() == Reserve(old(S()), own)
    {
      hide Ok, Swept, Without;
      ReserveKeeps(S(), own);
      SweptStep(alloc, 0, own);
      ghost var a := alloc;
      reserved := reserved + OwnedBlocks(alloc, own);
      var i: nat := 0;
      while i < |alloc|
        invariant i <= |alloc| && free == old(free) && mds == |free| + |alloc|
        invariant reserved == old(reserved) + OwnedBlocks(a, own)
        invariant Swept(alloc, i, own) == NotOwned(a, own)
        decreases |alloc| - i
      {
        SweptStep(alloc, i, own);
        if alloc[i].own == own {
          WithoutIs(alloc, i);
          alloc := alloc[..i] + alloc[i + 1..];
          mds := mds - 1;
        } else {
          i := i + 1;
        }
      }
      SweptStep(alloc, i, own);
    }
  }

  lemma WithoutIs(a: seq<Held>, i: nat)
    requires i < |a|
    ensures Without(a, i) == a[..i] + a[i + 1..] && |Without(a, i)| == |a| - 1
  {
  }
}
