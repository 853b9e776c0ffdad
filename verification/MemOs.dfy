/** The operating system's own pool: fixed-size blocks, some of them shared by three memory descriptors. */
module MemOs {
  import opened Basics

  /** Sizes in words on the 68000 port: control word, payload, and the blocks of the pool. */
  const BLOCK_PAD: nat := 1
  const PAYLOAD: nat := 64
  const NUM_BLOCKS: nat := 118
  const BLOCK_STEP: nat := BLOCK_PAD + PAYLOAD
  const LEN_OSM: nat := BLOCK_STEP * NUM_BLOCKS

  /** Which of the three descriptors of an MDBLOCK are in use. */
  datatype Use = Use(a: bool, b: bool, c: bool)
  {
    function At(i: nat): (r: bool)
      requires i < 3
    {
      if i == 0 then a else if i == 1 then b else c
    }
    function With(i: nat, u: bool): (r: Use)
      requires i < 3
    {
      if i == 0 then this.(a := u) else if i == 1 then this.(b := u) else this.(c := u)
    }
    function Count(): (r: nat) {
      (if a then 1 else 0) + (if b then 1 else 0) + (if c then 1 else 0)
    }
    /** The first entry not in use, or 3. */
    function FirstFree(): (r: nat) {
      if !a then 0 else if !b then 1 else if !c then 2 else 3
    }
  }

  /**
   * The pool. Blocks are numbered in the order in which they are carved from the array; `quick` is
   * the list of freed blocks, `chain` the partly used MDBLOCKs, `mdbs` all MDBLOCKs, `live` the
   * blocks handed out for other purposes.
   */
  datatype Pool = Pool(carved: nat, quick: seq<nat>, chain: seq<nat>, mdbs: map<nat, Use>, live: set<nat>)

  datatype Md = NoMd | Md(block: nat, index: nat)

  datatype Blk = NoBlock | Got(block: nat)

  /** Every carved block is a freed one, an MDBLOCK or handed out, and only one of these. */
  ghost predicate Partition(p: Pool) {
    && (forall b: nat :: b < p.carved <==> b in p.quick || b in p.mdbs || b in p.live)
    && (forall b :: b in p.quick ==> b !in p.mdbs && b !in p.live)
    && (forall b :: b in p.live ==> b !in p.mdbs)
  }

  /** The chain holds exactly the MDBLOCKs with one or two entries in use, and there are none with no entry in use. */
  predicate Chained(p: Pool) {
    && (forall b :: b in p.chain ==> b in p.mdbs)
    && (forall b :: b in p.mdbs ==> p.mdbs[b].Count() >= 1 && (b in p.chain <==> p.mdbs[b].Count() <= 2))
  }

  /** Entry i of block b is in use as a memory descriptor. */
  predicate InUse(p: Pool, b: nat, i: nat) { b in p.mdbs && i < 3 && p.mdbs[b].At(i) }

  /** Nothing is left: every block has been carved, and there is neither a freed one nor a partly used MDBLOCK. */
  predicate Empty(p: Pool) { p.quick == [] && p.carved == NUM_BLOCKS }

  ghost predicate Ok(p: Pool) {
    p.carved <= NUM_BLOCKS && NoDups(p.quick) && NoDups(p.chain) && Partition(p) && Chained(p)
  }

  // ---- Where blocks lie

  /** The word at which the payload of block b begins. */
  function Addr(b: nat): (r: nat) { b * BLOCK_STEP + BLOCK_PAD }

  /** Different blocks do not overlap, and all lie inside the array. */
  lemma BlocksApart(b: nat, c: nat)
    requires b < NUM_BLOCKS && c < NUM_BLOCKS && b != c
    ensures Addr(b) + PAYLOAD <= LEN_OSM && (Addr(b) + PAYLOAD <= Addr(c) || Addr(c) + PAYLOAD <= Addr(b))
  {
  }

  // ---- Operations on values

  /** A freed block if there is one, otherwise the next of the array. */
  function GetBlock(p: Pool): (r: (Pool, Blk)) {
    if p.quick != [] then (p.(quick := p.quick[1..]), Got(p.quick[0]))
    else if p.carved < NUM_BLOCKS then (p.(carved := p.carved + 1), Got(p.carved))
    else (p, NoBlock)
  }

  function GetBlk(p: Pool): (r: (Pool, Blk)) {
    var (q, r) := GetBlock(p);
    if r.Got? then (q.(live := q.live + {r.block}), r) else (q, r)
  }

  function FreBlk(p: Pool, b: nat): (r: Pool) {
    p.(quick := [b] + p.quick, live := p.live - {b})
  }

  /** Take the first free entry of MDBLOCK b; a block that becomes full leaves the chain. */
  function TakeEntry(p: Pool, b: nat): (r: (Pool, Md))
    requires b in p.mdbs
  {
    var i := p.mdbs[b].FirstFree();
    if i == 3 then (p, NoMd)
    else
      var u := p.mdbs[b].With(i, true);
      (p.(mdbs := p.mdbs[b := u], chain := if u.Count() == 3 then Remove(p.chain, b) else p.chain), Md(b, i))
  }

  function GetMd(p: Pool): (r: (Pool, Md)) {
    if p.chain != [] then
      if p.chain[0] in p.mdbs then TakeEntry(p, p.chain[0]) else (p, NoMd)
    else
      var (q, r) := GetBlock(p);
      if r.NoBlock? then (p, NoMd)
      else TakeEntry(q.(mdbs := q.mdbs[r.block := Use(false, false, false)], chain := [r.block]), r.block)
  }

  /** Free entry i of MDBLOCK b; an entry that is not in use is left alone. */
  function FreMd(p: Pool, b: nat, i: nat): (r: Pool) {
    if b !in p.mdbs || i >= 3 || !p.mdbs[b].At(i) then p
    else
      var u := p.mdbs[b].With(i, false);
      match u.Count()
      case 0 => p.(mdbs := p.mdbs - {b}, chain := Remove(p.chain, b), quick := [b] + p.quick)
      case 1 => p.(mdbs := p.mdbs[b := u])
      case _ => p.(mdbs := p.mdbs[b := u], chain := [b] + p.chain)
  }

  // ---- What they keep

  lemma DistinctTail(s: seq<nat>)
    requires NoDups(s) && s != []
    ensures NoDups(s[1..]) && s[0] !in s[1..] && forall b :: b in s <==> b == s[0] || b in s[1..]
  {
    assert s == [s[0]] + s[1..];
  }

  lemma DistinctHead(b: nat, s: seq<nat>)
    requires NoDups(s) && b !in s
    ensures NoDups([b] + s) && forall c :: c in [b] + s <==> c == b || c in s
  {
    var t := [b] + s;
    assert forall i :: 1 <= i < |t| ==> t[i] == s[i - 1];
  }

  lemma UseFacts(u: Use, i: nat)
    requires i < 3
    ensures u.With(i, true).Count() == u.Count() + if u.At(i) then 0 else 1
    ensures u.With(i, false).Count() == u.Count() - if u.At(i) then 1 else 0
    ensures u.FirstFree() == 3 <==> u.Count() == 3
    ensures u.FirstFree() < 3 ==> !u.At(u.FirstFree())
    ensures u.At(i) ==> u.Count() >= 1
    ensures u.Count() <= 3
  {
  }

  /** The pool with block b neither freed nor in use yet. */
  ghost predicate Loose(p: Pool, b: nat) {
    && b < p.carved <= NUM_BLOCKS && NoDups(p.quick) && NoDups(p.chain) && Chained(p)
    && b !in p.quick && b !in p.mdbs && b !in p.live
    && (forall c: nat :: c < p.carved <==> c == b || c in p.quick || c in p.mdbs || c in p.live)
    && (forall c :: c in p.quick ==> c !in p.mdbs && c !in p.live)
    && (forall c :: c in p.live ==> c !in p.mdbs)
  }

  lemma GetBlockKeeps(p: Pool)
    requires Ok(p)
    ensures var (q, r) := GetBlock(p);
      && (r.NoBlock? ==> q == p && p.quick == [] && p.carved == NUM_BLOCKS)
      && (r.Got? ==> Loose(q, r.block) && q.mdbs == p.mdbs && q.live == p.live && q.chain == p.chain && r.block !in p.mdbs && r.block !in p.live)
  {
    if p.quick != [] {
      DistinctTail(p.quick);
      assert p.quick[0] in p.quick;
    } else if p.carved < NUM_BLOCKS {
      assert p.carved !in p.mdbs && p.carved !in p.live;
    }
  }

  lemma GetBlkKeeps(p: Pool)
    requires Ok(p)
    ensures var (q, r) := GetBlk(p);
      && Ok(q) && (r.Got? ==> r.block !in p.live && r.block !in p.mdbs && q.live == p.live + {r.block} && q.mdbs == p.mdbs)
      && (r.NoBlock? <==> Empty(p)) && (r.NoBlock? ==> q == p)
  {
    GetBlockKeeps(p);
  }

  lemma FreBlkKeeps(p: Pool, b: nat)
    requires Ok(p) && b in p.live
    ensures Ok(FreBlk(p, b)) && b in FreBlk(p, b).quick && b !in FreBlk(p, b).live
    ensures FreBlk(p, b).live + {b} == p.live && FreBlk(p, b).mdbs == p.mdbs && FreBlk(p, b).carved == p.carved
    ensures forall c :: c in FreBlk(p, b).quick <==> c == b || c in p.quick
    ensures GetBlk(FreBlk(p, b)) == (p, Got(b))
  {
    DistinctHead(b, p.quick);
  }

  lemma TakeEntryKeeps(p: Pool, b: nat)
    requires b in p.mdbs && p.carved <= NUM_BLOCKS && NoDups(p.quick) && NoDups(p.chain) && Partition(p)
    requires b in p.chain && p.mdbs[b].Count() <= 2
    requires forall c :: c in p.chain ==> c in p.mdbs
    requires forall c :: c in p.mdbs && c != b ==> p.mdbs[c].Count() >= 1 && (c in p.chain <==> p.mdbs[c].Count() <= 2)
    ensures var (q, r) := TakeEntry(p, b);
      && Ok(q) && r.Md? && r.block == b && r.index < 3 && !p.mdbs[b].At(r.index) && q.live == p.live
      && q.mdbs == p.mdbs[b := p.mdbs[b].With(r.index, true)]
  {
    hide NoDups;
    var i := p.mdbs[b].FirstFree();
    UseFacts(p.mdbs[b], 0);
    UseFacts(p.mdbs[b], i);
    RemoveKeeps(p.chain, b);
  }

  /** A descriptor handed out was not in use, and its block was nobody else's. */
  lemma GetMdKeeps(p: Pool)
    requires Ok(p)
    ensures var (q, r) := GetMd(p);
      && Ok(q) && q.live == p.live
      && (r.NoMd? ==> q == p) && (r.NoMd? <==> p.chain == [] && Empty(p))
      && (r.Md? ==> r.index < 3 && r.block !in p.live && r.block in q.mdbs && q.mdbs[r.block].At(r.index))
      && (r.Md? && r.block in p.mdbs ==> !p.mdbs[r.block].At(r.index) && q.mdbs == p.mdbs[r.block := p.mdbs[r.block].With(r.index, true)])
      && (r.Md? && r.block !in p.mdbs ==> q.mdbs == p.mdbs[r.block := Use(false, false, false).With(r.index, true)])
  {
    hide TakeEntry, NoDups, GetBlock;
    if p.chain != [] {
      assert p.chain[0] in p.chain;
      TakeEntryKeeps(p, p.chain[0]);
    } else {
      GetBlockKeeps(p);
      var (q, r) := GetBlock(p);
      if r.Got? {
        var t := q.(mdbs := q.mdbs[r.block := Use(false, false, false)], chain := [r.block]);
        OneDistinct(r.block);
        TakeEntryKeeps(t, r.block);
      }
    }
  }

  /** What GetMd puts in use is that one entry. */
  lemma GetMdUses(p: Pool, c: nat, j: nat)
    requires Ok(p)
    ensures var (q, r) := GetMd(p);
      && (r.Md? ==> !InUse(p, r.block, r.index) && InUse(q, r.block, r.index))
      && (InUse(q, c, j) <==> InUse(p, c, j) || r == Md(c, j))
  {
    hide GetMd, Ok;
    var (q, r) := GetMd(p);
    GetMdKeeps(p);
    if r.Md? {
      var u := if r.block in p.mdbs then p.mdbs[r.block] else Use(false, false, false);
      WithTrue(u, r.index, j);
    }
  }

  lemma WithTrue(u: Use, i: nat, j: nat)
    requires i < 3
    ensures u.With(i, true).At(i) && (j < 3 ==> u.With(i, true).At(j) == (u.At(j) || j == i))
    ensures j < 3 ==> !Use(false, false, false).At(j)
  {
  }

  lemma OneDistinct(b: nat)
    ensures NoDups([b])
  {
  }

  lemma FreMdKeeps(p: Pool, b: nat, i: nat)
    requires Ok(p)
    ensures Ok(FreMd(p, b, i))
  {
    hide NoDups;
    if b in p.mdbs && i < 3 && p.mdbs[b].At(i) {
      UseFacts(p.mdbs[b], i);
      RemoveKeeps(p.chain, b);
      var u := p.mdbs[b].With(i, false);
      if u.Count() == 0 {
        DistinctHead(b, p.quick);
      } else if u.Count() == 2 {
        DistinctHead(b, p.chain);
      }
    }
  }

  /** A descriptor that is freed is not in use any more, every other one is as it was, and a block with none in use is free. */
  lemma FreMdFrees(p: Pool, b: nat, i: nat, c: nat, j: nat)
    requires Ok(p)
    ensures InUse(FreMd(p, b, i), c, j) <==> InUse(p, c, j) && (c != b || j != i)
    ensures FreMd(p, b, i).live == p.live && FreMd(p, b, i).carved == p.carved
    ensures InUse(p, b, i) && (forall k :: 0 <= k < 3 && k != i ==> !InUse(p, b, k)) ==>
              b in FreMd(p, b, i).quick && b !in FreMd(p, b, i).mdbs
    ensures !InUse(p, b, i) ==> FreMd(p, b, i) == p
  {
    hide NoDups, Partition;
    if InUse(p, b, i) {
      UseFacts(p.mdbs[b], i);
      OnlyOne(p.mdbs[b], i, j);
      if forall k :: 0 <= k < 3 && k != i ==> !InUse(p, b, k) {
        LastOne(p, b, i);
      }
    }
  }

  lemma OnlyOne(u: Use, i: nat, j: nat)
    requires i < 3 && u.At(i)
    ensures j < 3 ==> u.With(i, false).At(j) == (u.At(j) && j != i)
    ensures u.With(i, false).Count() == 0 && j < 3 && j != i ==> !u.At(j)
  {
  }

  lemma LastOne(p: Pool, b: nat, i: nat)
    requires InUse(p, b, i) && (forall k :: 0 <= k < 3 && k != i ==> !InUse(p, b, k))
    ensures p.mdbs[b].With(i, false).Count() == 0
  {
    assert (i != 0 ==> !InUse(p, b, 0)) && (i != 1 ==> !InUse(p, b, 1)) && (i != 2 ==> !InUse(p, b, 2));
  }

  /** What is taken and freed again leaves the same descriptors in use. */
  lemma GetFreMd(p: Pool, c: nat, j: nat)
    requires Ok(p)
    ensures var (q, r) := GetMd(p);
      && Ok(q) && (r.Md? ==> (InUse(FreMd(q, r.block, r.index), c, j) <==> InUse(p, c, j)))
  {
    hide GetMd, FreMd, Ok, InUse;
    var (q, r) := GetMd(p);
    GetMdKeeps(p);
    GetMdUses(p, c, j);
    if r.Md? {
      FreMdFrees(q, r.block, r.index, c, j);
    }
  }

  /** Freeing one descriptor leaves every other one in use. */
  lemma FreMdOthers(p: Pool, b: nat, i: nat, c: nat, j: nat)
    requires c in p.mdbs && j < 3 && p.mdbs[c].At(j) && (c != b || j != i)
    ensures c in FreMd(p, b, i).mdbs && FreMd(p, b, i).mdbs[c].At(j)
  {
  }

  // ---- Counting

  function Elements(s: seq<nat>): (r: set<nat>)
    ensures forall k :: k in r <==> k in s
    decreases s
  {
    if s == [] then {} else {s[0]} + Elements(s[1..])
  }

  lemma {:induction false} ElementsCount(s: seq<nat>)
    requires NoDups(s)
    ensures |Elements(s)| == |s|
    decreases s
  {
    if s != [] {
      DistinctTail(s);
      ElementsCount(s[1..]);
    }
  }

  lemma SumSizes(a: set<nat>, b: set<nat>, c: set<nat>)
    requires a !! b && a !! c && b !! c
    ensures |a + b + c| == |a| + |b| + |c|
  {
  }

  /** Carved blocks are the freed ones, the MDBLOCKs and those handed out. */
  lemma Conserved(p: Pool)
    requires Ok(p)
    ensures p.carved == |p.quick| + |p.mdbs.Keys| + |p.live|
  {
    hide Chained, Elements, UpTo, NoDups;
    UpToIs(p.carved);
    ElementsCount(p.quick);
    var a, b := Elements(p.quick), p.mdbs.Keys;
    SumSizes(a, b, p.live);
    assert UpTo(p.carved) == a + b + p.live;
  }

  // ---- Runs

  datatype Op = DoGetMd | DoFreMd(block: nat, index: nat) | DoGetBlk | DoFreBlk(block: nat)

  function Apply(p: Pool, op: Op): (r: Pool) {
    match op
    case DoGetMd => GetMd(p).0
    case DoFreMd(b, i) => FreMd(p, b, i)
    case DoGetBlk => GetBlk(p).0
    case DoFreBlk(b) => if b in p.live then FreBlk(p, b) else p
  }

  function Run(p: Pool, ops: seq<Op>): (r: Pool)
    decreases |ops|
  {
    if ops == [] then p else Run(Apply(p, ops[0]), ops[1..])
  }

  lemma {:induction false} RunKeeps(p: Pool, ops: seq<Op>)
    requires Ok(p)
    ensures Ok(Run(p, ops))
    decreases |ops|
  {
    hide Ok, GetMd, FreMd, GetBlk, FreBlk;
    if ops != [] {
      match ops[0] {
        case DoGetMd => GetMdKeeps(p);
        case DoFreMd(b, i) => FreMdKeeps(p, b, i);
        case DoGetBlk => GetBlkKeeps(p);
        case DoFreBlk(b) =>
          if b in p.live {
            FreBlkKeeps(p, b);
          }
      }
      RunKeeps(Apply(p, ops[0]), ops[1..]);
    }
  }

  // ---- The routines

  class OsMemory {
    var osmptr: nat
    var osmlen: nat
    var quick: seq<nat>
    var chain: seq<nat>
    var mdbs: map<nat, Use>
    ghost var live: set<nat>

    ghost function S(): (r: Pool)
      reads this
    {
      Pool(osmptr / BLOCK_STEP, quick, chain, mdbs, live)
    }

    ghost predicate Valid()
      reads this
    {
      osmptr % BLOCK_STEP == 0 && osmptr + osmlen == LEN_OSM && Ok(S())
    }

    constructor ()
      ensures Valid() && S() == Pool(0, [], [], map[], {})
    {
      osmptr, osmlen, quick, chain, mdbs, live := 0, LEN_OSM, [], [], map[], {};
    }

    /** The next n words of the array. */
    method GetOsm(n: nat) returns (ok: bool, at: nat)
      modifies this`osmptr, this`osmlen
      ensures ok == (n <= old(osmlen))
      ensures ok ==> at == old(osmptr) && osmptr == old(osmptr) + n && osmlen == old(osmlen) - n
      ensures !ok ==> osmptr == old(osmptr) && osmlen == old(osmlen)
    {
      ok, at := n <= osmlen, osmptr;
      if ok {
        osmptr, osmlen := osmptr + n, osmlen - n;
      }
    }

    /** A block, freed or carved. */
    method FindBlock() returns (r: Blk)
      requires Valid()
      modifies this`quick, this`osmptr, this`osmlen
      ensures (S(), r) == GetBlock(old(S()))
      ensures osmptr % BLOCK_STEP == 0 && osmptr + osmlen == LEN_OSM
    {
      hide Ok;
      if quick != [] {
        r := Got(quick[0]);
        quick := quick[1..];
        return;
      }
      Words(osmptr, osmlen);
      var ok, at := GetOsm(PAYLOAD + BLOCK_PAD);
      r := if ok then Got(at / BLOCK_STEP) else NoBlock;
    }

    method XmGetBlk() returns (r: Blk)
      requires Valid()
      modifies this
      ensures Valid() && (S(), r) == GetBlk(old(S()))
    {
      hide Ok, GetBlock;
      GetBlkKeeps(S());
      r := FindBlock();
      if r.Got? {
        live := live + {r.block};
      }
    }

    method XmFreBlk(b: nat)
      requires Valid() && b in live
      modifies this
      ensures Valid() && S() == FreBlk(old(S()), b)
    {
      FreBlkKeeps(S(), b);
      quick := [b] + quick;
      live := live - {b};
    }

    /** Take a block off the chain of partly used MDBLOCKs. */
    method UnlinkMdblock(b: nat) returns (found: bool)
      modifies this`chain
      ensures chain == Remove(old(chain), b) && found == (b in old(chain))
    {
      var i: nat := 0;
      assert chain[0..] == chain;
      while i < |chain|
        invariant chain == old(chain) && i <= |chain| && b !in chain[..i]
        invariant chain[..i] + Remove(chain[i..], b) == Remove(chain, b)
      {
        RemoveOne(chain, i, b);
        if chain[i] == b {
          chain := chain[..i] + chain[i + 1..];
          return true;
        }
        i := i + 1;
      }
      found := false;
    }

    /** A memory descriptor. */
    method XmGetMd() returns (r: Md)
      requires Valid()
      modifies this
      ensures Valid() && (S(), r) == GetMd(old(S()))
    {
      hide Ok, GetBlock, Remove;
      GetMdKeeps(S());
      ChainKnown(S());
      ghost var p := S();
      if chain == [] {
        GetBlockKeeps(S());
        var blk := FindBlock();
        if blk.NoBlock? {
          return NoMd;
        }
        mdbs := mdbs[blk.block := Use(false, false, false)];
        chain := [blk.block];
      }
      var b := chain[0];
      var i: nat, avail: nat := 0, 0;
      var got: nat := 3;
      var u := mdbs[b];
      while i < 3
        invariant i <= 3 && got == (if u.FirstFree() < i then u.FirstFree() else 3)
        invariant avail == (if !u.a && i > 0 && got != 0 then 1 else 0) + (if !u.b && i > 1 && got != 1 then 1 else 0) + (if !u.c && i > 2 && got != 2 then 1 else 0)
      {
        if !u.At(i) {
          if got == 3 {
            got := i;
          } else {
            avail := avail + 1;
          }
        }
        i := i + 1;
      }
      if got == 3 {
        return NoMd;
      }
      mdbs := mdbs[b := u.With(got, true)];
      if avail == 0 {
        var found := UnlinkMdblock(b);
      }
      r := Md(b, got);
    }

    /** Give a descriptor back. */
    method XmFreMd(b: nat, i: nat)
      requires Valid() && b in mdbs && i < 3
      modifies this
      ensures Valid() && S() == FreMd(old(S()), b, i)
    {
      hide Ok, Remove;
      FreMdKeeps(S(), b, i);
      MdbOnChain(S(), b);
      if !mdbs[b].At(i) {
        return;
      }
      var u := mdbs[b].With(i, false);
      UseFacts(mdbs[b], i);
      mdbs := mdbs[b := u];
      var avail := 3 - u.Count();
      if avail == 3 {
        var found := UnlinkMdblock(b);
        if found {
          assert old(mdbs)[b := u] - {b} == old(mdbs) - {b};
          mdbs := mdbs - {b};
          quick := [b] + quick;
        }
      } else if avail == 1 {
        chain := [b] + chain;
      }
    }
  }

  lemma Words(ptr: nat, len: nat)
    requires ptr % BLOCK_STEP == 0 && ptr + len == LEN_OSM
    ensures ptr / BLOCK_STEP <= NUM_BLOCKS && (BLOCK_STEP <= len <==> ptr / BLOCK_STEP < NUM_BLOCKS)
    ensures BLOCK_STEP <= len ==> (ptr + BLOCK_STEP) % BLOCK_STEP == 0 && (ptr + BLOCK_STEP) / BLOCK_STEP == ptr / BLOCK_STEP + 1
  {
  }

  lemma ChainKnown(p: Pool)
    requires Ok(p)
    ensures p.chain != [] ==> p.chain[0] in p.mdbs && p.mdbs[p.chain[0]].Count() <= 2
  {
    if p.chain != [] {
      assert p.chain[0] in p.chain;
    }
  }

  lemma MdbOnChain(p: Pool, b: nat)
    requires Ok(p) && b in p.mdbs
    ensures b in p.chain <==> p.mdbs[b].Count() <= 2
  {
  }

  lemma RemoveOne(s: seq<nat>, i: nat, b: nat)
    requires i < |s|
    ensures s[..i + 1] == s[..i] + [s[i]]
    ensures s[i] == b ==> s[..i] + Remove(s[i..], b) == s[..i] + s[i + 1..]
    ensures s[i] != b ==> s[..i] + Remove(s[i..], b) == s[..i + 1] + Remove(s[i + 1..], b)
  {
    assert s[i..][0] == s[i] && s[i..][1..] == s[i + 1..];
  }
}
