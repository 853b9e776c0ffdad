/** The compact relocation stream: ULEB128 numbers and the slot addresses they spell. */
module ElfUleb {
  import opened Basics

  const TWO_32: int := 0x1_0000_0000
  /** File offsets above this are refused before any seek. */
  const LONG_MAX: int := 0x7fff_ffff

  datatype Number = Bad | Val(value: nat, next: nat)

  // ---- One number

  /** The number that starts at `pos`, where k of its bytes have been read before. */
  function Decode(f: seq<Byte>, pos: nat, limit: nat, k: nat): (r: Number)
    decreases |f| - pos
  {
    if pos >= limit || pos > LONG_MAX || pos >= |f| then Bad
    else
      var b := f[pos];
      if k >= 5 || (k == 4 && b % 128 >= 16) then Bad
      else if b < 128 then Val(b, pos + 1)
      else
        match Decode(f, pos + 1, limit, k + 1)
        case Bad => Bad
        case Val(v, n) => Val(b % 128 + 128 * v, n)
  }

  /** The shortest encoding of v. */
  function Encode(v: nat): (r: seq<Byte>)
    ensures |r| >= 1
    decreases v
  {
    if v < 128 then [v] else [128 + v % 128] + Encode(v / 128)
  }

  /** What is left of 32 bits when k groups of seven are gone. */
  function Room(k: nat): (r: nat) {
    if k == 0 then 0x1_0000_0000 else if k == 1 then 0x200_0000 else if k == 2 then 0x4_0000
    else if k == 3 then 0x800 else if k == 4 then 0x10 else 0
  }

  predicate Starts(f: seq<Byte>, pos: nat, s: seq<Byte>) {
    pos + |s| <= |f| && f[pos..pos + |s|] == s
  }

  lemma StartsTail(f: seq<Byte>, pos: nat, s: seq<Byte>)
    requires Starts(f, pos, s) && s != []
    ensures f[pos] == s[0] && Starts(f, pos + 1, s[1..])
  {
    assert f[pos..pos + |s|][0] == f[pos];
    assert f[pos + 1..pos + |s|] == f[pos..pos + |s|][1..];
  }

  /** Decoding undoes encoding, for every 32-bit value. */
  lemma {:induction false} DecodeEncode(f: seq<Byte>, pos: nat, limit: nat, k: nat, v: nat)
    requires v < Room(k) && Starts(f, pos, Encode(v)) && pos + |Encode(v)| <= limit && limit <= LONG_MAX
    ensures Decode(f, pos, limit, k) == Val(v, pos + |Encode(v)|)
    decreases v
  {
    StartsTail(f, pos, Encode(v));
    if v >= 128 {
      var b := 128 + v % 128;
      assert Encode(v)[0] == b && Encode(v)[1..] == Encode(v / 128);
      DecodeEncode(f, pos + 1, limit, k + 1, v / 128);
      assert b % 128 == v % 128;
    }
  }

  /** A decoded number fits what is left of 32 bits, and lies before the limit. */
  lemma {:induction false} DecodeRange(f: seq<Byte>, pos: nat, limit: nat, k: nat)
    ensures var r := Decode(f, pos, limit, k);
      r.Val? ==> r.value < Room(k) && pos < r.next <= limit && r.next <= |f| && r.next <= pos + 5
    ensures var r := Decode(f, pos, limit, k); r.Val? ==> k < 5 && r.next - pos <= 5 - k
    decreases |f| - pos
  {
    if pos < limit && pos < |f| {
      DecodeRange(f, pos + 1, limit, k + 1);
    }
  }

  /** Nothing at or past the limit is looked at. */
  lemma {:induction false} DecodeLocal(f: seq<Byte>, g: seq<Byte>, pos: nat, limit: nat, k: nat)
    requires limit <= |f| && limit <= |g| && f[..limit] == g[..limit]
    ensures Decode(f, pos, limit, k) == Decode(g, pos, limit, k)
    decreases |f| - pos
  {
    if pos < limit {
      assert f[pos] == f[..limit][pos] && g[pos] == g[..limit][pos];
      DecodeLocal(f, g, pos + 1, limit, k + 1);
    }
  }

  /** The bytes read are the shortest encoding exactly when they do not end in a padding zero. */
  lemma {:induction false} DecodeShortest(f: seq<Byte>, pos: nat, limit: nat, k: nat)
    requires Decode(f, pos, limit, k).Val?
    ensures var r := Decode(f, pos, limit, k);
      && pos < r.next <= |f|
      && (f[pos..r.next] == Encode(r.value) <==> r.next == pos + 1 || f[r.next - 1] != 0)
      && (r.value == 0 ==> r.next == pos + 1 || f[r.next - 1] == 0)
    decreases |f| - pos
  {
    hide Decode, Encode;
    DecodeStep(f, pos, limit, k);
    var b, r := f[pos], Decode(f, pos, limit, k);
    EncodeStep(r.value);
    if b < 128 {
      assert f[pos..r.next] == [b];
    } else {
      DecodeShortest(f, pos + 1, limit, k + 1);
      var t := Decode(f, pos + 1, limit, k + 1);
      assert f[pos..r.next] == [b] + f[pos + 1..t.next];
      if t.value == 0 {
        LastZero(f, pos + 1, limit, k + 1);
      } else {
        assert r.value / 128 == t.value && r.value % 128 == b - 128;
        Tails(b, f[pos + 1..t.next], Encode(t.value));
        if t.next == pos + 2 {
          OneByte(f, pos + 1, limit, k + 1);
        }
      }
    }
  }

  lemma EncodeStep(v: nat)
    ensures Encode(v) == if v < 128 then [v] else [128 + v % 128] + Encode(v / 128)
  {
  }

  lemma OneByte(f: seq<Byte>, pos: nat, limit: nat, k: nat)
    requires var r := Decode(f, pos, limit, k); r.Val? && r.next == pos + 1
    ensures pos < |f| && f[pos] == Decode(f, pos, limit, k).value
  {
    if f[pos] >= 128 {
      DecodeRange(f, pos + 1, limit, k + 1);
    }
  }

  lemma {:induction false} LastZero(f: seq<Byte>, pos: nat, limit: nat, k: nat)
    requires var r := Decode(f, pos, limit, k); r.Val? && r.value == 0
    ensures var n := Decode(f, pos, limit, k).next; 0 < n <= |f| && f[n - 1] == 0
    decreases |f| - pos
  {
    if f[pos] >= 128 {
      LastZero(f, pos + 1, limit, k + 1);
    }
  }

  lemma Tails(b: Byte, s: seq<Byte>, t: seq<Byte>)
    ensures [b] + s == [b] + t <==> s == t
  {
    assert ([b] + s)[1..] == s && ([b] + t)[1..] == t;
  }

  /** The whole number is what is there so far plus the rest of it, scaled. */
  ghost predicate Above(whole: Number, value: nat, scale: nat, rest: Number) {
    whole == if rest.Bad? then Bad else Val(value + rest.value * scale, rest.next)
  }

  lemma AboveStart(d: Number)
    ensures Above(d, 0, 1, d)
  {
  }

  lemma AboveBad(whole: Number, value: nat, scale: nat, rest: Number)
    requires Above(whole, value, scale, rest)
    ensures rest.Bad? ==> whole.Bad?
  {
  }

  /** One more byte taken from the rest. */
  lemma Lift(whole: Number, value: nat, scale: nat, b: Byte, next: nat, rest: Number)
    requires if b < 128 then Above(whole, value, scale, Val(b, next))
             else Above(whole, value, scale, if rest.Bad? then Bad else Val(b % 128 + 128 * rest.value, rest.next))
    ensures b % 128 * scale >= 0
    ensures b < 128 ==> whole == Val(value + b % 128 * scale, next)
    ensures b >= 128 ==> Above(whole, value + b % 128 * scale, 128 * scale, rest)
  {
    if rest.Val? {
      assert (b % 128 + 128 * rest.value) * scale == b % 128 * scale + rest.value * (128 * scale);
    }
  }

  /** Read one number; the bits of each byte land above those already there, so adding is or-ing. */
  method ReadUleb128(f: seq<Byte>, start: nat, limit: nat) returns (r: Number)
    ensures r == Decode(f, start, limit, 0)
    ensures r.Val? ==> r.value < TWO_32 && start < r.next <= limit
  {
    hide Decode, Above;
    DecodeRange(f, start, limit, 0);
    AboveStart(Decode(f, start, limit, 0));
    var value: nat, shift: nat, pos: nat, scale: nat := 0, 0, start, 1;
    ghost var k: nat := 0;
    while true
      invariant shift == 7 * k && k <= 5 && start <= pos
      invariant Above(Decode(f, start, limit, 0), value, scale, Decode(f, pos, limit, k))
      decreases 6 - k
    {
      DecodeStep(f, pos, limit, k);
      AboveBad(Decode(f, start, limit, 0), value, scale, Decode(f, pos, limit, k));
      if pos >= limit {
        return Bad;
      }
      if pos > LONG_MAX || pos >= |f| {
        return Bad;
      }
      var b := f[pos];
      pos := pos + 1;
      if shift >= 32 || (shift == 28 && b % 128 >= 16) {
        return Bad;
      }
      Lift(Decode(f, start, limit, 0), value, scale, b, pos, Decode(f, pos, limit, k + 1));
      value := value + b % 128 * scale;
      if b < 128 {
        return Val(value, pos);
      }
      shift := shift + 7;
      scale := 128 * scale;
      k := k + 1;
    }
  }

  lemma DecodeStep(f: seq<Byte>, pos: nat, limit: nat, k: nat)
    ensures var r := Decode(f, pos, limit, k);
      if pos >= limit || pos > LONG_MAX || pos >= |f| || k >= 5 || (k == 4 && f[pos] % 128 >= 16) then r == Bad
      else if f[pos] < 128 then r == Val(f[pos], pos + 1)
      else
        var d := Decode(f, pos + 1, limit, k + 1);
        r == if d.Bad? then Bad else Val(f[pos] % 128 + 128 * d.value, d.next)
  {
  }

  // ---- The bytes of a number

  /** Seven bits of the number, if it has that many bytes. */
  function Group(f: seq<Byte>, pos: nat, n: nat, i: nat): (g: nat)
    requires pos + n <= |f|
  {
    if i < n then f[pos + i] % 128 else 0
  }

  /** There is a number of n bytes: all but the last have the high bit, and a fifth one has four bits at most. */
  predicate Spelled(f: seq<Byte>, pos: nat, limit: nat, n: nat) {
    && 1 <= n <= 5 && pos + n <= limit && pos + n <= |f| && pos + n - 1 <= LONG_MAX
    && (forall i :: pos <= i < pos + n - 1 ==> f[i] >= 128) && f[pos + n - 1] < 128 && (n == 5 ==> f[pos + 4] < 16)
  }

  /** A number is read exactly if there is one, and then its groups of seven bits count from the lowest. */
  lemma DecodeBytes(f: seq<Byte>, pos: nat, limit: nat, n: nat)
    ensures Decode(f, pos, limit, 0).Val? ==> exists n :: Spelled(f, pos, limit, n)
    ensures Spelled(f, pos, limit, n) ==>
              Decode(f, pos, limit, 0) ==
              Val(Group(f, pos, n, 0) + 0x80 * Group(f, pos, n, 1) + 0x4000 * Group(f, pos, n, 2) + 0x20_0000 * Group(f, pos, n, 3)
                  + 0x1000_0000 * Group(f, pos, n, 4), pos + n)
  {
    hide Decode, Spelled;
    if Decode(f, pos, limit, 0).Val? {
      SpelledBy(f, pos, limit);
    }
    if Spelled(f, pos, limit, n) {
      SpelledAll(f, pos, limit, n);
      DecodeSpelled(f, pos, limit, 0, n);
      WeightedIs(f, pos, n);
    }
  }

  /** The groups of n bytes, the first one lowest. */
  function Weighted(f: seq<Byte>, pos: nat, n: nat): (v: nat)
    requires pos + n <= |f|
    decreases n
  {
    if n == 0 then 0 else f[pos] % 128 + 128 * Weighted(f, pos + 1, n - 1)
  }

  lemma {:induction false} DecodeSpelled(f: seq<Byte>, pos: nat, limit: nat, k: nat, n: nat)
    requires 1 <= n && k + n <= 5 && pos + n <= limit && pos + n <= |f| && pos + n - 1 <= LONG_MAX
    requires (forall i :: pos <= i < pos + n - 1 ==> f[i] >= 128) && f[pos + n - 1] < 128 && (k + n == 5 ==> f[pos + n - 1] < 16)
    ensures Decode(f, pos, limit, k) == Val(Weighted(f, pos, n), pos + n)
    decreases n
  {
    hide Decode;
    DecodeStep(f, pos, limit, k);
    if n > 1 {
      DecodeSpelled(f, pos + 1, limit, k + 1, n - 1);
    }
  }

  lemma SpelledAll(f: seq<Byte>, pos: nat, limit: nat, n: nat)
    requires Spelled(f, pos, limit, n)
    ensures 1 <= n <= 5 && pos + n <= limit && pos + n <= |f| && pos + n - 1 <= LONG_MAX
    ensures (forall i :: pos <= i < pos + n - 1 ==> f[i] >= 128) && f[pos + n - 1] < 128 && (n == 5 ==> f[pos + n - 1] < 16)
  {
  }

  lemma WeightedIs(f: seq<Byte>, pos: nat, n: nat)
    requires 1 <= n <= 5 && pos + n <= |f|
    ensures Weighted(f, pos, n) == Group(f, pos, n, 0) + 0x80 * Group(f, pos, n, 1) + 0x4000 * Group(f, pos, n, 2)
                                   + 0x20_0000 * Group(f, pos, n, 3) + 0x1000_0000 * Group(f, pos, n, 4)
  {
    hide Weighted;
    WeightedStep(f, pos, n);
    if n > 1 { WeightedStep(f, pos + 1, n - 1); }
    if n > 2 { WeightedStep(f, pos + 2, n - 2); }
    if n > 3 { WeightedStep(f, pos + 3, n - 3); }
    if n > 4 { WeightedStep(f, pos + 4, n - 4); }
  }

  lemma WeightedStep(f: seq<Byte>, pos: nat, n: nat)
    requires 1 <= n && pos + n <= |f|
    ensures Weighted(f, pos, n) == f[pos] % 128 + if n == 1 then 0 else 128 * Weighted(f, pos + 1, n - 1)
  {
  }

  lemma SpelledBy(f: seq<Byte>, pos: nat, limit: nat)
    requires Decode(f, pos, limit, 0).Val?
    ensures exists n :: Spelled(f, pos, limit, n)
  {
    hide Decode, Spelled;
    DecodeRange(f, pos, limit, 0);
    DecodeStep(f, pos, limit, 0);
    DecodeStep(f, pos + 1, limit, 1);
    DecodeStep(f, pos + 2, limit, 2);
    DecodeStep(f, pos + 3, limit, 3);
    DecodeStep(f, pos + 4, limit, 4);
    DecodeStep(f, pos + 5, limit, 5);
    var n := if f[pos] < 128 then 1 else if f[pos + 1] < 128 then 2 else if f[pos + 2] < 128 then 3 else if f[pos + 3] < 128 then 4 else 5;
    assert Spelled(f, pos, limit, n) by { IsSpelled(f, pos, limit, n); }
  }

  lemma IsSpelled(f: seq<Byte>, pos: nat, limit: nat, n: nat)
    requires 1 <= n <= 5 && pos + n <= limit && pos + n <= |f| && pos + n - 1 <= LONG_MAX
    requires n > 1 ==> f[pos] >= 128
    requires n > 2 ==> f[pos + 1] >= 128
    requires n > 3 ==> f[pos + 2] >= 128
    requires n > 4 ==> f[pos + 3] >= 128
    requires f[pos + n - 1] < 128 && (n == 5 ==> f[pos + 4] < 16)
    ensures Spelled(f, pos, limit, n)
  {
  }

  // ---- The stream of slots

  datatype Slots = BadStream | Slots(list: seq<nat>)

  /** The slot addresses spelled by the stream: each number is the distance from the slot before. */
  function Stream(f: seq<Byte>, pos: nat, limit: nat, vaddr: nat, first: bool): (r: Slots)
    decreases |f| - pos
  {
    if pos >= limit then Slots([])
    else
      var d := Decode(f, pos, limit, 0);
      DecodeRange(f, pos, limit, 0);
      if d.Bad? || (d.value == 0 && !first) || vaddr + d.value >= TWO_32 then BadStream
      else
        match Stream(f, d.next, limit, vaddr + d.value, false)
        case BadStream => BadStream
        case Slots(rest) => Slots([vaddr + d.value] + rest)
  }

  /** Strictly ascending 32-bit addresses after `from`, which only the first of a stream may equal. */
  predicate Ascends(s: seq<nat>, from: nat, first: bool) {
    && (forall i :: 0 <= i < |s| ==> s[i] < TWO_32 && if first then s[i] >= from else s[i] > from)
    && (forall i, j :: 0 <= i < j < |s| ==> s[i] < s[j])
  }

  lemma AscendsHead(a: nat, s: seq<nat>, from: nat, first: bool)
    requires Ascends(s, a, false) && a < TWO_32 && if first then a >= from else a > from
    ensures Ascends([a] + s, from, first)
  {
    var t := [a] + s;
    assert forall i :: 1 <= i < |t| ==> t[i] == s[i - 1];
  }

  lemma AscendsTail(s: seq<nat>, from: nat, first: bool)
    requires Ascends(s, from, first) && s != []
    ensures Ascends(s[1..], s[0], false)
  {
  }

  /** An accepted stream lists strictly ascending slots. */
  lemma {:induction false} StreamAscends(f: seq<Byte>, pos: nat, limit: nat, vaddr: nat, first: bool)
    requires Stream(f, pos, limit, vaddr, first).Slots?
    ensures Ascends(Stream(f, pos, limit, vaddr, first).list, vaddr, first)
    decreases |f| - pos
  {
    hide Ascends, Decode;
    if pos < limit {
      var d := Decode(f, pos, limit, 0);
      DecodeRange(f, pos, limit, 0);
      StreamAscends(f, d.next, limit, vaddr + d.value, false);
      AscendsHead(vaddr + d.value, Stream(f, d.next, limit, vaddr + d.value, false).list, vaddr, first);
    } else {
      NoneAscend(vaddr, first);
    }
  }

  lemma NoneAscend(from: nat, first: bool)
    ensures Ascends([], from, first)
  {
  }

  /** The stream a packer writes for a list of slots. */
  function Pack(from: nat, s: seq<nat>, first: bool): (r: seq<Byte>)
    requires Ascends(s, from, first)
    decreases s
  {
    if s == [] then []
    else
      AscendsTail(s, from, first);
      Encode(s[0] - from) + Pack(s[0], s[1..], false)
  }

  lemma StartsConcat(f: seq<Byte>, pos: nat, a: seq<Byte>, b: seq<Byte>)
    requires Starts(f, pos, a + b)
    ensures Starts(f, pos, a) && Starts(f, pos + |a|, b)
  {
    assert f[pos..pos + |a|] == f[pos..pos + |a + b|][..|a|];
    assert f[pos + |a|..pos + |a + b|] == f[pos..pos + |a + b|][|a|..];
  }

  /** Reading back a packed list of slots gives the list. */
  lemma {:induction false} StreamPack(f: seq<Byte>, pos: nat, limit: nat, from: nat, s: seq<nat>, first: bool)
    requires Ascends(s, from, first) && limit <= LONG_MAX
    requires Starts(f, pos, Pack(from, s, first)) && pos + |Pack(from, s, first)| == limit
    ensures Stream(f, pos, limit, from, first) == Slots(s)
    decreases s
  {
    hide Decode, Encode, Starts;
    if s != [] {
      AscendsTail(s, from, first);
      var e, rest := Encode(s[0] - from), Pack(s[0], s[1..], false);
      StartsConcat(f, pos, e, rest);
      DecodeEncode(f, pos, limit, 0, s[0] - from);
      StreamPack(f, pos + |e|, limit, s[0], s[1..], false);
      assert [s[0]] + s[1..] == s;
    }
  }

  /** The distances 4 and 128 from address 0x1000 on. */
  lemma StreamExample()
    ensures Stream([0x04, 0x80, 0x01], 0, 3, 0x1000, true) == Slots([0x1004, 0x1084])
  {
    var f: seq<Byte> := [0x04, 0x80, 0x01];
    assert Decode(f, 0, 3, 0) == Val(4, 1);
    assert Decode(f, 2, 3, 1) == Val(1, 3);
    assert Decode(f, 1, 3, 0) == Val(128, 3);
    assert Stream(f, 3, 3, 0x1084, false) == Slots([]);
    assert Stream(f, 1, 3, 0x1004, false) == Slots([0x1084]);
  }
}
