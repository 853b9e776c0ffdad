/** A small program file, byte by byte, and what becomes of it. */
module ElfExample {
  import opened Basics
  import opened ElfUleb
  import opened ElfLoad

  const ZEROS: seq<Byte> := [0, 0, 0, 0, 0, 0, 0, 0, 0, 0]
  /** An executable for a big-endian 68000, its entry point at 0x1000, with two program headers behind the ELF header. */
  const HEADER := Ehdr([0x7f, 0x45, 0x4c, 0x46, 1, 2] + ZEROS, 2, 4, 0x1000, 52, 32, 2)
  const OTHERS := Rest(1, 0, 0, 52, 0, 0, 0)
  /** Eight bytes of text and data at 0x1000, and four of bss; and a relocation stream. */
  const TEXT := Phdr(1, 116, 0x1000, 8, 12)
  const STREAM := Phdr(0x6000_0001, 124, 0, 9, 0)
  /** The first word is the address 0x1004. The stream has one slot, at distance 0. */
  const CONTENT: seq<Byte> := [0, 0, 0x10, 4, 1, 2, 3, 4]
  const SLOTS: seq<Byte> := [0x50, 0x54, 0x4c, 0x31, 0, 1, 0, 0, 0]

  function File(): (f: seq<Byte>)
    ensures |f| == 133
  {
    EhdrBytes(Big, HEADER, OTHERS) + PhdrBytes(Big, TEXT, 0, 7, 4) + PhdrBytes(Big, STREAM, 0, 4, 1) + CONTENT + SLOTS
  }

  lemma Places()
    ensures File()[..52] == EhdrBytes(Big, HEADER, OTHERS)
    ensures File()[52..84] == PhdrBytes(Big, TEXT, 0, 7, 4) && File()[84..116] == PhdrBytes(Big, STREAM, 0, 4, 1)
    ensures File()[116..124] == CONTENT && File()[124..133] == SLOTS
  {
    hide EhdrBytes, PhdrBytes;
    var a, b, c := EhdrBytes(Big, HEADER, OTHERS), PhdrBytes(Big, TEXT, 0, 7, 4), PhdrBytes(Big, STREAM, 0, 4, 1);
    assert File() == a + b + c + CONTENT + SLOTS;
  }

  lemma HeadersAre()
    ensures GoodFile(Machine(Big, 2, 4), File()) && EhdrAt(Big, File()) == HEADER
    ensures TableFits(HEADER) && Readable(File(), HEADER) && Headers(Big, File(), HEADER) == [TEXT, STREAM]
  {
    hide File, EhdrBytes, PhdrBytes, EhdrAt, PhdrAt, HalfAt, WordAt;
    Places();
    EhdrLayout(Big, File(), HEADER, OTHERS);
    PhdrLayout(Big, File(), 52, TEXT, 0, 7, 4);
    PhdrLayout(Big, File(), 84, STREAM, 0, 4, 1);
    assert HdrPos(HEADER, 0) == 52 && HdrPos(HEADER, 1) == 84;
    var hs := Headers(Big, File(), HEADER);
    assert hs[0] == TEXT && hs[1] == STREAM;
    IdentIs();
  }

  lemma IdentIs()
    ensures |HEADER.ident| == 16 && HEADER.ident[..4] == ELF_MAGIC && HEADER.ident[4] == 1 && HEADER.ident[5] == 2
  {
  }

  const EXTENT := Info(0x1000, 0x1008, 0x100c)

  lemma ExtentIs()
    ensures Accepts([TEXT, STREAM], EXTENT)
  {
    var phs := [TEXT, STREAM];
    assert phs[0] == TEXT && phs[1] == STREAM;
  }

  /** A byte of the last two pieces of the file. */
  lemma ByteIs(i: nat)
    requires i < 8
    ensures File()[116 + i] == CONTENT[i] && File()[124 + i] == SLOTS[i] && File()[132] == 0
  {
    hide File, EhdrBytes, PhdrBytes;
    Places();
    assert File()[116 + i] == File()[116..124][i];
    assert File()[124 + i] == File()[124..133][i];
    assert File()[132] == File()[124..133][8];
  }

  lemma StreamIs()
    ensures RelocHeader(Big, File(), STREAM) && SlotsOf(File(), STREAM, EXTENT) == Slots([0x1000])
  {
    hide File, EhdrBytes, PhdrBytes, Stream, Decode, RelocHeader;
    Places();
    SliceOf(File(), 124, 9, 0, 8);
    assert SLOTS[0..8] == [0x50, 0x54, 0x4c, 0x31] + [0, 1] + [0, 0];
    MagicIs();
    RelocLayout(Big, File(), STREAM, 1, [0, 0]);
    ByteIs(0);
    DecodeStep(File(), 132, 133, 0);
    StreamStep(File(), 132, 133, 0x1000, true);
    assert Stream(File(), 133, 133, 0x1000, false) == Slots([]) by { StreamEnds(File()); }
  }

  lemma StreamEnds(f: seq<Byte>)
    ensures Stream(f, 133, 133, 0x1000, false) == Slots([])
  {
  }

  lemma MagicIs()
    ensures WordBytes(Big, 0x5054_4c31) == [0x50, 0x54, 0x4c, 0x31] && HalfBytes(Big, 1) == [0, 1]
  {
  }

  lemma ContentIs()
    ensures EXTENT.linkBase <= EXTENT.memEnd
    ensures Content(File(), [TEXT, STREAM], EXTENT) == [0, 0, 0x10, 4, 1, 2, 3, 4, 0, 0, 0, 0]
  {
    hide File, ByteAt;
    var c, w := Content(File(), [TEXT, STREAM], EXTENT), [0, 0, 0x10, 4, 1, 2, 3, 4, 0, 0, 0, 0];
    forall i | 0 <= i < 12
      ensures c[i] == w[i]
    {
      ContentAt(i);
      if i < 8 { ByteIs(i); }
    }
  }

  lemma ContentAt(i: nat)
    requires i < 12
    ensures ByteAt(File(), [TEXT, STREAM], 2, 0x1000 + i) == if i < 8 then File()[116 + i] else 0
  {
    hide File;
    var phs := [TEXT, STREAM];
    assert phs[1] == STREAM && phs[0] == TEXT;
    assert ByteAt(File(), phs, 1, 0x1000 + i) == if i < 8 then File()[116 + i] else 0;
  }

  /** The file loads at 0x3000: the address in its first word becomes 0x3004, and the rest is as in the file. */
  lemma LoadsExample()
    ensures FileLoadable(Machine(Big, 2, 4), File(), EXTENT, 0x3000) && EXTENT.linkBase <= EXTENT.memEnd
    ensures RelocAccepted(Machine(Big, 2, 4), File(), STREAM, EXTENT, 0x3000)
    ensures Image(Machine(Big, 2, 4), File(), [TEXT, STREAM], STREAM, EXTENT, 0x3000) == [0, 0, 0x30, 4, 1, 2, 3, 4, 0, 0, 0, 0]
  {
    hide File, EhdrAt, Headers, Accepts, RelocHeader, SlotsOf, Content, GoodFile, TableFits, Readable, Relocated;
    var m, phs := Machine(Big, 2, 4), [TEXT, STREAM];
    HeadersAre();
    ExtentIs();
    StreamIs();
    ContentIs();
    assert phs[0] == TEXT && phs[1] == STREAM;
    SlotFine();
    OneFixed();
  }

  lemma SlotFine()
    ensures Bias(0x3000, 0x1000) == 0x2000 && AllFine(Machine(Big, 2, 4), EXTENT, 0x3000, [0x1000])
  {
  }

  lemma OneFixed()
    ensures var c: seq<Byte> := [0, 0, 0x10, 4, 1, 2, 3, 4, 0, 0, 0, 0];
      Inside([0x1000], 0x1000, |c|) && Relocated(Big, c, 0x1000, [0x1000], 0x2000) == [0, 0, 0x30, 4, 1, 2, 3, 4, 0, 0, 0, 0]
  {
    hide PutWord;
    var c: seq<Byte> := [0, 0, 0x10, 4, 1, 2, 3, 4, 0, 0, 0, 0];
    assert WordAt(Big, c, 0) == 0x1004;
    assert PutWord(Big, c, 0, 0x3004) == [0, 0, 0x30, 4, 1, 2, 3, 4, 0, 0, 0, 0] by { PutIs(c); }
    assert [0x1000][1..] == [];
  }

  lemma PutIs(c: seq<Byte>)
    requires |c| >= 4
    ensures PutWord(Big, c, 0, 0x3004) == c[0 := 0][1 := 0][2 := 0x30][3 := 4]
  {
  }
}
