/** The CRC-32 of the in-browser ZIP writer (app.js:905-909): section 4.4.7 of
    the PKWARE .ZIP File Format Specification, reflected polynomial
    0xEDB88320, register preset to all ones and complemented at the end. The
    writer looks bytes up in a 256-entry table built once; `IsCrcTable`
    says what that table holds, and the specification functions use its
    entries directly. */
module Crc32 {

  const Polynomial: bv32 := 0xEDB8_8320

  /** One shift of the reflected register: `(c&1) ? (0xEDB88320 ^ (c>>>1)) : (c>>>1)`. */
  function Step(c: bv32): bv32
  {
    if c & 1 == 0 then c >> 1 else Polynomial ^ (c >> 1)
  }

  /** `k` shifts of the register. */
  function Steps(c: bv32, k: nat): bv32
  {
    if k == 0 then c else Step(Steps(c, k - 1))
  }


  /** Entry `i` of the table: `i` shifted eight times. */
  function TableEntry(i: bv8): bv32
  {
    Steps(i as bv32, 8)
  }

  /** `t` holds the 256 entries the builder computes. */
  ghost predicate IsCrcTable(t: seq<bv32>)
  {
    |t| == 256 && forall i: bv8 :: t[i] == TableEntry(i)
  }

  /** The inner loop of the builder: eight conditional shifts of `i`. */
  method TableByte(i: bv8) returns (c: bv32)
    ensures c == TableEntry(i)
  {
    c := i as bv32;
    var k := 0;
    while k < 8
      invariant 0 <= k <= 8
      invariant c == Steps(i as bv32, k)
    {
      c := if c & 1 == 0 then c >> 1 else Polynomial ^ (c >> 1);
      k := k + 1;
    }
  }

  /** The table builder of app.js:909. */
  method MakeTable() returns (table: array<bv32>)
    ensures fresh(table)
    ensures IsCrcTable(table[..])
  {
    table := new bv32[256];
    var i: nat := 0;
    while i < 256
      invariant 0 <= i <= 256
      invariant forall j :: 0 <= j < i ==> table[j] == TableEntry(j as bv8)
    {
      var c := TableByte(i as bv8);
      table[i] := c;
      i := i + 1;
    }
  }

  /** The table slot one byte selects: `(c ^ b) & 0xff`. */
  function Index(c: bv32, b: bv8): bv8
  {
    ((c ^ b as bv32) & 0xFF) as bv8
  }

  /** One byte of the CRC: `(c>>>8) ^ table[(c ^ b) & 0xff]` with the table
      entry of section 4.4.7. */
  function Feed(c: bv32, b: bv8): bv32
  {
    (c >> 8) ^ TableEntry(Index(c, b))
  }

  /** The register after feeding `data`, starting from `~0`. */
  function Register(data: seq<bv8>): bv32
  {
    if data == [] then 0xFFFF_FFFF
    else Feed(Register(data[..|data| - 1]), data[|data| - 1])
  }

  /** `crc32(buf)`: the complemented register. */
  function Crc(data: seq<bv8>): bv32
  {
    !Register(data)
  }

  /** Feeding one more byte updates the register once: the loop's step. */
  lemma RegisterSnoc(data: seq<bv8>, i: nat)
    requires i < |data|
    ensures Register(data[..i + 1]) == Feed(Register(data[..i]), data[i])
  {
    assert data[..i + 1][..i] == data[..i];
  }

  /** The writer's byte update, looking the entry up in table `t`. */
  function Update(t: seq<bv32>, c: bv32, b: bv8): bv32
    requires |t| == 256
  {
    (c >> 8) ^ t[Index(c, b)]
  }

  /** Looking a byte up in a correctly built table is the same update. */
  lemma LookupFeeds(t: seq<bv32>, c: bv32, b: bv8)
    requires IsCrcTable(t)
    ensures Update(t, c, b) == Feed(c, b)
  {
    assert t[Index(c, b)] == TableEntry(Index(c, b));
  }

  /** `crc32(buf)` as app.js:905-907 computes it, with a table built by `MakeTable`. */
  method ComputeCrc(table: array<bv32>, buf: seq<bv8>) returns (crc: bv32)
    requires IsCrcTable(table[..])
    ensures crc == Crc(buf)
  {
    var c: bv32 := 0xFFFF_FFFF;
    var i := 0;
    while i < |buf|
      invariant 0 <= i <= |buf|
      invariant c == Register(buf[..i])
    {
      RegisterSnoc(buf, i);
      LookupFeeds(table[..], c, buf[i]);
      c := Update(table[..], c, buf[i]);
      i := i + 1;
    }
    assert buf[..i] == buf;
    crc := !c;
  }

  /** The CRC of no bytes is 0. */
  lemma CrcOfEmpty()
    ensures Crc([]) == 0
  {
  }
}

/** The check value of the CRC, computed byte by byte. */
module CrcCheck {
  import opened Crc32

  /** The ASCII digits "123456789", the input whose CRC-32 is the check value
      catalogued for this CRC (0xCBF43926). */
  const CheckInput: seq<bv8> := [0x31, 0x32, 0x33, 0x34, 0x35, 0x36, 0x37, 0x38, 0x39]

  /** One byte of the register, with the table entry it looks up given. */
  lemma FeedStep(d: seq<bv8>, k: nat, v: bv32, e: bv32, next: bv32)
    requires k < |d| && Register(d[..k]) == v
    requires e == TableEntry(Index(v, d[k])) && next == (v >> 8) ^ e
    ensures Register(d[..k + 1]) == next
  {
    RegisterSnoc(d, k);
  }

  /** `k` shifts are one shift after `k - 1`. */
  lemma StepsUnfold(c: bv32, k: nat)
    requires k > 0
    ensures Steps(c, k) == Step(Steps(c, k - 1))
  {
  }

  /** Table entry `i` from the trace of its eight shifts. */
  lemma EntryIs(i: bv8, trace: seq<bv32>)
    requires |trace| == 9 && trace[0] == i as bv32
    requires trace[1] == Step(trace[0]) && trace[2] == Step(trace[1]) && trace[3] == Step(trace[2])
    requires trace[4] == Step(trace[3]) && trace[5] == Step(trace[4]) && trace[6] == Step(trace[5])
    requires trace[7] == Step(trace[6]) && trace[8] == Step(trace[7])
    ensures TableEntry(i) == trace[8]
  {
    var k := 0;
    while k < 8
      invariant k <= 8 && Steps(i as bv32, k) == trace[k]
    {
      StepsUnfold(i as bv32, k + 1);
      k := k + 1;
    }
  }

  /** The register after the first three digits. */
  lemma CheckFirst()
    ensures Register(CheckInput[..3]) == 0x77B7_9C2D
  {
    assert CheckInput[..0] == [];
    EntryIs(0xCE, [0x0000_00CE, 0x0000_0067, 0xEDB8_8313, 0x9B64_C2A9, 0xA00A_E274,
                  0x5005_713A, 0x2802_B89D, 0xF9B9_DF6E, 0x7CDC_EFB7]);
    FeedStep(CheckInput, 0, 0xFFFF_FFFF, 0x7CDC_EFB7, 0x7C23_1048);
    EntryIs(0x7A, [0x0000_007A, 0x0000_003D, 0xEDB8_833E, 0x76DC_419F, 0xD6D6_A3EF,
                  0x86D3_D2D7, 0xAED1_6A4B, 0xBAD0_3605, 0xB0D0_9822]);
    FeedStep(CheckInput, 1, 0x7C23_1048, 0xB0D0_9822, 0xB0AC_BB32);
    EntryIs(0x01, [0x0000_0001, 0xEDB8_8320, 0x76DC_4190, 0x3B6E_20C8, 0x1DB7_1064,
                  0x0EDB_8832, 0x076D_C419, 0xEE0E_612C, 0x7707_3096]);
    FeedStep(CheckInput, 2, 0xB0AC_BB32, 0x7707_3096, 0x77B7_9C2D);
  }

  /** The register after the first six digits. */
  lemma CheckSecond()
    ensures Register(CheckInput[..6]) == 0xF68D_2C9E
  {
    CheckFirst();
    EntryIs(0x19, [0x0000_0019, 0xEDB8_832C, 0x76DC_4196, 0x3B6E_20CB, 0xF00F_9345,
                  0x95BF_4A82, 0x4ADF_A541, 0xC8D7_5180, 0x646B_A8C0]);
    FeedStep(CheckInput, 3, 0x77B7_9C2D, 0x646B_A8C0, 0x641C_1F5C);
    EntryIs(0x69, [0x0000_0069, 0xEDB8_8314, 0x76DC_418A, 0x3B6E_20C5, 0xF00F_9342,
                  0x7807_C9A1, 0xD1BB_67F0, 0x68DD_B3F8, 0x346E_D9FC]);
    FeedStep(CheckInput, 4, 0x641C_1F5C, 0x346E_D9FC, 0x340A_C5E3);
    EntryIs(0xD5, [0x0000_00D5, 0xEDB8_834A, 0x76DC_41A5, 0xD6D6_A3F2, 0x6B6B_51F9,
                  0xD80D_2BDC, 0x6C06_95EE, 0x3603_4AF7, 0xF6B9_265B]);
    FeedStep(CheckInput, 5, 0x340A_C5E3, 0xF6B9_265B, 0xF68D_2C9E);
  }

  /** The CRC of the digits is the catalogued check value: `crc32` computes
      the CRC-32 that ZIP readers check against. */
  lemma CheckValue()
    ensures Crc(CheckInput) == 0xCBF4_3926
  {
    CheckSecond();
    EntryIs(0xA9, [0x0000_00A9, 0xEDB8_8374, 0x76DC_41BA, 0x3B6E_20DD, 0xF00F_934E,
                  0x7807_C9A7, 0xD1BB_67F3, 0x8565_30D9, 0xAF0A_1B4C]);
    FeedStep(CheckInput, 6, 0xF68D_2C9E, 0xAF0A_1B4C, 0xAFFC_9660);
    EntryIs(0x58, [0x0000_0058, 0x0000_002C, 0x0000_0016, 0x0000_000B, 0xEDB8_8325,
                  0x9B64_C2B2, 0x4DB2_6159, 0xCB61_B38C, 0x65B0_D9C6]);
    FeedStep(CheckInput, 7, 0xAFFC_9660, 0x65B0_D9C6, 0x651F_2550);
    EntryIs(0x69, [0x0000_0069, 0xEDB8_8314, 0x76DC_418A, 0x3B6E_20C5, 0xF00F_9342,
                  0x7807_C9A1, 0xD1BB_67F0, 0x68DD_B3F8, 0x346E_D9FC]);
    FeedStep(CheckInput, 8, 0x651F_2550, 0x346E_D9FC, 0x340B_C6D9);
    assert CheckInput[..9] == CheckInput;
  }
}
