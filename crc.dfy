// CRC-8/DVB-S2 (generator polynomial x^8 + x^7 + x^6 + x^4 + x^2 + 1, that
// is 0xD5, initial value 0, MSB first, no reflection, no final xor), the
// checksum CRSF frames carry; it is the CRC-8 of ETSI EN 302 307-1,
// section 5.1.4.
//
// `Crc8` is the reference definition, computed bit by bit. The firmware
// computes the same value with a 256-entry lookup table (src/input.cpp):
// `TableFold` is that loop over any table, and `FirmwareTableIsCrcTable`
// checks the firmware's table entry by entry.

module Crc8 {

  const POLY: bv8 := 0xD5

  // ----- Reference definition -----

  /** One shift of the MSB-first register: shift left, xor the polynomial if a 1 fell out. */
  function ShiftStep(c: bv8): bv8 {
    if c & 0x80 != 0 then (c << 1) ^ POLY else c << 1
  }

  /** The register after eight shifts: the contribution of one byte xored into it. */
  function BitwiseStep(x: bv8): bv8 {
    ShiftStep(ShiftStep(ShiftStep(ShiftStep(ShiftStep(ShiftStep(ShiftStep(ShiftStep(x))))))))
  }

  /** CRC-8/DVB-S2 of a message, bitwise: xor each byte into the register, then shift eight times. */
  function Crc8(data: seq<bv8>): bv8 {
    if |data| == 0 then 0 else BitwiseStep(Crc8(data[..|data| - 1]) ^ data[|data| - 1])
  }

  /** The CRC is a left fold over the message, one byte at a time. */
  lemma Crc8Append(xs: seq<bv8>, b: bv8)
    ensures Crc8(xs + [b]) == BitwiseStep(Crc8(xs) ^ b)
  {
    assert (xs + [b])[..|xs|] == xs;
  }

  /** The standard check value: the CRC of ASCII "123456789" is 0xBC. */
  lemma CheckValue()
    ensures Crc8([0x31, 0x32, 0x33, 0x34, 0x35, 0x36, 0x37, 0x38, 0x39]) == 0xBC
  {
    var m: seq<bv8> := [0x31, 0x32, 0x33, 0x34, 0x35, 0x36, 0x37, 0x38, 0x39];
    assert Crc8(m[..0]) == 0x00;
    Crc8Append(m[..0], m[0]);
    assert m[..1] == m[..0] + [m[0]];
    assert Crc8(m[..1]) == 0x23;
    Crc8Append(m[..1], m[1]);
    assert m[..2] == m[..1] + [m[1]];
    assert Crc8(m[..2]) == 0x87;
    Crc8Append(m[..2], m[2]);
    assert m[..3] == m[..2] + [m[2]];
    assert Crc8(m[..3]) == 0xE7;
    Crc8Append(m[..3], m[3]);
    assert m[..4] == m[..3] + [m[3]];
    assert Crc8(m[..4]) == 0x8A;
    Crc8Append(m[..4], m[4]);
    assert m[..5] == m[..4] + [m[4]];
    assert Crc8(m[..5]) == 0x64;
    Crc8Append(m[..5], m[5]);
    assert m[..6] == m[..5] + [m[5]];
    assert Crc8(m[..6]) == 0xB0;
    Crc8Append(m[..6], m[6]);
    assert m[..7] == m[..6] + [m[6]];
    assert Crc8(m[..7]) == 0xBB;
    Crc8Append(m[..7], m[7]);
    assert m[..8] == m[..7] + [m[7]];
    assert Crc8(m[..8]) == 0x45;
    Crc8Append(m[..8], m[8]);
    assert m[..9] == m[..8] + [m[8]];
    assert Crc8(m[..9]) == 0xBC;
    assert m[..9] == m;
  }

  // ----- The firmware's table-driven computation -----

  const CRC8_TABLE: seq<seq<bv8>> := [
    [0x00, 0xD5, 0x7F, 0xAA, 0xFE, 0x2B, 0x81, 0x54, 0x29, 0xFC, 0x56, 0x83, 0xD7, 0x02, 0xA8, 0x7D],
    [0x52, 0x87, 0x2D, 0xF8, 0xAC, 0x79, 0xD3, 0x06, 0x7B, 0xAE, 0x04, 0xD1, 0x85, 0x50, 0xFA, 0x2F],
    [0xA4, 0x71, 0xDB, 0x0E, 0x5A, 0x8F, 0x25, 0xF0, 0x8D, 0x58, 0xF2, 0x27, 0x73, 0xA6, 0x0C, 0xD9],
    [0xF6, 0x23, 0x89, 0x5C, 0x08, 0xDD, 0x77, 0xA2, 0xDF, 0x0A, 0xA0, 0x75, 0x21, 0xF4, 0x5E, 0x8B],
    [0x9D, 0x48, 0xE2, 0x37, 0x63, 0xB6, 0x1C, 0xC9, 0xB4, 0x61, 0xCB, 0x1E, 0x4A, 0x9F, 0x35, 0xE0],
    [0xCF, 0x1A, 0xB0, 0x65, 0x31, 0xE4, 0x4E, 0x9B, 0xE6, 0x33, 0x99, 0x4C, 0x18, 0xCD, 0x67, 0xB2],
    [0x39, 0xEC, 0x46, 0x93, 0xC7, 0x12, 0xB8, 0x6D, 0x10, 0xC5, 0x6F, 0xBA, 0xEE, 0x3B, 0x91, 0x44],
    [0x6B, 0xBE, 0x14, 0xC1, 0x95, 0x40, 0xEA, 0x3F, 0x42, 0x97, 0x3D, 0xE8, 0xBC, 0x69, 0xC3, 0x16],
    [0xEF, 0x3A, 0x90, 0x45, 0x11, 0xC4, 0x6E, 0xBB, 0xC6, 0x13, 0xB9, 0x6C, 0x38, 0xED, 0x47, 0x92],
    [0xBD, 0x68, 0xC2, 0x17, 0x43, 0x96, 0x3C, 0xE9, 0x94, 0x41, 0xEB, 0x3E, 0x6A, 0xBF, 0x15, 0xC0],
    [0x4B, 0x9E, 0x34, 0xE1, 0xB5, 0x60, 0xCA, 0x1F, 0x62, 0xB7, 0x1D, 0xC8, 0x9C, 0x49, 0xE3, 0x36],
    [0x19, 0xCC, 0x66, 0xB3, 0xE7, 0x32, 0x98, 0x4D, 0x30, 0xE5, 0x4F, 0x9A, 0xCE, 0x1B, 0xB1, 0x64],
    [0x72, 0xA7, 0x0D, 0xD8, 0x8C, 0x59, 0xF3, 0x26, 0x5B, 0x8E, 0x24, 0xF1, 0xA5, 0x70, 0xDA, 0x0F],
    [0x20, 0xF5, 0x5F, 0x8A, 0xDE, 0x0B, 0xA1, 0x74, 0x09, 0xDC, 0x76, 0xA3, 0xF7, 0x22, 0x88, 0x5D],
    [0xD6, 0x03, 0xA9, 0x7C, 0x28, 0xFD, 0x57, 0x82, 0xFF, 0x2A, 0x80, 0x55, 0x01, 0xD4, 0x7E, 0xAB],
    [0x84, 0x51, 0xFB, 0x2E, 0x7A, 0xAF, 0x05, 0xD0, 0xAD, 0x78, 0xD2, 0x07, 0x53, 0x86, 0x2C, 0xF9]
  ]

  /** A table of sixteen rows of sixteen entries. */
  ghost predicate Shaped(t: seq<seq<bv8>>) {
    |t| == 16 && forall r | 0 <= r < 16 :: |t[r]| == 16
  }

  /** Entry `x` of a table: `table[x]`. */
  function Lookup(t: seq<seq<bv8>>, x: bv8): bv8
    requires Shaped(t)
  {
    t[(x >> 4) as int][(x & 0x0F) as int]
  }

  /** A table whose every entry is the bitwise step of its index. */
  ghost predicate IsCrcTable(t: seq<seq<bv8>>) {
    Shaped(t) && forall x: bv8 :: Lookup(t, x) == BitwiseStep(x)
  }

  /** The accumulator loop of `crsf_crc8` over a table: `crc = table[crc ^ byte]`. */
  function TableFold(t: seq<seq<bv8>>, data: seq<bv8>): bv8
    requires Shaped(t)
  {
    if |data| == 0 then 0 else Lookup(t, TableFold(t, data[..|data| - 1]) ^ data[|data| - 1])
  }

  lemma TableFoldAppend(t: seq<seq<bv8>>, xs: seq<bv8>, b: bv8)
    requires Shaped(t)
    ensures TableFold(t, xs + [b]) == Lookup(t, TableFold(t, xs) ^ b)
  {
    assert (xs + [b])[..|xs|] == xs;
  }

  /** With a correct table, the table-driven loop computes the CRC of every message. */
  lemma {:induction false} TableFoldIsCrc8(t: seq<seq<bv8>>, data: seq<bv8>)
    requires IsCrcTable(t)
    ensures TableFold(t, data) == Crc8(data)
  {
    if |data| > 0 {
      TableFoldIsCrc8(t, data[..|data| - 1]);
    }
  }

  lemma TableRow0()
    ensures forall x: bv8 | x < 16 :: Lookup(CRC8_TABLE, x) == BitwiseStep(x)
  {
  }

  lemma TableRow1()
    ensures forall x: bv8 | 16 <= x < 32 :: Lookup(CRC8_TABLE, x) == BitwiseStep(x)
  {
  }

  lemma TableRow2()
    ensures forall x: bv8 | 32 <= x < 48 :: Lookup(CRC8_TABLE, x) == BitwiseStep(x)
  {
  }

  lemma TableRow3()
    ensures forall x: bv8 | 48 <= x < 64 :: Lookup(CRC8_TABLE, x) == BitwiseStep(x)
  {
  }

  lemma TableRow4()
    ensures forall x: bv8 | 64 <= x < 80 :: Lookup(CRC8_TABLE, x) == BitwiseStep(x)
  {
  }

  lemma TableRow5()
    ensures forall x: bv8 | 80 <= x < 96 :: Lookup(CRC8_TABLE, x) == BitwiseStep(x)
  {
  }

  lemma TableRow6()
    ensures forall x: bv8 | 96 <= x < 112 :: Lookup(CRC8_TABLE, x) == BitwiseStep(x)
  {
  }

  lemma TableRow7()
    ensures forall x: bv8 | 112 <= x < 128 :: Lookup(CRC8_TABLE, x) == BitwiseStep(x)
  {
  }

  lemma TableRow8()
    ensures forall x: bv8 | 128 <= x < 144 :: Lookup(CRC8_TABLE, x) == BitwiseStep(x)
  {
  }

  lemma TableRow9()
    ensures forall x: bv8 | 144 <= x < 160 :: Lookup(CRC8_TABLE, x) == BitwiseStep(x)
  {
  }

  lemma TableRowA()
    ensures forall x: bv8 | 160 <= x < 176 :: Lookup(CRC8_TABLE, x) == BitwiseStep(x)
  {
  }

  lemma TableRowB()
    ensures forall x: bv8 | 176 <= x < 192 :: Lookup(CRC8_TABLE, x) == BitwiseStep(x)
  {
  }

  lemma TableRowC()
    ensures forall x: bv8 | 192 <= x < 208 :: Lookup(CRC8_TABLE, x) == BitwiseStep(x)
  {
  }

  lemma TableRowD()
    ensures forall x: bv8 | 208 <= x < 224 :: Lookup(CRC8_TABLE, x) == BitwiseStep(x)
  {
  }

  lemma TableRowE()
    ensures forall x: bv8 | 224 <= x < 240 :: Lookup(CRC8_TABLE, x) == BitwiseStep(x)
  {
  }

  lemma TableRowF()
    ensures forall x: bv8 | 240 <= x :: Lookup(CRC8_TABLE, x) == BitwiseStep(x)
  {
  }

  lemma TableShaped()
    ensures Shaped(CRC8_TABLE)
  {
  }

  lemma TableLowHalf()
    ensures forall x: bv8 | x < 128 :: Lookup(CRC8_TABLE, x) == BitwiseStep(x)
  {
    TableShaped();
    TableRow0();
    TableRow1();
    TableRow2();
    TableRow3();
    TableRow4();
    TableRow5();
    TableRow6();
    TableRow7();
  }

  lemma TableHighHalf()
    ensures forall x: bv8 | 128 <= x :: Lookup(CRC8_TABLE, x) == BitwiseStep(x)
  {
    TableShaped();
    TableRow8();
    TableRow9();
    TableRowA();
    TableRowB();
    TableRowC();
    TableRowD();
    TableRowE();
    TableRowF();
  }

  /** All 256 entries of the firmware's table are correct. */
  lemma FirmwareTableIsCrcTable()
    ensures IsCrcTable(CRC8_TABLE)
  {
    TableShaped();
    TableLowHalf();
    TableHighHalf();
  }

  /** Entry 0 is 0 and entry 1 is the polynomial itself. */
  lemma FirstTableEntries()
    ensures Lookup(CRC8_TABLE, 0) == 0 && Lookup(CRC8_TABLE, 1) == POLY
  {
  }

  /** The firmware's loop over a buffer slice, for any table. */
  method TableCrc8(t: seq<seq<bv8>>, buf: array<bv8>, start: nat, len: nat) returns (crc: bv8)
    requires Shaped(t)
    requires start + len <= buf.Length
    ensures crc == TableFold(t, buf[start..start + len])
  {
    crc := 0;
    var i := 0;
    while i < len
      invariant 0 <= i <= len
      invariant crc == TableFold(t, buf[start..start + i])
    {
      assert buf[start..start + i + 1] == buf[start..start + i] + [buf[start + i]];
      TableFoldAppend(t, buf[start..start + i], buf[start + i]);
      crc := Lookup(t, crc ^ buf[start + i]);
      i := i + 1;
    }
  }

  /** `crsf_crc8(&buf[start], len)`: the CRC-8/DVB-S2 of exactly that slice. */
  method ComputeCrc8(buf: array<bv8>, start: nat, len: nat) returns (crc: bv8)
    requires start + len <= buf.Length
    ensures crc == Crc8(buf[start..start + len])
  {
    FirmwareTableIsCrcTable();
    crc := TableCrc8(CRC8_TABLE, buf, start, len);
    TableFoldIsCrc8(CRC8_TABLE, buf[start..start + len]);
  }
}
