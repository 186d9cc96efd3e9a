/** The AES S-box tables, and the check of their 512 entries: every entry of the one is the affine image of an
    inverse in the field, and the other is its inverse. */
module AesTables {
  import opened Gf256
  import opened Words

  // ---- The tables, a row of sixteen at a time ----

  function Row0(j: nat): bv8 {
    if j == 0 then 0x63 else if j == 1 then 0x7c else if j == 2 then 0x77 else if j == 3 then 0x7b else
    if j == 4 then 0xf2 else if j == 5 then 0x6b else if j == 6 then 0x6f else if j == 7 then 0xc5 else
    if j == 8 then 0x30 else if j == 9 then 0x01 else if j == 10 then 0x67 else if j == 11 then 0x2b else
    if j == 12 then 0xfe else if j == 13 then 0xd7 else if j == 14 then 0xab else 0x76
  }

  function Row1(j: nat): bv8 {
    if j == 0 then 0xca else if j == 1 then 0x82 else if j == 2 then 0xc9 else if j == 3 then 0x7d else
    if j == 4 then 0xfa else if j == 5 then 0x59 else if j == 6 then 0x47 else if j == 7 then 0xf0 else
    if j == 8 then 0xad else if j == 9 then 0xd4 else if j == 10 then 0xa2 else if j == 11 then 0xaf else
    if j == 12 then 0x9c else if j == 13 then 0xa4 else if j == 14 then 0x72 else 0xc0
  }

  function Row2(j: nat): bv8 {
    if j == 0 then 0xb7 else if j == 1 then 0xfd else if j == 2 then 0x93 else if j == 3 then 0x26 else
    if j == 4 then 0x36 else if j == 5 then 0x3f else if j == 6 then 0xf7 else if j == 7 then 0xcc else
    if j == 8 then 0x34 else if j == 9 then 0xa5 else if j == 10 then 0xe5 else if j == 11 then 0xf1 else
    if j == 12 then 0x71 else if j == 13 then 0xd8 else if j == 14 then 0x31 else 0x15
  }

  function Row3(j: nat): bv8 {
    if j == 0 then 0x04 else if j == 1 then 0xc7 else if j == 2 then 0x23 else if j == 3 then 0xc3 else
    if j == 4 then 0x18 else if j == 5 then 0x96 else if j == 6 then 0x05 else if j == 7 then 0x9a else
    if j == 8 then 0x07 else if j == 9 then 0x12 else if j == 10 then 0x80 else if j == 11 then 0xe2 else
    if j == 12 then 0xeb else if j == 13 then 0x27 else if j == 14 then 0xb2 else 0x75
  }

  function Row4(j: nat): bv8 {
    if j == 0 then 0x09 else if j == 1 then 0x83 else if j == 2 then 0x2c else if j == 3 then 0x1a else
    if j == 4 then 0x1b else if j == 5 then 0x6e else if j == 6 then 0x5a else if j == 7 then 0xa0 else
    if j == 8 then 0x52 else if j == 9 then 0x3b else if j == 10 then 0xd6 else if j == 11 then 0xb3 else
    if j == 12 then 0x29 else if j == 13 then 0xe3 else if j == 14 then 0x2f else 0x84
  }

  function Row5(j: nat): bv8 {
    if j == 0 then 0x53 else if j == 1 then 0xd1 else if j == 2 then 0x00 else if j == 3 then 0xed else
    if j == 4 then 0x20 else if j == 5 then 0xfc else if j == 6 then 0xb1 else if j == 7 then 0x5b else
    if j == 8 then 0x6a else if j == 9 then 0xcb else if j == 10 then 0xbe else if j == 11 then 0x39 else
    if j == 12 then 0x4a else if j == 13 then 0x4c else if j == 14 then 0x58 else 0xcf
  }

  function Row6(j: nat): bv8 {
    if j == 0 then 0xd0 else if j == 1 then 0xef else if j == 2 then 0xaa else if j == 3 then 0xfb else
    if j == 4 then 0x43 else if j == 5 then 0x4d else if j == 6 then 0x33 else if j == 7 then 0x85 else
    if j == 8 then 0x45 else if j == 9 then 0xf9 else if j == 10 then 0x02 else if j == 11 then 0x7f else
    if j == 12 then 0x50 else if j == 13 then 0x3c else if j == 14 then 0x9f else 0xa8
  }

  function Row7(j: nat): bv8 {
    if j == 0 then 0x51 else if j == 1 then 0xa3 else if j == 2 then 0x40 else if j == 3 then 0x8f else
    if j == 4 then 0x92 else if j == 5 then 0x9d else if j == 6 then 0x38 else if j == 7 then 0xf5 else
    if j == 8 then 0xbc else if j == 9 then 0xb6 else if j == 10 then 0xda else if j == 11 then 0x21 else
    if j == 12 then 0x10 else if j == 13 then 0xff else if j == 14 then 0xf3 else 0xd2
  }

  function Row8(j: nat): bv8 {
    if j == 0 then 0xcd else if j == 1 then 0x0c else if j == 2 then 0x13 else if j == 3 then 0xec else
    if j == 4 then 0x5f else if j == 5 then 0x97 else if j == 6 then 0x44 else if j == 7 then 0x17 else
    if j == 8 then 0xc4 else if j == 9 then 0xa7 else if j == 10 then 0x7e else if j == 11 then 0x3d else
    if j == 12 then 0x64 else if j == 13 then 0x5d else if j == 14 then 0x19 else 0x73
  }

  function Row9(j: nat): bv8 {
    if j == 0 then 0x60 else if j == 1 then 0x81 else if j == 2 then 0x4f else if j == 3 then 0xdc else
    if j == 4 then 0x22 else if j == 5 then 0x2a else if j == 6 then 0x90 else if j == 7 then 0x88 else
    if j == 8 then 0x46 else if j == 9 then 0xee else if j == 10 then 0xb8 else if j == 11 then 0x14 else
    if j == 12 then 0xde else if j == 13 then 0x5e else if j == 14 then 0x0b else 0xdb
  }

  function RowA(j: nat): bv8 {
    if j == 0 then 0xe0 else if j == 1 then 0x32 else if j == 2 then 0x3a else if j == 3 then 0x0a else
    if j == 4 then 0x49 else if j == 5 then 0x06 else if j == 6 then 0x24 else if j == 7 then 0x5c else
    if j == 8 then 0xc2 else if j == 9 then 0xd3 else if j == 10 then 0xac else if j == 11 then 0x62 else
    if j == 12 then 0x91 else if j == 13 then 0x95 else if j == 14 then 0xe4 else 0x79
  }

  function RowB(j: nat): bv8 {
    if j == 0 then 0xe7 else if j == 1 then 0xc8 else if j == 2 then 0x37 else if j == 3 then 0x6d else
    if j == 4 then 0x8d else if j == 5 then 0xd5 else if j == 6 then 0x4e else if j == 7 then 0xa9 else
    if j == 8 then 0x6c else if j == 9 then 0x56 else if j == 10 then 0xf4 else if j == 11 then 0xea else
    if j == 12 then 0x65 else if j == 13 then 0x7a else if j == 14 then 0xae else 0x08
  }

  function RowC(j: nat): bv8 {
    if j == 0 then 0xba else if j == 1 then 0x78 else if j == 2 then 0x25 else if j == 3 then 0x2e else
    if j == 4 then 0x1c else if j == 5 then 0xa6 else if j == 6 then 0xb4 else if j == 7 then 0xc6 else
    if j == 8 then 0xe8 else if j == 9 then 0xdd else if j == 10 then 0x74 else if j == 11 then 0x1f else
    if j == 12 then 0x4b else if j == 13 then 0xbd else if j == 14 then 0x8b else 0x8a
  }

  function RowD(j: nat): bv8 {
    if j == 0 then 0x70 else if j == 1 then 0x3e else if j == 2 then 0xb5 else if j == 3 then 0x66 else
    if j == 4 then 0x48 else if j == 5 then 0x03 else if j == 6 then 0xf6 else if j == 7 then 0x0e else
    if j == 8 then 0x61 else if j == 9 then 0x35 else if j == 10 then 0x57 else if j == 11 then 0xb9 else
    if j == 12 then 0x86 else if j == 13 then 0xc1 else if j == 14 then 0x1d else 0x9e
  }

  function RowE(j: nat): bv8 {
    if j == 0 then 0xe1 else if j == 1 then 0xf8 else if j == 2 then 0x98 else if j == 3 then 0x11 else
    if j == 4 then 0x69 else if j == 5 then 0xd9 else if j == 6 then 0x8e else if j == 7 then 0x94 else
    if j == 8 then 0x9b else if j == 9 then 0x1e else if j == 10 then 0x87 else if j == 11 then 0xe9 else
    if j == 12 then 0xce else if j == 13 then 0x55 else if j == 14 then 0x28 else 0xdf
  }

  function RowF(j: nat): bv8 {
    if j == 0 then 0x8c else if j == 1 then 0xa1 else if j == 2 then 0x89 else if j == 3 then 0x0d else
    if j == 4 then 0xbf else if j == 5 then 0xe6 else if j == 6 then 0x42 else if j == 7 then 0x68 else
    if j == 8 then 0x41 else if j == 9 then 0x99 else if j == 10 then 0x2d else if j == 11 then 0x0f else
    if j == 12 then 0xb0 else if j == 13 then 0x54 else if j == 14 then 0xbb else 0x16
  }

  function Row(r: nat, j: nat): bv8 {
    match r
    case 0 => Row0(j)
    case 1 => Row1(j)
    case 2 => Row2(j)
    case 3 => Row3(j)
    case 4 => Row4(j)
    case 5 => Row5(j)
    case 6 => Row6(j)
    case 7 => Row7(j)
    case 8 => Row8(j)
    case 9 => Row9(j)
    case 10 => RowA(j)
    case 11 => RowB(j)
    case 12 => RowC(j)
    case 13 => RowD(j)
    case 14 => RowE(j)
    case _ => RowF(j)
  }

  function InvRow0(j: nat): bv8 {
    if j == 0 then 0x52 else if j == 1 then 0x09 else if j == 2 then 0x6a else if j == 3 then 0xd5 else
    if j == 4 then 0x30 else if j == 5 then 0x36 else if j == 6 then 0xa5 else if j == 7 then 0x38 else
    if j == 8 then 0xbf else if j == 9 then 0x40 else if j == 10 then 0xa3 else if j == 11 then 0x9e else
    if j == 12 then 0x81 else if j == 13 then 0xf3 else if j == 14 then 0xd7 else 0xfb
  }

  function InvRow1(j: nat): bv8 {
    if j == 0 then 0x7c else if j == 1 then 0xe3 else if j == 2 then 0x39 else if j == 3 then 0x82 else
    if j == 4 then 0x9b else if j == 5 then 0x2f else if j == 6 then 0xff else if j == 7 then 0x87 else
    if j == 8 then 0x34 else if j == 9 then 0x8e else if j == 10 then 0x43 else if j == 11 then 0x44 else
    if j == 12 then 0xc4 else if j == 13 then 0xde else if j == 14 then 0xe9 else 0xcb
  }

  function InvRow2(j: nat): bv8 {
    if j == 0 then 0x54 else if j == 1 then 0x7b else if j == 2 then 0x94 else if j == 3 then 0x32 else
    if j == 4 then 0xa6 else if j == 5 then 0xc2 else if j == 6 then 0x23 else if j == 7 then 0x3d else
    if j == 8 then 0xee else if j == 9 then 0x4c else if j == 10 then 0x95 else if j == 11 then 0x0b else
    if j == 12 then 0x42 else if j == 13 then 0xfa else if j == 14 then 0xc3 else 0x4e
  }

  function InvRow3(j: nat): bv8 {
    if j == 0 then 0x08 else if j == 1 then 0x2e else if j == 2 then 0xa1 else if j == 3 then 0x66 else
    if j == 4 then 0x28 else if j == 5 then 0xd9 else if j == 6 then 0x24 else if j == 7 then 0xb2 else
    if j == 8 then 0x76 else if j == 9 then 0x5b else if j == 10 then 0xa2 else if j == 11 then 0x49 else
    if j == 12 then 0x6d else if j == 13 then 0x8b else if j == 14 then 0xd1 else 0x25
  }

  function InvRow4(j: nat): bv8 {
    if j == 0 then 0x72 else if j == 1 then 0xf8 else if j == 2 then 0xf6 else if j == 3 then 0x64 else
    if j == 4 then 0x86 else if j == 5 then 0x68 else if j == 6 then 0x98 else if j == 7 then 0x16 else
    if j == 8 then 0xd4 else if j == 9 then 0xa4 else if j == 10 then 0x5c else if j == 11 then 0xcc else
    if j == 12 then 0x5d else if j == 13 then 0x65 else if j == 14 then 0xb6 else 0x92
  }

  function InvRow5(j: nat): bv8 {
    if j == 0 then 0x6c else if j == 1 then 0x70 else if j == 2 then 0x48 else if j == 3 then 0x50 else
    if j == 4 then 0xfd else if j == 5 then 0xed else if j == 6 then 0xb9 else if j == 7 then 0xda else
    if j == 8 then 0x5e else if j == 9 then 0x15 else if j == 10 then 0x46 else if j == 11 then 0x57 else
    if j == 12 then 0xa7 else if j == 13 then 0x8d else if j == 14 then 0x9d else 0x84
  }

  function InvRow6(j: nat): bv8 {
    if j == 0 then 0x90 else if j == 1 then 0xd8 else if j == 2 then 0xab else if j == 3 then 0x00 else
    if j == 4 then 0x8c else if j == 5 then 0xbc else if j == 6 then 0xd3 else if j == 7 then 0x0a else
    if j == 8 then 0xf7 else if j == 9 then 0xe4 else if j == 10 then 0x58 else if j == 11 then 0x05 else
    if j == 12 then 0xb8 else if j == 13 then 0xb3 else if j == 14 then 0x45 else 0x06
  }

  function InvRow7(j: nat): bv8 {
    if j == 0 then 0xd0 else if j == 1 then 0x2c else if j == 2 then 0x1e else if j == 3 then 0x8f else
    if j == 4 then 0xca else if j == 5 then 0x3f else if j == 6 then 0x0f else if j == 7 then 0x02 else
    if j == 8 then 0xc1 else if j == 9 then 0xaf else if j == 10 then 0xbd else if j == 11 then 0x03 else
    if j == 12 then 0x01 else if j == 13 then 0x13 else if j == 14 then 0x8a else 0x6b
  }

  function InvRow8(j: nat): bv8 {
    if j == 0 then 0x3a else if j == 1 then 0x91 else if j == 2 then 0x11 else if j == 3 then 0x41 else
    if j == 4 then 0x4f else if j == 5 then 0x67 else if j == 6 then 0xdc else if j == 7 then 0xea else
    if j == 8 then 0x97 else if j == 9 then 0xf2 else if j == 10 then 0xcf else if j == 11 then 0xce else
    if j == 12 then 0xf0 else if j == 13 then 0xb4 else if j == 14 then 0xe6 else 0x73
  }

  function InvRow9(j: nat): bv8 {
    if j == 0 then 0x96 else if j == 1 then 0xac else if j == 2 then 0x74 else if j == 3 then 0x22 else
    if j == 4 then 0xe7 else if j == 5 then 0xad else if j == 6 then 0x35 else if j == 7 then 0x85 else
    if j == 8 then 0xe2 else if j == 9 then 0xf9 else if j == 10 then 0x37 else if j == 11 then 0xe8 else
    if j == 12 then 0x1c else if j == 13 then 0x75 else if j == 14 then 0xdf else 0x6e
  }

  function InvRowA(j: nat): bv8 {
    if j == 0 then 0x47 else if j == 1 then 0xf1 else if j == 2 then 0x1a else if j == 3 then 0x71 else
    if j == 4 then 0x1d else if j == 5 then 0x29 else if j == 6 then 0xc5 else if j == 7 then 0x89 else
    if j == 8 then 0x6f else if j == 9 then 0xb7 else if j == 10 then 0x62 else if j == 11 then 0x0e else
    if j == 12 then 0xaa else if j == 13 then 0x18 else if j == 14 then 0xbe else 0x1b
  }

  function InvRowB(j: nat): bv8 {
    if j == 0 then 0xfc else if j == 1 then 0x56 else if j == 2 then 0x3e else if j == 3 then 0x4b else
    if j == 4 then 0xc6 else if j == 5 then 0xd2 else if j == 6 then 0x79 else if j == 7 then 0x20 else
    if j == 8 then 0x9a else if j == 9 then 0xdb else if j == 10 then 0xc0 else if j == 11 then 0xfe else
    if j == 12 then 0x78 else if j == 13 then 0xcd else if j == 14 then 0x5a else 0xf4
  }

  function InvRowC(j: nat): bv8 {
    if j == 0 then 0x1f else if j == 1 then 0xdd else if j == 2 then 0xa8 else if j == 3 then 0x33 else
    if j == 4 then 0x88 else if j == 5 then 0x07 else if j == 6 then 0xc7 else if j == 7 then 0x31 else
    if j == 8 then 0xb1 else if j == 9 then 0x12 else if j == 10 then 0x10 else if j == 11 then 0x59 else
    if j == 12 then 0x27 else if j == 13 then 0x80 else if j == 14 then 0xec else 0x5f
  }

  function InvRowD(j: nat): bv8 {
    if j == 0 then 0x60 else if j == 1 then 0x51 else if j == 2 then 0x7f else if j == 3 then 0xa9 else
    if j == 4 then 0x19 else if j == 5 then 0xb5 else if j == 6 then 0x4a else if j == 7 then 0x0d else
    if j == 8 then 0x2d else if j == 9 then 0xe5 else if j == 10 then 0x7a else if j == 11 then 0x9f else
    if j == 12 then 0x93 else if j == 13 then 0xc9 else if j == 14 then 0x9c else 0xef
  }

  function InvRowE(j: nat): bv8 {
    if j == 0 then 0xa0 else if j == 1 then 0xe0 else if j == 2 then 0x3b else if j == 3 then 0x4d else
    if j == 4 then 0xae else if j == 5 then 0x2a else if j == 6 then 0xf5 else if j == 7 then 0xb0 else
    if j == 8 then 0xc8 else if j == 9 then 0xeb else if j == 10 then 0xbb else if j == 11 then 0x3c else
    if j == 12 then 0x83 else if j == 13 then 0x53 else if j == 14 then 0x99 else 0x61
  }

  function InvRowF(j: nat): bv8 {
    if j == 0 then 0x17 else if j == 1 then 0x2b else if j == 2 then 0x04 else if j == 3 then 0x7e else
    if j == 4 then 0xba else if j == 5 then 0x77 else if j == 6 then 0xd6 else if j == 7 then 0x26 else
    if j == 8 then 0xe1 else if j == 9 then 0x69 else if j == 10 then 0x14 else if j == 11 then 0x63 else
    if j == 12 then 0x55 else if j == 13 then 0x21 else if j == 14 then 0x0c else 0x7d
  }

  function InvRow(r: nat, j: nat): bv8 {
    match r
    case 0 => InvRow0(j)
    case 1 => InvRow1(j)
    case 2 => InvRow2(j)
    case 3 => InvRow3(j)
    case 4 => InvRow4(j)
    case 5 => InvRow5(j)
    case 6 => InvRow6(j)
    case 7 => InvRow7(j)
    case 8 => InvRow8(j)
    case 9 => InvRow9(j)
    case 10 => InvRowA(j)
    case 11 => InvRowB(j)
    case 12 => InvRowC(j)
    case 13 => InvRowD(j)
    case 14 => InvRowE(j)
    case _ => InvRowF(j)
  }

  function Sbox(x: bv8): bv8 {
    Row(x as nat / 16, x as nat % 16)
  }

  function InvSbox(x: bv8): bv8 {
    InvRow(x as nat / 16, x as nat % 16)
  }

  // ---- Without tables ----

  /** The sum of the bits. */
  function Parity(x: bv8): bv8 {
    var a := x ^ (x >> 4);
    var b := a ^ (a >> 2);
    var c := b ^ (b >> 1);
    c & 1
  }

  function Affine(x: bv8): bv8 {
    (Parity(x & 0xF1) ^ 1) | ((Parity(x & 0xE3) ^ 1) << 1) | (Parity(x & 0xC7) << 2) | (Parity(x & 0x8F) << 3)
    | (Parity(x & 0x1F) << 4) | ((Parity(x & 0x3E) ^ 1) << 5) | ((Parity(x & 0x7C) ^ 1) << 6) | (Parity(x & 0xF8) << 7)
  }

  function InvAffine(x: bv8): bv8 {
    var y := x ^ 0x63;
    Parity(y & 0xA4) | (Parity(y & 0x49) << 1) | (Parity(y & 0x92) << 2) | (Parity(y & 0x25) << 3)
    | (Parity(y & 0x4A) << 4) | (Parity(y & 0x94) << 5) | (Parity(y & 0x29) << 6) | (Parity(y & 0x52) << 7)
  }

  function Nibble(j: nat): bv8 {
    if j == 0 then 0 else if j == 1 then 1 else if j == 2 then 2 else if j == 3 then 3 else
    if j == 4 then 4 else if j == 5 then 5 else if j == 6 then 6 else if j == 7 then 7 else
    if j == 8 then 8 else if j == 9 then 9 else if j == 10 then 10 else if j == 11 then 11 else
    if j == 12 then 12 else if j == 13 then 13 else if j == 14 then 14 else 15
  }

  // ---- Every entry is right ----

  /** s is the entry for x: undoing the affine map leaves the inverse of x. */
  predicate Entry(x: bv8, s: bv8) {
    if x == 0 then InvAffine(s) == 0 else MulCt(x, InvAffine(s)) == 1
  }

  lemma Entries0Low(j: nat)
    requires j < 8
    ensures Entry(0x00 | Nibble(j), Row0(j))
  { }

  lemma Entries0High(j: nat)
    requires 8 <= j < 16
    ensures Entry(0x00 | Nibble(j), Row0(j))
  { }

  lemma Entries1Low(j: nat)
    requires j < 8
    ensures Entry(0x10 | Nibble(j), Row1(j))
  { }

  lemma Entries1High(j: nat)
    requires 8 <= j < 16
    ensures Entry(0x10 | Nibble(j), Row1(j))
  { }

  lemma Entries2Low(j: nat)
    requires j < 8
    ensures Entry(0x20 | Nibble(j), Row2(j))
  { }

  lemma Entries2High(j: nat)
    requires 8 <= j < 16
    ensures Entry(0x20 | Nibble(j), Row2(j))
  { }

  lemma Entries3Low(j: nat)
    requires j < 8
    ensures Entry(0x30 | Nibble(j), Row3(j))
  { }

  lemma Entries3High(j: nat)
    requires 8 <= j < 16
    ensures Entry(0x30 | Nibble(j), Row3(j))
  { }

  lemma Entries4Low(j: nat)
    requires j < 8
    ensures Entry(0x40 | Nibble(j), Row4(j))
  { }

  lemma Entries4High(j: nat)
    requires 8 <= j < 16
    ensures Entry(0x40 | Nibble(j), Row4(j))
  { }

  lemma Entries5Low(j: nat)
    requires j < 8
    ensures Entry(0x50 | Nibble(j), Row5(j))
  { }

  lemma Entries5High(j: nat)
    requires 8 <= j < 16
    ensures Entry(0x50 | Nibble(j), Row5(j))
  { }

  lemma Entries6Low(j: nat)
    requires j < 8
    ensures Entry(0x60 | Nibble(j), Row6(j))
  { }

  lemma Entries6High(j: nat)
    requires 8 <= j < 16
    ensures Entry(0x60 | Nibble(j), Row6(j))
  { }

  lemma Entries7Low(j: nat)
    requires j < 8
    ensures Entry(0x70 | Nibble(j), Row7(j))
  { }

  lemma Entries7High(j: nat)
    requires 8 <= j < 16
    ensures Entry(0x70 | Nibble(j), Row7(j))
  { }

  lemma Entries8Low(j: nat)
    requires j < 8
    ensures Entry(0x80 | Nibble(j), Row8(j))
  { }

  lemma Entries8High(j: nat)
    requires 8 <= j < 16
    ensures Entry(0x80 | Nibble(j), Row8(j))
  { }

  lemma Entries9Low(j: nat)
    requires j < 8
    ensures Entry(0x90 | Nibble(j), Row9(j))
  { }

  lemma Entries9High(j: nat)
    requires 8 <= j < 16
    ensures Entry(0x90 | Nibble(j), Row9(j))
  { }

  lemma EntriesALow(j: nat)
    requires j < 8
    ensures Entry(0xA0 | Nibble(j), RowA(j))
  { }

  lemma EntriesAHigh(j: nat)
    requires 8 <= j < 16
    ensures Entry(0xA0 | Nibble(j), RowA(j))
  { }

  lemma EntriesBLow(j: nat)
    requires j < 8
    ensures Entry(0xB0 | Nibble(j), RowB(j))
  { }

  lemma EntriesBHigh(j: nat)
    requires 8 <= j < 16
    ensures Entry(0xB0 | Nibble(j), RowB(j))
  { }

  lemma EntriesCLow(j: nat)
    requires j < 8
    ensures Entry(0xC0 | Nibble(j), RowC(j))
  { }

  lemma EntriesCHigh(j: nat)
    requires 8 <= j < 16
    ensures Entry(0xC0 | Nibble(j), RowC(j))
  { }

  lemma EntriesDLow(j: nat)
    requires j < 8
    ensures Entry(0xD0 | Nibble(j), RowD(j))
  { }

  lemma EntriesDHigh(j: nat)
    requires 8 <= j < 16
    ensures Entry(0xD0 | Nibble(j), RowD(j))
  { }

  lemma EntriesELow(j: nat)
    requires j < 8
    ensures Entry(0xE0 | Nibble(j), RowE(j))
  { }

  lemma EntriesEHigh(j: nat)
    requires 8 <= j < 16
    ensures Entry(0xE0 | Nibble(j), RowE(j))
  { }

  lemma EntriesFLow(j: nat)
    requires j < 8
    ensures Entry(0xF0 | Nibble(j), RowF(j))
  { }

  lemma EntriesFHigh(j: nat)
    requires 8 <= j < 16
    ensures Entry(0xF0 | Nibble(j), RowF(j))
  { }

  /** The solver's case split. */
  lemma Positions(j: nat)
    ensures j < 4 ==> j == 0 || j == 1 || j == 2 || j == 3
    ensures 4 <= j < 8 ==> j == 4 || j == 5 || j == 6 || j == 7
    ensures 8 <= j < 12 ==> j == 8 || j == 9 || j == 10 || j == 11
  { }

  lemma InvEntries0Low(j: nat)
    requires j < 8
    ensures Entry(InvRow0(j), 0x00 | Nibble(j))
  {
    Positions(j);
  }

  lemma InvEntries0High(j: nat)
    requires 8 <= j < 16
    ensures Entry(InvRow0(j), 0x00 | Nibble(j))
  {
    Positions(j);
  }

  lemma InvEntries1Low(j: nat)
    requires j < 8
    ensures Entry(InvRow1(j), 0x10 | Nibble(j))
  {
    Positions(j);
  }

  lemma InvEntries1High(j: nat)
    requires 8 <= j < 16
    ensures Entry(InvRow1(j), 0x10 | Nibble(j))
  {
    Positions(j);
  }

  lemma InvEntries2Low(j: nat)
    requires j < 8
    ensures Entry(InvRow2(j), 0x20 | Nibble(j))
  {
    Positions(j);
  }

  lemma InvEntries2High(j: nat)
    requires 8 <= j < 16
    ensures Entry(InvRow2(j), 0x20 | Nibble(j))
  {
    Positions(j);
  }

  lemma InvEntries3Low(j: nat)
    requires j < 8
    ensures Entry(InvRow3(j), 0x30 | Nibble(j))
  {
    Positions(j);
  }

  lemma InvEntries3High(j: nat)
    requires 8 <= j < 16
    ensures Entry(InvRow3(j), 0x30 | Nibble(j))
  {
    Positions(j);
  }

  lemma InvEntries4Low(j: nat)
    requires j < 8
    ensures Entry(InvRow4(j), 0x40 | Nibble(j))
  {
    Positions(j);
  }

  lemma InvEntries4High(j: nat)
    requires 8 <= j < 16
    ensures Entry(InvRow4(j), 0x40 | Nibble(j))
  {
    Positions(j);
  }

  lemma InvEntries5Low(j: nat)
    requires j < 8
    ensures Entry(InvRow5(j), 0x50 | Nibble(j))
  {
    Positions(j);
  }

  lemma InvEntries5High(j: nat)
    requires 8 <= j < 16
    ensures Entry(InvRow5(j), 0x50 | Nibble(j))
  {
    Positions(j);
  }

  lemma InvEntries6Low(j: nat)
    requires j < 8
    ensures Entry(InvRow6(j), 0x60 | Nibble(j))
  {
    Positions(j);
  }

  lemma InvEntries6High(j: nat)
    requires 8 <= j < 16
    ensures Entry(InvRow6(j), 0x60 | Nibble(j))
  {
    Positions(j);
  }

  lemma InvEntries7Low(j: nat)
    requires j < 8
    ensures Entry(InvRow7(j), 0x70 | Nibble(j))
  {
    Positions(j);
  }

  lemma InvEntries7High(j: nat)
    requires 8 <= j < 16
    ensures Entry(InvRow7(j), 0x70 | Nibble(j))
  {
    Positions(j);
  }

  lemma InvEntries8Low(j: nat)
    requires j < 8
    ensures Entry(InvRow8(j), 0x80 | Nibble(j))
  {
    Positions(j);
  }

  lemma InvEntries8High(j: nat)
    requires 8 <= j < 16
    ensures Entry(InvRow8(j), 0x80 | Nibble(j))
  {
    Positions(j);
  }

  lemma InvEntries9Low(j: nat)
    requires j < 8
    ensures Entry(InvRow9(j), 0x90 | Nibble(j))
  {
    Positions(j);
  }

  lemma InvEntries9High(j: nat)
    requires 8 <= j < 16
    ensures Entry(InvRow9(j), 0x90 | Nibble(j))
  {
    Positions(j);
  }

  lemma InvEntriesALow(j: nat)
    requires j < 8
    ensures Entry(InvRowA(j), 0xA0 | Nibble(j))
  {
    Positions(j);
  }

  lemma InvEntriesAHigh(j: nat)
    requires 8 <= j < 16
    ensures Entry(InvRowA(j), 0xA0 | Nibble(j))
  {
    Positions(j);
  }

  lemma InvEntriesBLow(j: nat)
    requires j < 8
    ensures Entry(InvRowB(j), 0xB0 | Nibble(j))
  {
    Positions(j);
  }

  lemma InvEntriesBHigh(j: nat)
    requires 8 <= j < 16
    ensures Entry(InvRowB(j), 0xB0 | Nibble(j))
  {
    Positions(j);
  }

  lemma InvEntriesCLow(j: nat)
    requires j < 8
    ensures Entry(InvRowC(j), 0xC0 | Nibble(j))
  {
    Positions(j);
  }

  lemma InvEntriesCHigh(j: nat)
    requires 8 <= j < 16
    ensures Entry(InvRowC(j), 0xC0 | Nibble(j))
  {
    Positions(j);
  }

  lemma InvEntriesDLow(j: nat)
    requires j < 8
    ensures Entry(InvRowD(j), 0xD0 | Nibble(j))
  {
    Positions(j);
  }

  lemma InvEntriesDHigh(j: nat)
    requires 8 <= j < 16
    ensures Entry(InvRowD(j), 0xD0 | Nibble(j))
  {
    Positions(j);
  }

  lemma InvEntriesELow(j: nat)
    requires j < 8
    ensures Entry(InvRowE(j), 0xE0 | Nibble(j))
  {
    Positions(j);
  }

  lemma InvEntriesEHigh(j: nat)
    requires 8 <= j < 16
    ensures Entry(InvRowE(j), 0xE0 | Nibble(j))
  {
    Positions(j);
  }

  lemma InvEntriesFLow(j: nat)
    requires j < 8
    ensures Entry(InvRowF(j), 0xF0 | Nibble(j))
  {
    Positions(j);
  }

  lemma InvEntriesFHigh(j: nat)
    requires 8 <= j < 16
    ensures Entry(InvRowF(j), 0xF0 | Nibble(j))
  {
    Positions(j);
  }

  /** The byte with a given pair of hexadecimal digits. */
  function At(r: nat, j: nat): bv8 {
    (Nibble(r) << 4) | Nibble(j)
  }

  lemma NibbleValue(j: nat)
    requires j < 16
    ensures Nibble(j) as nat == j
  {
  }

  lemma AtValue(a: bv8, b: bv8)
    requires a as nat < 16 && b as nat < 16
    ensures ((a << 4) | b) as nat == 16 * a as nat + b as nat
  {
  }

  lemma AtIs(x: bv8)
    ensures x as nat < 256 && At(x as nat / 16, x as nat % 16) == x
  {
    hide Nibble;
    var (r, j) := (x as nat / 16, x as nat % 16);
    NibbleValue(r);
    NibbleValue(j);
    AtValue(Nibble(r), Nibble(j));
    SameValue(At(r, j), x);
  }

  lemma RowEntriesLow(r: nat, j: nat)
    requires 0 <= r < 8 && j < 16
    ensures Entry(At(r, j), Row(r, j))
  {
    hide Entry, Nibble, Row0, Row1, Row2, Row3, Row4, Row5, Row6, Row7, Row8, Row9, RowA, RowB, RowC, RowD,
        RowE, RowF;
    Digits(r);
    match r
    case 0 =>
      if j < 8 {
        Entries0Low(j);
      } else {
        Entries0High(j);
      }
    case 1 =>
      if j < 8 {
        Entries1Low(j);
      } else {
        Entries1High(j);
      }
    case 2 =>
      if j < 8 {
        Entries2Low(j);
      } else {
        Entries2High(j);
      }
    case 3 =>
      if j < 8 {
        Entries3Low(j);
      } else {
        Entries3High(j);
      }
    case 4 =>
      if j < 8 {
        Entries4Low(j);
      } else {
        Entries4High(j);
      }
    case 5 =>
      if j < 8 {
        Entries5Low(j);
      } else {
        Entries5High(j);
      }
    case 6 =>
      if j < 8 {
        Entries6Low(j);
      } else {
        Entries6High(j);
      }
    case _ =>
      if j < 8 {
        Entries7Low(j);
      } else {
        Entries7High(j);
      }
  }

  lemma RowEntriesHigh(r: nat, j: nat)
    requires 8 <= r < 16 && j < 16
    ensures Entry(At(r, j), Row(r, j))
  {
    hide Entry, Nibble, Row0, Row1, Row2, Row3, Row4, Row5, Row6, Row7, Row8, Row9, RowA, RowB, RowC, RowD,
        RowE, RowF;
    Digits(r);
    match r
    case 8 =>
      if j < 8 {
        Entries8Low(j);
      } else {
        Entries8High(j);
      }
    case 9 =>
      if j < 8 {
        Entries9Low(j);
      } else {
        Entries9High(j);
      }
    case 10 =>
      if j < 8 {
        EntriesALow(j);
      } else {
        EntriesAHigh(j);
      }
    case 11 =>
      if j < 8 {
        EntriesBLow(j);
      } else {
        EntriesBHigh(j);
      }
    case 12 =>
      if j < 8 {
        EntriesCLow(j);
      } else {
        EntriesCHigh(j);
      }
    case 13 =>
      if j < 8 {
        EntriesDLow(j);
      } else {
        EntriesDHigh(j);
      }
    case 14 =>
      if j < 8 {
        EntriesELow(j);
      } else {
        EntriesEHigh(j);
      }
    case _ =>
      if j < 8 {
        EntriesFLow(j);
      } else {
        EntriesFHigh(j);
      }
  }

  lemma RowEntries(r: nat, j: nat)
    requires r < 16 && j < 16
    ensures Entry(At(r, j), Row(r, j))
  {
    hide Entry, At, Row;
    if r < 8 {
      RowEntriesLow(r, j);
    } else {
      RowEntriesHigh(r, j);
    }
  }

  lemma InvRowEntriesLow(r: nat, j: nat)
    requires 0 <= r < 8 && j < 16
    ensures Entry(InvRow(r, j), At(r, j))
  {
    hide Entry, Nibble, InvRow0, InvRow1, InvRow2, InvRow3, InvRow4, InvRow5, InvRow6, InvRow7, InvRow8, InvRow9,
        InvRowA, InvRowB, InvRowC, InvRowD, InvRowE, InvRowF;
    Digits(r);
    match r
    case 0 =>
      if j < 8 {
        InvEntries0Low(j);
      } else {
        InvEntries0High(j);
      }
    case 1 =>
      if j < 8 {
        InvEntries1Low(j);
      } else {
        InvEntries1High(j);
      }
    case 2 =>
      if j < 8 {
        InvEntries2Low(j);
      } else {
        InvEntries2High(j);
      }
    case 3 =>
      if j < 8 {
        InvEntries3Low(j);
      } else {
        InvEntries3High(j);
      }
    case 4 =>
      if j < 8 {
        InvEntries4Low(j);
      } else {
        InvEntries4High(j);
      }
    case 5 =>
      if j < 8 {
        InvEntries5Low(j);
      } else {
        InvEntries5High(j);
      }
    case 6 =>
      if j < 8 {
        InvEntries6Low(j);
      } else {
        InvEntries6High(j);
      }
    case _ =>
      if j < 8 {
        InvEntries7Low(j);
      } else {
        InvEntries7High(j);
      }
  }

  lemma InvRowEntriesHigh(r: nat, j: nat)
    requires 8 <= r < 16 && j < 16
    ensures Entry(InvRow(r, j), At(r, j))
  {
    hide Entry, Nibble, InvRow0, InvRow1, InvRow2, InvRow3, InvRow4, InvRow5, InvRow6, InvRow7, InvRow8, InvRow9,
        InvRowA, InvRowB, InvRowC, InvRowD, InvRowE, InvRowF;
    Digits(r);
    match r
    case 8 =>
      if j < 8 {
        InvEntries8Low(j);
      } else {
        InvEntries8High(j);
      }
    case 9 =>
      if j < 8 {
        InvEntries9Low(j);
      } else {
        InvEntries9High(j);
      }
    case 10 =>
      if j < 8 {
        InvEntriesALow(j);
      } else {
        InvEntriesAHigh(j);
      }
    case 11 =>
      if j < 8 {
        InvEntriesBLow(j);
      } else {
        InvEntriesBHigh(j);
      }
    case 12 =>
      if j < 8 {
        InvEntriesCLow(j);
      } else {
        InvEntriesCHigh(j);
      }
    case 13 =>
      if j < 8 {
        InvEntriesDLow(j);
      } else {
        InvEntriesDHigh(j);
      }
    case 14 =>
      if j < 8 {
        InvEntriesELow(j);
      } else {
        InvEntriesEHigh(j);
      }
    case _ =>
      if j < 8 {
        InvEntriesFLow(j);
      } else {
        InvEntriesFHigh(j);
      }
  }

  lemma InvRowEntries(r: nat, j: nat)
    requires r < 16 && j < 16
    ensures Entry(InvRow(r, j), At(r, j))
  {
    hide Entry, At, InvRow;
    if r < 8 {
      InvRowEntriesLow(r, j);
    } else {
      InvRowEntriesHigh(r, j);
    }
  }

  lemma Digits(r: nat)
    requires r < 16
    ensures Nibble(r) << 4 == [0x00, 0x10, 0x20, 0x30, 0x40, 0x50, 0x60, 0x70, 0x80, 0x90, 0xA0, 0xB0, 0xC0, 0xD0,
        0xE0, 0xF0][r]
  {
  }
}
