/** Lookup tables of the two AES implementations, entry by entry as the driver has them, and the
    algebra of section 4.2 and 5.1.1 of FIPS 197 they stand for. */
module AesTables {

  /** One entry of the FT macro list: V(a,b,c,d). */
  datatype Quad = Quad(a: bv8, b: bv8, c: bv8, d: bv8)

  // The entry of a row of 16 selected by the low half of the index.

  function PickByte(x: bv8, v0: bv8, v1: bv8, v2: bv8, v3: bv8, v4: bv8, v5: bv8, v6: bv8, v7: bv8,
                    v8: bv8, v9: bv8, va: bv8, vb: bv8, vc: bv8, vd: bv8, ve: bv8, vf: bv8): bv8
  {
    var lo := x & 0x0f;
    if lo < 8 then
      if lo < 4 then (if lo < 2 then (if lo < 1 then v0 else v1) else if lo < 3 then v2 else v3)
      else if lo < 6 then (if lo < 5 then v4 else v5)
      else if lo < 7 then v6 else v7
    else
      if lo < 12 then (if lo < 10 then (if lo < 9 then v8 else v9) else if lo < 11 then va else vb)
      else if lo < 14 then (if lo < 13 then vc else vd)
      else if lo < 15 then ve else vf
  }

  function PickQuad(x: bv8, v0: Quad, v1: Quad, v2: Quad, v3: Quad, v4: Quad, v5: Quad, v6: Quad, v7: Quad,
                    v8: Quad, v9: Quad, va: Quad, vb: Quad, vc: Quad, vd: Quad, ve: Quad, vf: Quad): Quad
  {
    var lo := x & 0x0f;
    if lo < 8 then
      if lo < 4 then (if lo < 2 then (if lo < 1 then v0 else v1) else if lo < 3 then v2 else v3)
      else if lo < 6 then (if lo < 5 then v4 else v5)
      else if lo < 7 then v6 else v7
    else
      if lo < 12 then (if lo < 10 then (if lo < 9 then v8 else v9) else if lo < 11 then va else vb)
      else if lo < 14 then (if lo < 13 then vc else vd)
      else if lo < 15 then ve else vf
  }

  /** SboxTable of common/rtmp_tkip.c. */
  function SboxTable(x: bv8): bv8 {
    match x >> 4
    case 0 => PickByte(x,
      0x63, 0x7c, 0x77, 0x7b, 0xf2, 0x6b, 0x6f, 0xc5, 0x30, 0x01, 0x67, 0x2b, 0xfe, 0xd7, 0xab, 0x76)
    case 1 => PickByte(x,
      0xca, 0x82, 0xc9, 0x7d, 0xfa, 0x59, 0x47, 0xf0, 0xad, 0xd4, 0xa2, 0xaf, 0x9c, 0xa4, 0x72, 0xc0)
    case 2 => PickByte(x,
      0xb7, 0xfd, 0x93, 0x26, 0x36, 0x3f, 0xf7, 0xcc, 0x34, 0xa5, 0xe5, 0xf1, 0x71, 0xd8, 0x31, 0x15)
    case 3 => PickByte(x,
      0x04, 0xc7, 0x23, 0xc3, 0x18, 0x96, 0x05, 0x9a, 0x07, 0x12, 0x80, 0xe2, 0xeb, 0x27, 0xb2, 0x75)
    case 4 => PickByte(x,
      0x09, 0x83, 0x2c, 0x1a, 0x1b, 0x6e, 0x5a, 0xa0, 0x52, 0x3b, 0xd6, 0xb3, 0x29, 0xe3, 0x2f, 0x84)
    case 5 => PickByte(x,
      0x53, 0xd1, 0x00, 0xed, 0x20, 0xfc, 0xb1, 0x5b, 0x6a, 0xcb, 0xbe, 0x39, 0x4a, 0x4c, 0x58, 0xcf)
    case 6 => PickByte(x,
      0xd0, 0xef, 0xaa, 0xfb, 0x43, 0x4d, 0x33, 0x85, 0x45, 0xf9, 0x02, 0x7f, 0x50, 0x3c, 0x9f, 0xa8)
    case 7 => PickByte(x,
      0x51, 0xa3, 0x40, 0x8f, 0x92, 0x9d, 0x38, 0xf5, 0xbc, 0xb6, 0xda, 0x21, 0x10, 0xff, 0xf3, 0xd2)
    case 8 => PickByte(x,
      0xcd, 0x0c, 0x13, 0xec, 0x5f, 0x97, 0x44, 0x17, 0xc4, 0xa7, 0x7e, 0x3d, 0x64, 0x5d, 0x19, 0x73)
    case 9 => PickByte(x,
      0x60, 0x81, 0x4f, 0xdc, 0x22, 0x2a, 0x90, 0x88, 0x46, 0xee, 0xb8, 0x14, 0xde, 0x5e, 0x0b, 0xdb)
    case 10 => PickByte(x,
      0xe0, 0x32, 0x3a, 0x0a, 0x49, 0x06, 0x24, 0x5c, 0xc2, 0xd3, 0xac, 0x62, 0x91, 0x95, 0xe4, 0x79)
    case 11 => PickByte(x,
      0xe7, 0xc8, 0x37, 0x6d, 0x8d, 0xd5, 0x4e, 0xa9, 0x6c, 0x56, 0xf4, 0xea, 0x65, 0x7a, 0xae, 0x08)
    case 12 => PickByte(x,
      0xba, 0x78, 0x25, 0x2e, 0x1c, 0xa6, 0xb4, 0xc6, 0xe8, 0xdd, 0x74, 0x1f, 0x4b, 0xbd, 0x8b, 0x8a)
    case 13 => PickByte(x,
      0x70, 0x3e, 0xb5, 0x66, 0x48, 0x03, 0xf6, 0x0e, 0x61, 0x35, 0x57, 0xb9, 0x86, 0xc1, 0x1d, 0x9e)
    case 14 => PickByte(x,
      0xe1, 0xf8, 0x98, 0x11, 0x69, 0xd9, 0x8e, 0x94, 0x9b, 0x1e, 0x87, 0xe9, 0xce, 0x55, 0x28, 0xdf)
    case _ => PickByte(x,
      0x8c, 0xa1, 0x89, 0x0d, 0xbf, 0xe6, 0x42, 0x68, 0x41, 0x99, 0x2d, 0x0f, 0xb0, 0x54, 0xbb, 0x16)
  }

  /** FSb of common/md5.c. */
  function FSb(x: bv8): bv32 {
    match x >> 4
    case 0 => PickByte(x,
      0x63, 0x7c, 0x77, 0x7b, 0xf2, 0x6b, 0x6f, 0xc5, 0x30, 0x01, 0x67, 0x2b, 0xfe, 0xd7, 0xab, 0x76) as bv32
    case 1 => PickByte(x,
      0xca, 0x82, 0xc9, 0x7d, 0xfa, 0x59, 0x47, 0xf0, 0xad, 0xd4, 0xa2, 0xaf, 0x9c, 0xa4, 0x72, 0xc0) as bv32
    case 2 => PickByte(x,
      0xb7, 0xfd, 0x93, 0x26, 0x36, 0x3f, 0xf7, 0xcc, 0x34, 0xa5, 0xe5, 0xf1, 0x71, 0xd8, 0x31, 0x15) as bv32
    case 3 => PickByte(x,
      0x04, 0xc7, 0x23, 0xc3, 0x18, 0x96, 0x05, 0x9a, 0x07, 0x12, 0x80, 0xe2, 0xeb, 0x27, 0xb2, 0x75) as bv32
    case 4 => PickByte(x,
      0x09, 0x83, 0x2c, 0x1a, 0x1b, 0x6e, 0x5a, 0xa0, 0x52, 0x3b, 0xd6, 0xb3, 0x29, 0xe3, 0x2f, 0x84) as bv32
    case 5 => PickByte(x,
      0x53, 0xd1, 0x00, 0xed, 0x20, 0xfc, 0xb1, 0x5b, 0x6a, 0xcb, 0xbe, 0x39, 0x4a, 0x4c, 0x58, 0xcf) as bv32
    case 6 => PickByte(x,
      0xd0, 0xef, 0xaa, 0xfb, 0x43, 0x4d, 0x33, 0x85, 0x45, 0xf9, 0x02, 0x7f, 0x50, 0x3c, 0x9f, 0xa8) as bv32
    case 7 => PickByte(x,
      0x51, 0xa3, 0x40, 0x8f, 0x92, 0x9d, 0x38, 0xf5, 0xbc, 0xb6, 0xda, 0x21, 0x10, 0xff, 0xf3, 0xd2) as bv32
    case 8 => PickByte(x,
      0xcd, 0x0c, 0x13, 0xec, 0x5f, 0x97, 0x44, 0x17, 0xc4, 0xa7, 0x7e, 0x3d, 0x64, 0x5d, 0x19, 0x73) as bv32
    case 9 => PickByte(x,
      0x60, 0x81, 0x4f, 0xdc, 0x22, 0x2a, 0x90, 0x88, 0x46, 0xee, 0xb8, 0x14, 0xde, 0x5e, 0x0b, 0xdb) as bv32
    case 10 => PickByte(x,
      0xe0, 0x32, 0x3a, 0x0a, 0x49, 0x06, 0x24, 0x5c, 0xc2, 0xd3, 0xac, 0x62, 0x91, 0x95, 0xe4, 0x79) as bv32
    case 11 => PickByte(x,
      0xe7, 0xc8, 0x37, 0x6d, 0x8d, 0xd5, 0x4e, 0xa9, 0x6c, 0x56, 0xf4, 0xea, 0x65, 0x7a, 0xae, 0x08) as bv32
    case 12 => PickByte(x,
      0xba, 0x78, 0x25, 0x2e, 0x1c, 0xa6, 0xb4, 0xc6, 0xe8, 0xdd, 0x74, 0x1f, 0x4b, 0xbd, 0x8b, 0x8a) as bv32
    case 13 => PickByte(x,
      0x70, 0x3e, 0xb5, 0x66, 0x48, 0x03, 0xf6, 0x0e, 0x61, 0x35, 0x57, 0xb9, 0x86, 0xc1, 0x1d, 0x9e) as bv32
    case 14 => PickByte(x,
      0xe1, 0xf8, 0x98, 0x11, 0x69, 0xd9, 0x8e, 0x94, 0x9b, 0x1e, 0x87, 0xe9, 0xce, 0x55, 0x28, 0xdf) as bv32
    case _ => PickByte(x,
      0x8c, 0xa1, 0x89, 0x0d, 0xbf, 0xe6, 0x42, 0x68, 0x41, 0x99, 0x2d, 0x0f, 0xb0, 0x54, 0xbb, 0x16) as bv32
  }

  /** The FT macro list of common/md5.c, shared by FT0..FT3. */
  function FT(x: bv8): Quad {
    match x >> 4
    case 0 => PickQuad(x,
      Quad(0xc6, 0x63, 0x63, 0xa5), Quad(0xf8, 0x7c, 0x7c, 0x84), Quad(0xee, 0x77, 0x77, 0x99),
      Quad(0xf6, 0x7b, 0x7b, 0x8d), Quad(0xff, 0xf2, 0xf2, 0x0d), Quad(0xd6, 0x6b, 0x6b, 0xbd),
      Quad(0xde, 0x6f, 0x6f, 0xb1), Quad(0x91, 0xc5, 0xc5, 0x54), Quad(0x60, 0x30, 0x30, 0x50),
      Quad(0x02, 0x01, 0x01, 0x03), Quad(0xce, 0x67, 0x67, 0xa9), Quad(0x56, 0x2b, 0x2b, 0x7d),
      Quad(0xe7, 0xfe, 0xfe, 0x19), Quad(0xb5, 0xd7, 0xd7, 0x62), Quad(0x4d, 0xab, 0xab, 0xe6),
      Quad(0xec, 0x76, 0x76, 0x9a))
    case 1 => PickQuad(x,
      Quad(0x8f, 0xca, 0xca, 0x45), Quad(0x1f, 0x82, 0x82, 0x9d), Quad(0x89, 0xc9, 0xc9, 0x40),
      Quad(0xfa, 0x7d, 0x7d, 0x87), Quad(0xef, 0xfa, 0xfa, 0x15), Quad(0xb2, 0x59, 0x59, 0xeb),
      Quad(0x8e, 0x47, 0x47, 0xc9), Quad(0xfb, 0xf0, 0xf0, 0x0b), Quad(0x41, 0xad, 0xad, 0xec),
      Quad(0xb3, 0xd4, 0xd4, 0x67), Quad(0x5f, 0xa2, 0xa2, 0xfd), Quad(0x45, 0xaf, 0xaf, 0xea),
      Quad(0x23, 0x9c, 0x9c, 0xbf), Quad(0x53, 0xa4, 0xa4, 0xf7), Quad(0xe4, 0x72, 0x72, 0x96),
      Quad(0x9b, 0xc0, 0xc0, 0x5b))
    case 2 => PickQuad(x,
      Quad(0x75, 0xb7, 0xb7, 0xc2), Quad(0xe1, 0xfd, 0xfd, 0x1c), Quad(0x3d, 0x93, 0x93, 0xae),
      Quad(0x4c, 0x26, 0x26, 0x6a), Quad(0x6c, 0x36, 0x36, 0x5a), Quad(0x7e, 0x3f, 0x3f, 0x41),
      Quad(0xf5, 0xf7, 0xf7, 0x02), Quad(0x83, 0xcc, 0xcc, 0x4f), Quad(0x68, 0x34, 0x34, 0x5c),
      Quad(0x51, 0xa5, 0xa5, 0xf4), Quad(0xd1, 0xe5, 0xe5, 0x34), Quad(0xf9, 0xf1, 0xf1, 0x08),
      Quad(0xe2, 0x71, 0x71, 0x93), Quad(0xab, 0xd8, 0xd8, 0x73), Quad(0x62, 0x31, 0x31, 0x53),
      Quad(0x2a, 0x15, 0x15, 0x3f))
    case 3 => PickQuad(x,
      Quad(0x08, 0x04, 0x04, 0x0c), Quad(0x95, 0xc7, 0xc7, 0x52), Quad(0x46, 0x23, 0x23, 0x65),
      Quad(0x9d, 0xc3, 0xc3, 0x5e), Quad(0x30, 0x18, 0x18, 0x28), Quad(0x37, 0x96, 0x96, 0xa1),
      Quad(0x0a, 0x05, 0x05, 0x0f), Quad(0x2f, 0x9a, 0x9a, 0xb5), Quad(0x0e, 0x07, 0x07, 0x09),
      Quad(0x24, 0x12, 0x12, 0x36), Quad(0x1b, 0x80, 0x80, 0x9b), Quad(0xdf, 0xe2, 0xe2, 0x3d),
      Quad(0xcd, 0xeb, 0xeb, 0x26), Quad(0x4e, 0x27, 0x27, 0x69), Quad(0x7f, 0xb2, 0xb2, 0xcd),
      Quad(0xea, 0x75, 0x75, 0x9f))
    case 4 => PickQuad(x,
      Quad(0x12, 0x09, 0x09, 0x1b), Quad(0x1d, 0x83, 0x83, 0x9e), Quad(0x58, 0x2c, 0x2c, 0x74),
      Quad(0x34, 0x1a, 0x1a, 0x2e), Quad(0x36, 0x1b, 0x1b, 0x2d), Quad(0xdc, 0x6e, 0x6e, 0xb2),
      Quad(0xb4, 0x5a, 0x5a, 0xee), Quad(0x5b, 0xa0, 0xa0, 0xfb), Quad(0xa4, 0x52, 0x52, 0xf6),
      Quad(0x76, 0x3b, 0x3b, 0x4d), Quad(0xb7, 0xd6, 0xd6, 0x61), Quad(0x7d, 0xb3, 0xb3, 0xce),
      Quad(0x52, 0x29, 0x29, 0x7b), Quad(0xdd, 0xe3, 0xe3, 0x3e), Quad(0x5e, 0x2f, 0x2f, 0x71),
      Quad(0x13, 0x84, 0x84, 0x97))
    case 5 => PickQuad(x,
      Quad(0xa6, 0x53, 0x53, 0xf5), Quad(0xb9, 0xd1, 0xd1, 0x68), Quad(0x00, 0x00, 0x00, 0x00),
      Quad(0xc1, 0xed, 0xed, 0x2c), Quad(0x40, 0x20, 0x20, 0x60), Quad(0xe3, 0xfc, 0xfc, 0x1f),
      Quad(0x79, 0xb1, 0xb1, 0xc8), Quad(0xb6, 0x5b, 0x5b, 0xed), Quad(0xd4, 0x6a, 0x6a, 0xbe),
      Quad(0x8d, 0xcb, 0xcb, 0x46), Quad(0x67, 0xbe, 0xbe, 0xd9), Quad(0x72, 0x39, 0x39, 0x4b),
      Quad(0x94, 0x4a, 0x4a, 0xde), Quad(0x98, 0x4c, 0x4c, 0xd4), Quad(0xb0, 0x58, 0x58, 0xe8),
      Quad(0x85, 0xcf, 0xcf, 0x4a))
    case 6 => PickQuad(x,
      Quad(0xbb, 0xd0, 0xd0, 0x6b), Quad(0xc5, 0xef, 0xef, 0x2a), Quad(0x4f, 0xaa, 0xaa, 0xe5),
      Quad(0xed, 0xfb, 0xfb, 0x16), Quad(0x86, 0x43, 0x43, 0xc5), Quad(0x9a, 0x4d, 0x4d, 0xd7),
      Quad(0x66, 0x33, 0x33, 0x55), Quad(0x11, 0x85, 0x85, 0x94), Quad(0x8a, 0x45, 0x45, 0xcf),
      Quad(0xe9, 0xf9, 0xf9, 0x10), Quad(0x04, 0x02, 0x02, 0x06), Quad(0xfe, 0x7f, 0x7f, 0x81),
      Quad(0xa0, 0x50, 0x50, 0xf0), Quad(0x78, 0x3c, 0x3c, 0x44), Quad(0x25, 0x9f, 0x9f, 0xba),
      Quad(0x4b, 0xa8, 0xa8, 0xe3))
    case 7 => PickQuad(x,
      Quad(0xa2, 0x51, 0x51, 0xf3), Quad(0x5d, 0xa3, 0xa3, 0xfe), Quad(0x80, 0x40, 0x40, 0xc0),
      Quad(0x05, 0x8f, 0x8f, 0x8a), Quad(0x3f, 0x92, 0x92, 0xad), Quad(0x21, 0x9d, 0x9d, 0xbc),
      Quad(0x70, 0x38, 0x38, 0x48), Quad(0xf1, 0xf5, 0xf5, 0x04), Quad(0x63, 0xbc, 0xbc, 0xdf),
      Quad(0x77, 0xb6, 0xb6, 0xc1), Quad(0xaf, 0xda, 0xda, 0x75), Quad(0x42, 0x21, 0x21, 0x63),
      Quad(0x20, 0x10, 0x10, 0x30), Quad(0xe5, 0xff, 0xff, 0x1a), Quad(0xfd, 0xf3, 0xf3, 0x0e),
      Quad(0xbf, 0xd2, 0xd2, 0x6d))
    case 8 => PickQuad(x,
      Quad(0x81, 0xcd, 0xcd, 0x4c), Quad(0x18, 0x0c, 0x0c, 0x14), Quad(0x26, 0x13, 0x13, 0x35),
      Quad(0xc3, 0xec, 0xec, 0x2f), Quad(0xbe, 0x5f, 0x5f, 0xe1), Quad(0x35, 0x97, 0x97, 0xa2),
      Quad(0x88, 0x44, 0x44, 0xcc), Quad(0x2e, 0x17, 0x17, 0x39), Quad(0x93, 0xc4, 0xc4, 0x57),
      Quad(0x55, 0xa7, 0xa7, 0xf2), Quad(0xfc, 0x7e, 0x7e, 0x82), Quad(0x7a, 0x3d, 0x3d, 0x47),
      Quad(0xc8, 0x64, 0x64, 0xac), Quad(0xba, 0x5d, 0x5d, 0xe7), Quad(0x32, 0x19, 0x19, 0x2b),
      Quad(0xe6, 0x73, 0x73, 0x95))
    case 9 => PickQuad(x,
      Quad(0xc0, 0x60, 0x60, 0xa0), Quad(0x19, 0x81, 0x81, 0x98), Quad(0x9e, 0x4f, 0x4f, 0xd1),
      Quad(0xa3, 0xdc, 0xdc, 0x7f), Quad(0x44, 0x22, 0x22, 0x66), Quad(0x54, 0x2a, 0x2a, 0x7e),
      Quad(0x3b, 0x90, 0x90, 0xab), Quad(0x0b, 0x88, 0x88, 0x83), Quad(0x8c, 0x46, 0x46, 0xca),
      Quad(0xc7, 0xee, 0xee, 0x29), Quad(0x6b, 0xb8, 0xb8, 0xd3), Quad(0x28, 0x14, 0x14, 0x3c),
      Quad(0xa7, 0xde, 0xde, 0x79), Quad(0xbc, 0x5e, 0x5e, 0xe2), Quad(0x16, 0x0b, 0x0b, 0x1d),
      Quad(0xad, 0xdb, 0xdb, 0x76))
    case 10 => PickQuad(x,
      Quad(0xdb, 0xe0, 0xe0, 0x3b), Quad(0x64, 0x32, 0x32, 0x56), Quad(0x74, 0x3a, 0x3a, 0x4e),
      Quad(0x14, 0x0a, 0x0a, 0x1e), Quad(0x92, 0x49, 0x49, 0xdb), Quad(0x0c, 0x06, 0x06, 0x0a),
      Quad(0x48, 0x24, 0x24, 0x6c), Quad(0xb8, 0x5c, 0x5c, 0xe4), Quad(0x9f, 0xc2, 0xc2, 0x5d),
      Quad(0xbd, 0xd3, 0xd3, 0x6e), Quad(0x43, 0xac, 0xac, 0xef), Quad(0xc4, 0x62, 0x62, 0xa6),
      Quad(0x39, 0x91, 0x91, 0xa8), Quad(0x31, 0x95, 0x95, 0xa4), Quad(0xd3, 0xe4, 0xe4, 0x37),
      Quad(0xf2, 0x79, 0x79, 0x8b))
    case 11 => PickQuad(x,
      Quad(0xd5, 0xe7, 0xe7, 0x32), Quad(0x8b, 0xc8, 0xc8, 0x43), Quad(0x6e, 0x37, 0x37, 0x59),
      Quad(0xda, 0x6d, 0x6d, 0xb7), Quad(0x01, 0x8d, 0x8d, 0x8c), Quad(0xb1, 0xd5, 0xd5, 0x64),
      Quad(0x9c, 0x4e, 0x4e, 0xd2), Quad(0x49, 0xa9, 0xa9, 0xe0), Quad(0xd8, 0x6c, 0x6c, 0xb4),
      Quad(0xac, 0x56, 0x56, 0xfa), Quad(0xf3, 0xf4, 0xf4, 0x07), Quad(0xcf, 0xea, 0xea, 0x25),
      Quad(0xca, 0x65, 0x65, 0xaf), Quad(0xf4, 0x7a, 0x7a, 0x8e), Quad(0x47, 0xae, 0xae, 0xe9),
      Quad(0x10, 0x08, 0x08, 0x18))
    case 12 => PickQuad(x,
      Quad(0x6f, 0xba, 0xba, 0xd5), Quad(0xf0, 0x78, 0x78, 0x88), Quad(0x4a, 0x25, 0x25, 0x6f),
      Quad(0x5c, 0x2e, 0x2e, 0x72), Quad(0x38, 0x1c, 0x1c, 0x24), Quad(0x57, 0xa6, 0xa6, 0xf1),
      Quad(0x73, 0xb4, 0xb4, 0xc7), Quad(0x97, 0xc6, 0xc6, 0x51), Quad(0xcb, 0xe8, 0xe8, 0x23),
      Quad(0xa1, 0xdd, 0xdd, 0x7c), Quad(0xe8, 0x74, 0x74, 0x9c), Quad(0x3e, 0x1f, 0x1f, 0x21),
      Quad(0x96, 0x4b, 0x4b, 0xdd), Quad(0x61, 0xbd, 0xbd, 0xdc), Quad(0x0d, 0x8b, 0x8b, 0x86),
      Quad(0x0f, 0x8a, 0x8a, 0x85))
    case 13 => PickQuad(x,
      Quad(0xe0, 0x70, 0x70, 0x90), Quad(0x7c, 0x3e, 0x3e, 0x42), Quad(0x71, 0xb5, 0xb5, 0xc4),
      Quad(0xcc, 0x66, 0x66, 0xaa), Quad(0x90, 0x48, 0x48, 0xd8), Quad(0x06, 0x03, 0x03, 0x05),
      Quad(0xf7, 0xf6, 0xf6, 0x01), Quad(0x1c, 0x0e, 0x0e, 0x12), Quad(0xc2, 0x61, 0x61, 0xa3),
      Quad(0x6a, 0x35, 0x35, 0x5f), Quad(0xae, 0x57, 0x57, 0xf9), Quad(0x69, 0xb9, 0xb9, 0xd0),
      Quad(0x17, 0x86, 0x86, 0x91), Quad(0x99, 0xc1, 0xc1, 0x58), Quad(0x3a, 0x1d, 0x1d, 0x27),
      Quad(0x27, 0x9e, 0x9e, 0xb9))
    case 14 => PickQuad(x,
      Quad(0xd9, 0xe1, 0xe1, 0x38), Quad(0xeb, 0xf8, 0xf8, 0x13), Quad(0x2b, 0x98, 0x98, 0xb3),
      Quad(0x22, 0x11, 0x11, 0x33), Quad(0xd2, 0x69, 0x69, 0xbb), Quad(0xa9, 0xd9, 0xd9, 0x70),
      Quad(0x07, 0x8e, 0x8e, 0x89), Quad(0x33, 0x94, 0x94, 0xa7), Quad(0x2d, 0x9b, 0x9b, 0xb6),
      Quad(0x3c, 0x1e, 0x1e, 0x22), Quad(0x15, 0x87, 0x87, 0x92), Quad(0xc9, 0xe9, 0xe9, 0x20),
      Quad(0x87, 0xce, 0xce, 0x49), Quad(0xaa, 0x55, 0x55, 0xff), Quad(0x50, 0x28, 0x28, 0x78),
      Quad(0xa5, 0xdf, 0xdf, 0x7a))
    case _ => PickQuad(x,
      Quad(0x03, 0x8c, 0x8c, 0x8f), Quad(0x59, 0xa1, 0xa1, 0xf8), Quad(0x09, 0x89, 0x89, 0x80),
      Quad(0x1a, 0x0d, 0x0d, 0x17), Quad(0x65, 0xbf, 0xbf, 0xda), Quad(0xd7, 0xe6, 0xe6, 0x31),
      Quad(0x84, 0x42, 0x42, 0xc6), Quad(0xd0, 0x68, 0x68, 0xb8), Quad(0x82, 0x41, 0x41, 0xc3),
      Quad(0x29, 0x99, 0x99, 0xb0), Quad(0x5a, 0x2d, 0x2d, 0x77), Quad(0x1e, 0x0f, 0x0f, 0x11),
      Quad(0x7b, 0xb0, 0xb0, 0xcb), Quad(0xa8, 0x54, 0x54, 0xfc), Quad(0x6d, 0xbb, 0xbb, 0xd6),
      Quad(0x2c, 0x16, 0x16, 0x3a))
  }

  // ------------------------------------------------------------- GF(2^8)

  /** Multiplication by x modulo x^8 + x^4 + x^3 + x + 1. */
  function Xtime(b: bv8): bv8 {
    (b << 1) ^ (if b & 0x80 != 0 then 0x1b else 0)
  }

  /** Addition in the field, named so that proofs can treat it as one operation. */
  function Xor(a: bv8, b: bv8): bv8 { a ^ b }

  lemma XorZero(a: bv8)
    ensures Xor(a, 0) == a
  {
  }

  lemma XorComm(a: bv8, b: bv8)
    ensures Xor(a, b) == Xor(b, a)
  {
  }

  lemma XorAssoc(a: bv8, b: bv8, c: bv8)
    ensures Xor(Xor(a, b), c) == Xor(a, Xor(b, c))
  {
  }

  lemma XorTwice(a: bv8, b: bv8)
    ensures Xor(Xor(a, b), b) == a
  {
  }

  function Term(a: bv8, bit: bv8): bv8 { if bit != 0 then a else 0 }

  /** The field product, one partial product per bit of `b`. */
  function GfMul(a: bv8, b: bv8): bv8 {
    var a1 := Xtime(a);
    var a2 := Xtime(a1);
    var a3 := Xtime(a2);
    var a4 := Xtime(a3);
    var a5 := Xtime(a4);
    var a6 := Xtime(a5);
    var a7 := Xtime(a6);
    Term(a, b & 0x01) ^ Term(a1, b & 0x02) ^ Term(a2, b & 0x04) ^ Term(a3, b & 0x08)
    ^ Term(a4, b & 0x10) ^ Term(a5, b & 0x20) ^ Term(a6, b & 0x40) ^ Term(a7, b & 0x80)
  }

  function Rotl(b: bv8, n: bv8): bv8
    requires 0 < n < 8
  {
    (b << n) | (b >> (8 - n))
  }

  /** The affine transformation of section 5.1.1, and its inverse. */
  function Affine(b: bv8): bv8 { b ^ Rotl(b, 1) ^ Rotl(b, 2) ^ Rotl(b, 3) ^ Rotl(b, 4) ^ 0x63 }

  function InvAffine(s: bv8): bv8 { Rotl(s, 1) ^ Rotl(s, 3) ^ Rotl(s, 6) ^ 0x05 }

  // ------------------------------------------------------------- what the tables contain

  /** The S-box entry is the affine image of the multiplicative inverse (of 0, for 0). */
  predicate SboxOk(x: bv8) {
    var y := InvAffine(SboxTable(x));
    if x == 0 then y == 0 else GfMul(x, y) == 1
  }

  lemma AffineInverts(s: bv8)
    ensures Affine(InvAffine(s)) == s && InvAffine(Affine(s)) == s
  {
  }

  /** The T-table entry holds 2, 1, 1 and 3 times the S-box entry; both S-boxes agree. */
  predicate TableOk(x: bv8) {
    var s := SboxTable(x);
    FSb(x) == s as bv32 && FT(x) == Quad(Xtime(s), s, s, Xtime(s) ^ s)
  }

  lemma SboxRow0(lo: bv4) ensures SboxOk(0x00 | (lo as bv8)) {}

  lemma TableRow0(lo: bv4) ensures TableOk(0x00 | (lo as bv8)) {}

  lemma SboxRow1(lo: bv4) ensures SboxOk(0x10 | (lo as bv8)) {}

  lemma TableRow1(lo: bv4) ensures TableOk(0x10 | (lo as bv8)) {}

  lemma SboxRow2(lo: bv4) ensures SboxOk(0x20 | (lo as bv8)) {}

  lemma TableRow2(lo: bv4) ensures TableOk(0x20 | (lo as bv8)) {}

  lemma SboxRow3(lo: bv4) ensures SboxOk(0x30 | (lo as bv8)) {}

  lemma TableRow3(lo: bv4) ensures TableOk(0x30 | (lo as bv8)) {}

  lemma SboxRow4(lo: bv4) ensures SboxOk(0x40 | (lo as bv8)) {}

  lemma TableRow4(lo: bv4) ensures TableOk(0x40 | (lo as bv8)) {}

  lemma SboxRow5(lo: bv4) ensures SboxOk(0x50 | (lo as bv8)) {}

  lemma TableRow5(lo: bv4) ensures TableOk(0x50 | (lo as bv8)) {}

  lemma SboxRow6(lo: bv4) ensures SboxOk(0x60 | (lo as bv8)) {}

  lemma TableRow6(lo: bv4) ensures TableOk(0x60 | (lo as bv8)) {}

  lemma SboxRow7(lo: bv4) ensures SboxOk(0x70 | (lo as bv8)) {}

  lemma TableRow7(lo: bv4) ensures TableOk(0x70 | (lo as bv8)) {}

  lemma SboxRow8(lo: bv4) ensures SboxOk(0x80 | (lo as bv8)) {}

  lemma TableRow8(lo: bv4) ensures TableOk(0x80 | (lo as bv8)) {}

  lemma SboxRow9(lo: bv4) ensures SboxOk(0x90 | (lo as bv8)) {}

  lemma TableRow9(lo: bv4) ensures TableOk(0x90 | (lo as bv8)) {}

  lemma SboxRowA(lo: bv4) ensures SboxOk(0xa0 | (lo as bv8)) {}

  lemma TableRowA(lo: bv4) ensures TableOk(0xa0 | (lo as bv8)) {}

  lemma SboxRowB(lo: bv4) ensures SboxOk(0xb0 | (lo as bv8)) {}

  lemma TableRowB(lo: bv4) ensures TableOk(0xb0 | (lo as bv8)) {}

  lemma SboxRowC(lo: bv4) ensures SboxOk(0xc0 | (lo as bv8)) {}

  lemma TableRowC(lo: bv4) ensures TableOk(0xc0 | (lo as bv8)) {}

  lemma SboxRowD(lo: bv4) ensures SboxOk(0xd0 | (lo as bv8)) {}

  lemma TableRowD(lo: bv4) ensures TableOk(0xd0 | (lo as bv8)) {}

  lemma SboxRowE(lo: bv4) ensures SboxOk(0xe0 | (lo as bv8)) {}

  lemma TableRowE(lo: bv4) ensures TableOk(0xe0 | (lo as bv8)) {}

  lemma SboxRowF(lo: bv4) ensures SboxOk(0xf0 | (lo as bv8)) {}

  lemma TableRowF(lo: bv4) ensures TableOk(0xf0 | (lo as bv8)) {}

  lemma Halves(x: bv8)
    ensures x == ((x >> 4) << 4) | ((x & 0x0f) as bv4 as bv8)
    ensures x >> 4 < 16
  {
  }

  /** Every entry of the driver's tables is the value FIPS 197 defines for it. */
  lemma TablesOk(x: bv8)
    ensures SboxOk(x) && TableOk(x)
  {
    hide SboxOk, TableOk;
    Halves(x);
    var lo := (x & 0x0f) as bv4;
    match x >> 4
    case 0 => SboxRow0(lo); TableRow0(lo);
    case 1 => SboxRow1(lo); TableRow1(lo);
    case 2 => SboxRow2(lo); TableRow2(lo);
    case 3 => SboxRow3(lo); TableRow3(lo);
    case 4 => SboxRow4(lo); TableRow4(lo);
    case 5 => SboxRow5(lo); TableRow5(lo);
    case 6 => SboxRow6(lo); TableRow6(lo);
    case 7 => SboxRow7(lo); TableRow7(lo);
    case 8 => SboxRow8(lo); TableRow8(lo);
    case 9 => SboxRow9(lo); TableRow9(lo);
    case 10 => SboxRowA(lo); TableRowA(lo);
    case 11 => SboxRowB(lo); TableRowB(lo);
    case 12 => SboxRowC(lo); TableRowC(lo);
    case 13 => SboxRowD(lo); TableRowD(lo);
    case 14 => SboxRowE(lo); TableRowE(lo);
    case _ => SboxRowF(lo); TableRowF(lo);
  }
}
