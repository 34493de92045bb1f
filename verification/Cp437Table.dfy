/** Code page 437, the character set of the protocol, as code points. */
module Cp437Table {

  function Rom00(b: bv8): (u: bv32)
    ensures b != 0 ==> 0xA0 <= u < 0x2700
  {
    if b == 0x00 then 0x0000 else if b == 0x01 then 0x263A else if b == 0x02 then 0x263B
    else if b == 0x03 then 0x2665 else if b == 0x04 then 0x2666 else if b == 0x05 then 0x2663
    else if b == 0x06 then 0x2660 else if b == 0x07 then 0x2022 else if b == 0x08 then 0x25D8
    else if b == 0x09 then 0x25CB else if b == 0x0A then 0x25D9 else if b == 0x0B then 0x2642
    else if b == 0x0C then 0x2640 else if b == 0x0D then 0x266A else if b == 0x0E then 0x266B else 0x263C
  }

  function Rom10(b: bv8): (u: bv32)
    ensures 0xA0 <= u < 0x2700
  {
    if b == 0x10 then 0x25B6 else if b == 0x11 then 0x25C0 else if b == 0x12 then 0x2195
    else if b == 0x13 then 0x203C else if b == 0x14 then 0x00B6 else if b == 0x15 then 0x00A7
    else if b == 0x16 then 0x25AC else if b == 0x17 then 0x21A8 else if b == 0x18 then 0x2191
    else if b == 0x19 then 0x2193 else if b == 0x1A then 0x2192 else if b == 0x1B then 0x2190
    else if b == 0x1C then 0x221F else if b == 0x1D then 0x2194 else if b == 0x1E then 0x25B2 else 0x25BC
  }

  function Rom80(b: bv8): (u: bv32)
    ensures 0xA0 <= u < 0x2700
  {
    if b == 0x80 then 0x00C7 else if b == 0x81 then 0x00FC else if b == 0x82 then 0x00E9
    else if b == 0x83 then 0x00E2 else if b == 0x84 then 0x00E4 else if b == 0x85 then 0x00E0
    else if b == 0x86 then 0x00E5 else if b == 0x87 then 0x00E7 else if b == 0x88 then 0x00EA
    else if b == 0x89 then 0x00EB else if b == 0x8A then 0x00E8 else if b == 0x8B then 0x00EF
    else if b == 0x8C then 0x00EE else if b == 0x8D then 0x00EC else if b == 0x8E then 0x00C4 else 0x00C5
  }

  function Rom90(b: bv8): (u: bv32)
    ensures 0xA0 <= u < 0x2700
  {
    if b == 0x90 then 0x00C9 else if b == 0x91 then 0x00E6 else if b == 0x92 then 0x00C6
    else if b == 0x93 then 0x00F4 else if b == 0x94 then 0x00F6 else if b == 0x95 then 0x00F2
    else if b == 0x96 then 0x00FB else if b == 0x97 then 0x00F9 else if b == 0x98 then 0x00FF
    else if b == 0x99 then 0x00D6 else if b == 0x9A then 0x00DC else if b == 0x9B then 0x00A2
    else if b == 0x9C then 0x00A3 else if b == 0x9D then 0x00A5 else if b == 0x9E then 0x20A7 else 0x0192
  }

  function RomA0(b: bv8): (u: bv32)
    ensures 0xA0 <= u < 0x2700
  {
    if b == 0xA0 then 0x00E1 else if b == 0xA1 then 0x00ED else if b == 0xA2 then 0x00F3
    else if b == 0xA3 then 0x00FA else if b == 0xA4 then 0x00F1 else if b == 0xA5 then 0x00D1
    else if b == 0xA6 then 0x00AA else if b == 0xA7 then 0x00BA else if b == 0xA8 then 0x00BF
    else if b == 0xA9 then 0x2310 else if b == 0xAA then 0x00AC else if b == 0xAB then 0x00BD
    else if b == 0xAC then 0x00BC else if b == 0xAD then 0x00A1 else if b == 0xAE then 0x00AB else 0x00BB
  }

  function RomB0(b: bv8): (u: bv32)
    ensures 0xA0 <= u < 0x2700
  {
    if b == 0xB0 then 0x2591 else if b == 0xB1 then 0x2592 else if b == 0xB2 then 0x2593
    else if b == 0xB3 then 0x2502 else if b == 0xB4 then 0x2524 else if b == 0xB5 then 0x2561
    else if b == 0xB6 then 0x2562 else if b == 0xB7 then 0x2556 else if b == 0xB8 then 0x2555
    else if b == 0xB9 then 0x2563 else if b == 0xBA then 0x2551 else if b == 0xBB then 0x2557
    else if b == 0xBC then 0x255D else if b == 0xBD then 0x255C else if b == 0xBE then 0x255B else 0x2510
  }

  function RomC0(b: bv8): (u: bv32)
    ensures 0xA0 <= u < 0x2700
  {
    if b == 0xC0 then 0x2514 else if b == 0xC1 then 0x2534 else if b == 0xC2 then 0x252C
    else if b == 0xC3 then 0x251C else if b == 0xC4 then 0x2500 else if b == 0xC5 then 0x253C
    else if b == 0xC6 then 0x255E else if b == 0xC7 then 0x255F else if b == 0xC8 then 0x255A
    else if b == 0xC9 then 0x2554 else if b == 0xCA then 0x2569 else if b == 0xCB then 0x2566
    else if b == 0xCC then 0x2560 else if b == 0xCD then 0x2550 else if b == 0xCE then 0x256C else 0x2567
  }

  function RomD0(b: bv8): (u: bv32)
    ensures 0xA0 <= u < 0x2700
  {
    if b == 0xD0 then 0x2568 else if b == 0xD1 then 0x2564 else if b == 0xD2 then 0x2565
    else if b == 0xD3 then 0x2559 else if b == 0xD4 then 0x2558 else if b == 0xD5 then 0x2552
    else if b == 0xD6 then 0x2553 else if b == 0xD7 then 0x256B else if b == 0xD8 then 0x256A
    else if b == 0xD9 then 0x2518 else if b == 0xDA then 0x250C else if b == 0xDB then 0x2588
    else if b == 0xDC then 0x2584 else if b == 0xDD then 0x258C else if b == 0xDE then 0x2590 else 0x2580
  }

  function RomE0(b: bv8): (u: bv32)
    ensures 0xA0 <= u < 0x2700
  {
    if b == 0xE0 then 0x03B1 else if b == 0xE1 then 0x00DF else if b == 0xE2 then 0x0393
    else if b == 0xE3 then 0x03C0 else if b == 0xE4 then 0x03A3 else if b == 0xE5 then 0x03C3
    else if b == 0xE6 then 0x00B5 else if b == 0xE7 then 0x03C4 else if b == 0xE8 then 0x03A6
    else if b == 0xE9 then 0x0398 else if b == 0xEA then 0x03A9 else if b == 0xEB then 0x03B4
    else if b == 0xEC then 0x221E else if b == 0xED then 0x03C6 else if b == 0xEE then 0x03B5 else 0x2229
  }

  function RomF0(b: bv8): (u: bv32)
    ensures 0xA0 <= u < 0x2700
  {
    if b == 0xF0 then 0x2261 else if b == 0xF1 then 0x00B1 else if b == 0xF2 then 0x2265
    else if b == 0xF3 then 0x2264 else if b == 0xF4 then 0x2320 else if b == 0xF5 then 0x2321
    else if b == 0xF6 then 0x00F7 else if b == 0xF7 then 0x2248 else if b == 0xF8 then 0x00B0
    else if b == 0xF9 then 0x2219 else if b == 0xFA then 0x00B7 else if b == 0xFB then 0x221A
    else if b == 0xFC then 0x207F else if b == 0xFD then 0x00B2 else if b == 0xFE then 0x25A0 else 0x00A0
  }

  /** `cp437rom` */
  function Rom(b: bv8): (u: bv32)
    ensures b != 0 && !(0x20 <= b < 0x7F) ==> 0x80 <= u < 0x2700
    ensures 0x20 <= b < 0x7F ==> u == b as bv32
  {
    if b < 0x10 then Rom00(b) else if b < 0x20 then Rom10(b) else if b < 0x7F then b as bv32
    else if b == 0x7F then 0x2302 else if b < 0x90 then Rom80(b) else if b < 0xA0 then Rom90(b)
    else if b < 0xB0 then RomA0(b) else if b < 0xC0 then RomB0(b) else if b < 0xD0 then RomC0(b)
    else if b < 0xE0 then RomD0(b) else if b < 0xF0 then RomE0(b) else RomF0(b)
  }

  function From00A0(u: bv32): bv8 {
    if u == 0x00A0 then 0xFF else if u == 0x00A1 then 0xAD else if u == 0x00A2 then 0x9B
    else if u == 0x00A3 then 0x9C else if u == 0x00A5 then 0x9D else if u == 0x00A7 then 0x15
    else if u == 0x00AA then 0xA6 else if u == 0x00AB then 0xAE else if u == 0x00AC then 0xAA
    else if u == 0x00B0 then 0xF8 else if u == 0x00B1 then 0xF1 else if u == 0x00B2 then 0xFD
    else if u == 0x00B5 then 0xE6 else if u == 0x00B6 then 0x14 else if u == 0x00B7 then 0xFA
    else if u == 0x00BA then 0xA7 else if u == 0x00BB then 0xAF else if u == 0x00BC then 0xAC
    else if u == 0x00BD then 0xAB else if u == 0x00BF then 0xA8 else 0
  }

  function From00C4(u: bv32): bv8 {
    if u == 0x00C4 then 0x8E else if u == 0x00C5 then 0x8F else if u == 0x00C6 then 0x92
    else if u == 0x00C7 then 0x80 else if u == 0x00C9 then 0x90 else if u == 0x00D1 then 0xA5
    else if u == 0x00D6 then 0x99 else if u == 0x00DC then 0x9A else if u == 0x00DF then 0xE1
    else if u == 0x00E0 then 0x85 else if u == 0x00E1 then 0xA0 else if u == 0x00E2 then 0x83
    else if u == 0x00E4 then 0x84 else if u == 0x00E5 then 0x86 else if u == 0x00E6 then 0x91
    else if u == 0x00E7 then 0x87 else if u == 0x00E8 then 0x8A else if u == 0x00E9 then 0x82
    else if u == 0x00EA then 0x88 else if u == 0x00EB then 0x89 else 0
  }

  function From00EC(u: bv32): bv8 {
    if u == 0x00EC then 0x8D else if u == 0x00ED then 0xA1 else if u == 0x00EE then 0x8C
    else if u == 0x00EF then 0x8B else if u == 0x00F1 then 0xA4 else if u == 0x00F2 then 0x95
    else if u == 0x00F3 then 0xA2 else if u == 0x00F4 then 0x93 else if u == 0x00F6 then 0x94
    else if u == 0x00F7 then 0xF6 else if u == 0x00F9 then 0x97 else if u == 0x00FA then 0xA3
    else if u == 0x00FB then 0x96 else if u == 0x00FC then 0x81 else if u == 0x00FF then 0x98
    else if u == 0x0192 then 0x9F else if u == 0x0393 then 0xE2 else if u == 0x0398 then 0xE9
    else if u == 0x03A3 then 0xE4 else if u == 0x03A6 then 0xE8 else 0
  }

  function From03A9(u: bv32): bv8 {
    if u == 0x03A9 then 0xEA else if u == 0x03B1 then 0xE0 else if u == 0x03B4 then 0xEB
    else if u == 0x03B5 then 0xEE else if u == 0x03C0 then 0xE3 else if u == 0x03C3 then 0xE5
    else if u == 0x03C4 then 0xE7 else if u == 0x03C6 then 0xED else if u == 0x2022 then 0x07
    else if u == 0x203C then 0x13 else if u == 0x207F then 0xFC else if u == 0x20A7 then 0x9E
    else if u == 0x2190 then 0x1B else if u == 0x2191 then 0x18 else if u == 0x2192 then 0x1A
    else if u == 0x2193 then 0x19 else if u == 0x2194 then 0x1D else if u == 0x2195 then 0x12
    else if u == 0x21A8 then 0x17 else if u == 0x2219 then 0xF9 else 0
  }

  function From221A(u: bv32): bv8 {
    if u == 0x221A then 0xFB else if u == 0x221E then 0xEC else if u == 0x221F then 0x1C
    else if u == 0x2229 then 0xEF else if u == 0x2248 then 0xF7 else if u == 0x2261 then 0xF0
    else if u == 0x2264 then 0xF3 else if u == 0x2265 then 0xF2 else if u == 0x2302 then 0x7F
    else if u == 0x2310 then 0xA9 else if u == 0x2320 then 0xF4 else if u == 0x2321 then 0xF5
    else if u == 0x2500 then 0xC4 else if u == 0x2502 then 0xB3 else if u == 0x250C then 0xDA
    else if u == 0x2510 then 0xBF else if u == 0x2514 then 0xC0 else if u == 0x2518 then 0xD9
    else if u == 0x251C then 0xC3 else if u == 0x2524 then 0xB4 else 0
  }

  function From252C(u: bv32): bv8 {
    if u == 0x252C then 0xC2 else if u == 0x2534 then 0xC1 else if u == 0x253C then 0xC5
    else if u == 0x2550 then 0xCD else if u == 0x2551 then 0xBA else if u == 0x2552 then 0xD5
    else if u == 0x2553 then 0xD6 else if u == 0x2554 then 0xC9 else if u == 0x2555 then 0xB8
    else if u == 0x2556 then 0xB7 else if u == 0x2557 then 0xBB else if u == 0x2558 then 0xD4
    else if u == 0x2559 then 0xD3 else if u == 0x255A then 0xC8 else if u == 0x255B then 0xBE
    else if u == 0x255C then 0xBD else if u == 0x255D then 0xBC else if u == 0x255E then 0xC6
    else if u == 0x255F then 0xC7 else if u == 0x2560 then 0xCC else 0
  }

  function From2561(u: bv32): bv8 {
    if u == 0x2561 then 0xB5 else if u == 0x2562 then 0xB6 else if u == 0x2563 then 0xB9
    else if u == 0x2564 then 0xD1 else if u == 0x2565 then 0xD2 else if u == 0x2566 then 0xCB
    else if u == 0x2567 then 0xCF else if u == 0x2568 then 0xD0 else if u == 0x2569 then 0xCA
    else if u == 0x256A then 0xD8 else if u == 0x256B then 0xD7 else if u == 0x256C then 0xCE
    else if u == 0x2580 then 0xDF else if u == 0x2584 then 0xDC else if u == 0x2588 then 0xDB
    else if u == 0x258C then 0xDD else if u == 0x2590 then 0xDE else if u == 0x2591 then 0xB0
    else if u == 0x2592 then 0xB1 else if u == 0x2593 then 0xB2 else 0
  }

  function From25A0(u: bv32): bv8 {
    if u == 0x25A0 then 0xFE else if u == 0x25AC then 0x16 else if u == 0x25B2 then 0x1E
    else if u == 0x25B6 then 0x10 else if u == 0x25BC then 0x1F else if u == 0x25C0 then 0x11
    else if u == 0x25CB then 0x09 else if u == 0x25D8 then 0x08 else if u == 0x25D9 then 0x0A
    else if u == 0x263A then 0x01 else if u == 0x263B then 0x02 else if u == 0x263C then 0x0F
    else if u == 0x2640 then 0x0C else if u == 0x2642 then 0x0B else if u == 0x2660 then 0x06
    else if u == 0x2663 then 0x05 else if u == 0x2665 then 0x03 else if u == 0x2666 then 0x04
    else if u == 0x266A then 0x0D else if u == 0x266B then 0x0E else 0
  }

  /** Where a code point stands in the table; 0 if it does not. */
  function Inverse(u: bv32): bv8 {
    if 0x20 <= u < 0x7F then u as bv8 else if u < 0x00C4 then From00A0(u)
    else if u < 0x00EC then From00C4(u) else if u < 0x03A9 then From00EC(u)
    else if u < 0x221A then From03A9(u) else if u < 0x252C then From221A(u)
    else if u < 0x2561 then From252C(u) else if u < 0x25A0 then From2561(u) else From25A0(u)
  }

  lemma Row00Inverse(b: bv8)
    requires 0x00 <= b < 0x10
    ensures Inverse(Rom00(b)) == b
  {
  }

  lemma Row10Inverse(b: bv8)
    requires 0x10 <= b < 0x20
    ensures Inverse(Rom10(b)) == b
  {
  }

  lemma Row80Inverse(b: bv8)
    requires 0x80 <= b < 0x90
    ensures Inverse(Rom80(b)) == b
  {
  }

  lemma Row90Inverse(b: bv8)
    requires 0x90 <= b < 0xA0
    ensures Inverse(Rom90(b)) == b
  {
  }

  lemma RowA0Inverse(b: bv8)
    requires 0xA0 <= b < 0xB0
    ensures Inverse(RomA0(b)) == b
  {
  }

  lemma RowB0Inverse(b: bv8)
    requires 0xB0 <= b < 0xC0
    ensures Inverse(RomB0(b)) == b
  {
  }

  lemma RowC0Inverse(b: bv8)
    requires 0xC0 <= b < 0xD0
    ensures Inverse(RomC0(b)) == b
  {
  }

  lemma RowD0Inverse(b: bv8)
    requires 0xD0 <= b < 0xE0
    ensures Inverse(RomD0(b)) == b
  {
  }

  lemma RowE0Inverse(b: bv8)
    requires 0xE0 <= b < 0xF0
    ensures Inverse(RomE0(b)) == b
  {
  }

  lemma RowF0Inverse(b: bv8)
    requires 0xF0 <= b
    ensures Inverse(RomF0(b)) == b
  {
  }

  /** No two characters have the same code point. */
  lemma RomInverse(b: bv8)
    ensures Inverse(Rom(b)) == b
  {
    hide Inverse, Rom00, Rom10, Rom80, Rom90, RomA0, RomB0, RomC0, RomD0, RomE0, RomF0;
    if b < 0x10 { Row00Inverse(b); }
    else if b < 0x20 { Row10Inverse(b); }
    else if b < 0x80 { AsciiInverse(b); }
    else if b < 0x90 { Row80Inverse(b); }
    else if b < 0xA0 { Row90Inverse(b); }
    else if b < 0xB0 { RowA0Inverse(b); }
    else if b < 0xC0 { RowB0Inverse(b); }
    else if b < 0xD0 { RowC0Inverse(b); }
    else if b < 0xE0 { RowD0Inverse(b); }
    else if b < 0xF0 { RowE0Inverse(b); }
    else if b >= 0xF0 { RowF0Inverse(b); }
  }

  lemma AsciiInverse(b: bv8)
    requires 0x20 <= b < 0x80
    ensures Inverse(Rom(b)) == b
  {
  }
}
