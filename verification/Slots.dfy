/** The hash slot of a key: CRC-16 by table, of the hash tag where there is one. */
module Slots {
  import opened Common

  // ---- CRC-16/XMODEM bit by bit: polynomial 0x1021, initial value 0

  datatype Word = Word(bits: bv16)

  function Xor(a: Word, b: Word): Word { Word(a.bits ^ b.bits) }

  function Left8(x: Word): Word { Word(x.bits << 8) }

  /** One bit is shifted out; when it is set the polynomial is added. Branch-free: 0 - 1 is a word
      of ones. */
  function Shift1(x: Word): Word { Word((x.bits << 1) ^ ((0 - (x.bits >> 15)) & 0x1021)) }

  lemma {:induction false} Shift1IsTextbook(x: bv16)
    ensures Shift1(Word(x)) == Word(if x & 0x8000 != 0 then (x << 1) ^ 0x1021 else x << 1)
  {
    if x & 0x8000 != 0 {
      assert x >> 15 == 1;
    } else {
      assert x >> 15 == 0;
    }
  }

  function Shift8(x: Word): Word {
    Shift1(Shift1(Shift1(Shift1(Shift1(Shift1(Shift1(Shift1(x))))))))
  }

  /** The checksum of the first n bytes. */
  function Checksum(data: seq<bv8>, n: nat): Word
    requires n <= |data|
  {
    if n == 0 then Word(0) else Shift8(Xor(Checksum(data, n - 1), Left8(Word(data[n - 1] as bv16))))
  }

  // ---- the table

  function Lookup(i: bv16): bv16
    requires i < 256
  {
    if i < 16 then (
      if i == 0 then 0x0000 else if i == 1 then 0x1021 else if i == 2 then 0x2042 else
      if i == 3 then 0x3063 else if i == 4 then 0x4084 else if i == 5 then 0x50a5 else
      if i == 6 then 0x60c6 else if i == 7 then 0x70e7 else if i == 8 then 0x8108 else
      if i == 9 then 0x9129 else if i == 10 then 0xa14a else if i == 11 then 0xb16b else
      if i == 12 then 0xc18c else if i == 13 then 0xd1ad else if i == 14 then 0xe1ce else 0xf1ef)
    else if i < 32 then (
      if i == 16 then 0x1231 else if i == 17 then 0x0210 else if i == 18 then 0x3273 else
      if i == 19 then 0x2252 else if i == 20 then 0x52b5 else if i == 21 then 0x4294 else
      if i == 22 then 0x72f7 else if i == 23 then 0x62d6 else if i == 24 then 0x9339 else
      if i == 25 then 0x8318 else if i == 26 then 0xb37b else if i == 27 then 0xa35a else
      if i == 28 then 0xd3bd else if i == 29 then 0xc39c else if i == 30 then 0xf3ff else 0xe3de)
    else if i < 48 then (
      if i == 32 then 0x2462 else if i == 33 then 0x3443 else if i == 34 then 0x0420 else
      if i == 35 then 0x1401 else if i == 36 then 0x64e6 else if i == 37 then 0x74c7 else
      if i == 38 then 0x44a4 else if i == 39 then 0x5485 else if i == 40 then 0xa56a else
      if i == 41 then 0xb54b else if i == 42 then 0x8528 else if i == 43 then 0x9509 else
      if i == 44 then 0xe5ee else if i == 45 then 0xf5cf else if i == 46 then 0xc5ac else 0xd58d)
    else if i < 64 then (
      if i == 48 then 0x3653 else if i == 49 then 0x2672 else if i == 50 then 0x1611 else
      if i == 51 then 0x0630 else if i == 52 then 0x76d7 else if i == 53 then 0x66f6 else
      if i == 54 then 0x5695 else if i == 55 then 0x46b4 else if i == 56 then 0xb75b else
      if i == 57 then 0xa77a else if i == 58 then 0x9719 else if i == 59 then 0x8738 else
      if i == 60 then 0xf7df else if i == 61 then 0xe7fe else if i == 62 then 0xd79d else 0xc7bc)
    else if i < 80 then (
      if i == 64 then 0x48c4 else if i == 65 then 0x58e5 else if i == 66 then 0x6886 else
      if i == 67 then 0x78a7 else if i == 68 then 0x0840 else if i == 69 then 0x1861 else
      if i == 70 then 0x2802 else if i == 71 then 0x3823 else if i == 72 then 0xc9cc else
      if i == 73 then 0xd9ed else if i == 74 then 0xe98e else if i == 75 then 0xf9af else
      if i == 76 then 0x8948 else if i == 77 then 0x9969 else if i == 78 then 0xa90a else 0xb92b)
    else if i < 96 then (
      if i == 80 then 0x5af5 else if i == 81 then 0x4ad4 else if i == 82 then 0x7ab7 else
      if i == 83 then 0x6a96 else if i == 84 then 0x1a71 else if i == 85 then 0x0a50 else
      if i == 86 then 0x3a33 else if i == 87 then 0x2a12 else if i == 88 then 0xdbfd else
      if i == 89 then 0xcbdc else if i == 90 then 0xfbbf else if i == 91 then 0xeb9e else
      if i == 92 then 0x9b79 else if i == 93 then 0x8b58 else if i == 94 then 0xbb3b else 0xab1a)
    else if i < 112 then (
      if i == 96 then 0x6ca6 else if i == 97 then 0x7c87 else if i == 98 then 0x4ce4 else
      if i == 99 then 0x5cc5 else if i == 100 then 0x2c22 else if i == 101 then 0x3c03 else
      if i == 102 then 0x0c60 else if i == 103 then 0x1c41 else if i == 104 then 0xedae else
      if i == 105 then 0xfd8f else if i == 106 then 0xcdec else if i == 107 then 0xddcd else
      if i == 108 then 0xad2a else if i == 109 then 0xbd0b else if i == 110 then 0x8d68 else 0x9d49)
    else if i < 128 then (
      if i == 112 then 0x7e97 else if i == 113 then 0x6eb6 else if i == 114 then 0x5ed5 else
      if i == 115 then 0x4ef4 else if i == 116 then 0x3e13 else if i == 117 then 0x2e32 else
      if i == 118 then 0x1e51 else if i == 119 then 0x0e70 else if i == 120 then 0xff9f else
      if i == 121 then 0xefbe else if i == 122 then 0xdfdd else if i == 123 then 0xcffc else
      if i == 124 then 0xbf1b else if i == 125 then 0xaf3a else if i == 126 then 0x9f59 else 0x8f78)
    else if i < 144 then (
      if i == 128 then 0x9188 else if i == 129 then 0x81a9 else if i == 130 then 0xb1ca else
      if i == 131 then 0xa1eb else if i == 132 then 0xd10c else if i == 133 then 0xc12d else
      if i == 134 then 0xf14e else if i == 135 then 0xe16f else if i == 136 then 0x1080 else
      if i == 137 then 0x00a1 else if i == 138 then 0x30c2 else if i == 139 then 0x20e3 else
      if i == 140 then 0x5004 else if i == 141 then 0x4025 else if i == 142 then 0x7046 else 0x6067)
    else if i < 160 then (
      if i == 144 then 0x83b9 else if i == 145 then 0x9398 else if i == 146 then 0xa3fb else
      if i == 147 then 0xb3da else if i == 148 then 0xc33d else if i == 149 then 0xd31c else
      if i == 150 then 0xe37f else if i == 151 then 0xf35e else if i == 152 then 0x02b1 else
      if i == 153 then 0x1290 else if i == 154 then 0x22f3 else if i == 155 then 0x32d2 else
      if i == 156 then 0x4235 else if i == 157 then 0x5214 else if i == 158 then 0x6277 else 0x7256)
    else if i < 176 then (
      if i == 160 then 0xb5ea else if i == 161 then 0xa5cb else if i == 162 then 0x95a8 else
      if i == 163 then 0x8589 else if i == 164 then 0xf56e else if i == 165 then 0xe54f else
      if i == 166 then 0xd52c else if i == 167 then 0xc50d else if i == 168 then 0x34e2 else
      if i == 169 then 0x24c3 else if i == 170 then 0x14a0 else if i == 171 then 0x0481 else
      if i == 172 then 0x7466 else if i == 173 then 0x6447 else if i == 174 then 0x5424 else 0x4405)
    else if i < 192 then (
      if i == 176 then 0xa7db else if i == 177 then 0xb7fa else if i == 178 then 0x8799 else
      if i == 179 then 0x97b8 else if i == 180 then 0xe75f else if i == 181 then 0xf77e else
      if i == 182 then 0xc71d else if i == 183 then 0xd73c else if i == 184 then 0x26d3 else
      if i == 185 then 0x36f2 else if i == 186 then 0x0691 else if i == 187 then 0x16b0 else
      if i == 188 then 0x6657 else if i == 189 then 0x7676 else if i == 190 then 0x4615 else 0x5634)
    else if i < 208 then (
      if i == 192 then 0xd94c else if i == 193 then 0xc96d else if i == 194 then 0xf90e else
      if i == 195 then 0xe92f else if i == 196 then 0x99c8 else if i == 197 then 0x89e9 else
      if i == 198 then 0xb98a else if i == 199 then 0xa9ab else if i == 200 then 0x5844 else
      if i == 201 then 0x4865 else if i == 202 then 0x7806 else if i == 203 then 0x6827 else
      if i == 204 then 0x18c0 else if i == 205 then 0x08e1 else if i == 206 then 0x3882 else 0x28a3)
    else if i < 224 then (
      if i == 208 then 0xcb7d else if i == 209 then 0xdb5c else if i == 210 then 0xeb3f else
      if i == 211 then 0xfb1e else if i == 212 then 0x8bf9 else if i == 213 then 0x9bd8 else
      if i == 214 then 0xabbb else if i == 215 then 0xbb9a else if i == 216 then 0x4a75 else
      if i == 217 then 0x5a54 else if i == 218 then 0x6a37 else if i == 219 then 0x7a16 else
      if i == 220 then 0x0af1 else if i == 221 then 0x1ad0 else if i == 222 then 0x2ab3 else 0x3a92)
    else if i < 240 then (
      if i == 224 then 0xfd2e else if i == 225 then 0xed0f else if i == 226 then 0xdd6c else
      if i == 227 then 0xcd4d else if i == 228 then 0xbdaa else if i == 229 then 0xad8b else
      if i == 230 then 0x9de8 else if i == 231 then 0x8dc9 else if i == 232 then 0x7c26 else
      if i == 233 then 0x6c07 else if i == 234 then 0x5c64 else if i == 235 then 0x4c45 else
      if i == 236 then 0x3ca2 else if i == 237 then 0x2c83 else if i == 238 then 0x1ce0 else 0x0cc1)
    else (
      if i == 240 then 0xef1f else if i == 241 then 0xff3e else if i == 242 then 0xcf5d else
      if i == 243 then 0xdf7c else if i == 244 then 0xaf9b else if i == 245 then 0xbfba else
      if i == 246 then 0x8fd9 else if i == 247 then 0x9ff8 else if i == 248 then 0x6e17 else
      if i == 249 then 0x7e36 else if i == 250 then 0x4e55 else if i == 251 then 0x5e74 else
      if i == 252 then 0x2e93 else if i == 253 then 0x3eb2 else if i == 254 then 0x0ed1 else 0x1ef0)
  }

  lemma {:induction false} LookupFrom0(i: bv16)
    requires i < 64
    ensures Word(Lookup(i)) == Shift8(Left8(Word(i)))
  {
  }

  lemma {:induction false} LookupFrom64(i: bv16)
    requires 64 <= i < 128
    ensures Word(Lookup(i)) == Shift8(Left8(Word(i)))
  {
  }

  lemma {:induction false} LookupFrom128(i: bv16)
    requires 128 <= i < 192
    ensures Word(Lookup(i)) == Shift8(Left8(Word(i)))
  {
  }

  lemma {:induction false} LookupFrom192(i: bv16)
    requires 192 <= i < 256
    ensures Word(Lookup(i)) == Shift8(Left8(Word(i)))
  {
  }

  /** Every entry of the table is eight shifts of its index. */
  lemma {:induction false} LookupIsShift8(i: bv16)
    requires i < 256
    ensures Word(Lookup(i)) == Shift8(Left8(Word(i)))
  {
    if i < 64 {
      LookupFrom0(i);
    } else if i < 128 {
      LookupFrom64(i);
    } else if i < 192 {
      LookupFrom128(i);
    } else {
      LookupFrom192(i);
    }
  }

  // ---- shifting is linear

  lemma {:induction false} Shift1Linear(a: Word, c: Word)
    ensures Shift1(Xor(a, c)) == Xor(Shift1(a), Shift1(c))
  {
  }

  lemma {:induction false} Shift8Linear(a: Word, c: Word)
    ensures Shift8(Xor(a, c)) == Xor(Shift8(a), Shift8(c))
  {
    var a1, c1 := Shift1(a), Shift1(c);
    var a2, c2 := Shift1(a1), Shift1(c1);
    var a3, c3 := Shift1(a2), Shift1(c2);
    var a4, c4 := Shift1(a3), Shift1(c3);
    var a5, c5 := Shift1(a4), Shift1(c4);
    var a6, c6 := Shift1(a5), Shift1(c5);
    Shift1Linear(a, c);
    Shift1Linear(a1, c1);
    Shift1Linear(a2, c2);
    Shift1Linear(a3, c3);
    Shift1Linear(a4, c4);
    Shift1Linear(a5, c5);
    Shift1Linear(a6, c6);
    Shift1Linear(Shift1(a6), Shift1(c6));
  }

  // ---- by table

  /** The index of the table: the high byte with the next byte added. */
  function Index(crc: Word, b: bv16): (i: bv16)
    requires b < 256
    ensures i < 256
  {
    ((crc.bits >> 8) ^ b) & 0xff
  }

  function Low(crc: Word): Word { Word(crc.bits & 0xff) }

  /** Adding a byte at the top changes the high byte only. */
  lemma {:induction false} HighAndLow(crc: Word, b: bv16)
    requires b < 256
    ensures Xor(crc, Left8(Word(b))) == Xor(Left8(Word(Index(crc, b))), Low(crc))
    ensures Low(crc).bits < 256 && Left8(Low(crc)) == Left8(crc)
  {
  }

  /** Eight shifts of a low byte only move it. */
  lemma {:induction false} Shift8OfByte(x: Word)
    requires x.bits < 256
    ensures Shift8(x) == Left8(x)
  {
  }

  lemma {:induction false} XorCommutes(a: Word, c: Word)
    ensures Xor(a, c) == Xor(c, a)
  {
  }

  /** One byte more, by table. */
  function ByTable(crc: Word, b: bv16): Word
    requires b < 256
  {
    Xor(Left8(crc), Word(Lookup(Index(crc, b))))
  }

  lemma {:induction false} ByTableIsShift8(crc: Word, b: bv16)
    requires b < 256
    ensures ByTable(crc, b) == Shift8(Xor(crc, Left8(Word(b))))
  {
    var h := Left8(Word(Index(crc, b)));
    HighAndLow(crc, b);
    LookupIsShift8(Index(crc, b));
    Shift8OfByte(Low(crc));
    Shift8Linear(h, Low(crc));
    XorCommutes(Shift8(h), Left8(crc));
  }

  /** `crc16` by table gives the bit-by-bit checksum, for every byte string. */
  method Crc16(data: seq<bv8>) returns (crc: Word)
    ensures crc == Checksum(data, |data|)
  {
    crc := Word(0);
    var i := 0;
    while i < |data|
      invariant 0 <= i <= |data| && crc == Checksum(data, i)
    {
      ByTableIsShift8(crc, data[i] as bv16);
      crc := ByTable(crc, data[i] as bv16);
      i := i + 1;
    }
  }

  lemma {:induction false} OneByte(data: seq<bv8>, k: nat, crc: bv16, b: bv8, crc': bv16)
    requires k < |data| && data[k] == b && Checksum(data, k) == Word(crc)
    requires ByTable(Word(crc), b as bv16) == Word(crc')
    ensures Checksum(data, k + 1) == Word(crc')
  {
    ByTableIsShift8(Word(crc), b as bv16);
  }

  predicate IsCheckText(data: seq<bv8>) {
    data == [0x31, 0x32, 0x33, 0x34, 0x35, 0x36, 0x37, 0x38, 0x39]
  }

  lemma {:induction false} CheckFirst(data: seq<bv8>)
    requires IsCheckText(data)
    ensures Checksum(data, 5) == Word(0x546c)
  {
    OneByte(data, 0, 0x0000, 0x31, 0x2672);
    OneByte(data, 1, 0x2672, 0x32, 0x20b5);
    OneByte(data, 2, 0x20b5, 0x33, 0x9752);
    OneByte(data, 3, 0x9752, 0x34, 0xd789);
    OneByte(data, 4, 0xd789, 0x35, 0x546c);
  }

  /** The check value of CRC-16/XMODEM. */
  lemma {:induction false} CheckValue(data: seq<bv8>)
    requires IsCheckText(data)
    ensures Checksum(data, |data|) == Word(0x31c3)
  {
    CheckFirst(data);
    OneByte(data, 5, 0x546c, 0x36, 0x20e4);
    OneByte(data, 6, 0x20e4, 0x37, 0x86d6);
    OneByte(data, 7, 0x86d6, 0x38, 0x9015);
    OneByte(data, 8, 0x9015, 0x39, 0x31c3);
  }

  // ---- hash tags

  const LEFT: bv8 := 0x7b   // {
  const RIGHT: bv8 := 0x7d  // }

  /** The hash tag of a key stands between its first left brace, at l, and the first right brace
      behind it, at r, when there is something between them. */
  predicate HasTag(key: seq<bv8>, l: nat, r: nat) {
    && l + 1 < r < |key| && key[l] == LEFT && key[r] == RIGHT
    && LEFT !in key[0..l] && RIGHT !in key[l + 1..r]
  }

  ghost predicate NoTag(key: seq<bv8>) {
    forall l: nat, r: nat :: !HasTag(key, l, r)
  }

  function Slot(crc: Word): (slot: nat)
    ensures slot < NUM_SLOT
  {
    (crc.bits as int) % NUM_SLOT
  }

  function SlotOf(text: seq<bv8>): nat { Slot(Checksum(text, |text|)) }

  /** The hash slot as the specification of Redis Cluster defines it. */
  ghost predicate IsSlot(key: seq<bv8>, slot: nat) {
    && (forall l: nat, r: nat :: HasTag(key, l, r) ==> slot == SlotOf(key[l + 1..r]))
    && (NoTag(key) ==> slot == SlotOf(key))
  }

  lemma {:induction false} FoundFirst(s: seq<bv8>, c: bv8, from: nat)
    requires from <= |s|
    ensures c !in s[from..First(s, c, from)]
    ensures First(s, c, from) < |s| ==> s[First(s, c, from)] == c
  {
    FirstMeans(s, c, from);
  }

  lemma {:induction false} InSlice(s: seq<bv8>, from: nat, to: nat, i: nat)
    ensures from <= i < to <= |s| ==> s[i] in s[from..to]
  {
  }

  lemma {:induction false} TagFound(key: seq<bv8>, l: nat, r: nat)
    requires HasTag(key, l, r)
    ensures IsSlot(key, SlotOf(key[l + 1..r]))
  {
  }

  /** The two searches miss no tag. */
  lemma {:induction false} NoTagFound(key: seq<bv8>)
    requires var left := First(key, LEFT, 0);
             left == |key| || var right := First(key, RIGHT, left + 1); right == |key| || right == left + 1
    ensures NoTag(key)
  {
    var left := First(key, LEFT, 0);
    FoundFirst(key, LEFT, 0);
    forall l: nat, r: nat ensures !HasTag(key, l, r) {
      InSlice(key, 0, left, l);
      InSlice(key, 0, l, left);
      if left < |key| {
        var right := First(key, RIGHT, left + 1);
        FoundFirst(key, RIGHT, left + 1);
        InSlice(key, left + 1, right, r);
        InSlice(key, left + 1, r, right);
      }
    }
  }

  /** The remainder of a checksum by 16384, on integers. */
  ghost predicate IsRemainder(text: seq<bv8>, slot: nat) {
    slot < 16384 && exists q: nat :: (Checksum(text, |text|).bits as int) - slot == 16384 * q
  }

  lemma {:induction false} SlotIsRemainder(text: seq<bv8>)
    ensures IsRemainder(text, SlotOf(text))
  {
    var c := Checksum(text, |text|).bits as int;
    assert c - SlotOf(text) == 16384 * (c / 16384);
  }

  /** The remainder by 16384 of the checksum of the tag, or of the whole key when it has none. */
  ghost predicate TagRemainder(key: seq<bv8>, slot: nat) {
    && (forall l: nat, r: nat :: HasTag(key, l, r) ==> IsRemainder(key[l + 1..r], slot))
    && (NoTag(key) ==> IsRemainder(key, slot))
  }

  lemma {:induction false} SlotIsTagRemainder(key: seq<bv8>, slot: nat)
    requires IsSlot(key, slot)
    ensures TagRemainder(key, slot)
  {
    forall l: nat, r: nat | HasTag(key, l, r) ensures IsRemainder(key[l + 1..r], slot) {
      SlotIsRemainder(key[l + 1..r]);
    }
    SlotIsRemainder(key);
  }

  /** The slot of the check text. */
  lemma {:induction false} CheckSlot(data: seq<bv8>)
    requires IsCheckText(data)
    ensures IsSlot(data, 12739) && IsRemainder(data, 12739)
  {
    CheckValue(data);
    assert NoTag(data);
    SlotIsRemainder(data);
  }

  /** `get_slot` is that hash slot. */
  method GetSlot(key: seq<bv8>) returns (slot: nat)
    ensures slot < 16384 && TagRemainder(key, slot) && IsSlot(key, slot)
  {
    var left := First(key, LEFT, 0);
    FoundFirst(key, LEFT, 0);
    if left < |key| {
      var right := First(key, RIGHT, left + 1);
      FoundFirst(key, RIGHT, left + 1);
      if right < |key| && right - left - 1 > 0 {
        var crc := Crc16(key[left + 1..right]);
        TagFound(key, left, right);
        SlotIsTagRemainder(key, Slot(crc));
        return Slot(crc);
      }
    }
    NoTagFound(key);
    var crc := Crc16(key);
    slot := Slot(crc);
    SlotIsTagRemainder(key, slot);
  }

  /** Every key has exactly one slot, and keys with equal tags share it. */
  lemma {:induction false} EqualTagsEqualSlots(
      a: seq<bv8>, la: nat, ra: nat, slotA: nat, b: seq<bv8>, lb: nat, rb: nat, slotB: nat)
    requires IsSlot(a, slotA) && IsSlot(b, slotB) && HasTag(a, la, ra) && HasTag(b, lb, rb)
    requires a[la + 1..ra] == b[lb + 1..rb]
    ensures slotA == slotB
  {
  }

  lemma {:induction false} SlotIsUnique(key: seq<bv8>, s: nat, s': nat)
    requires IsSlot(key, s) && IsSlot(key, s')
    ensures s == s'
  {
    if !NoTag(key) {
      var l: nat, r: nat :| HasTag(key, l, r);
    }
  }
}
