/** The table-driven CRC-32 of src/crc32.c against the checksum one bit at a time. */
module Crc32 {
  const REVERSED_POLY: bv32 := 0xEDB88320
  const INIT: bv32 := 0xFFFFFFFF
  const FINAL_XOR: bv32 := 0xFFFFFFFF

  function Xor(a: bv32, b: bv32): bv32 {
    a ^ b
  }

  function Half(c: bv32): bv32 {
    c >> 1
  }

  predicate Odd(c: bv32) {
    c & 1 == 1
  }

  // ---------- one bit at a time ----------

  /** Division by the polynomial, least significant bit first. */
  function Bit(c: bv32): bv32 {
    if Odd(c) then Xor(Half(c), REVERSED_POLY) else Half(c)
  }

  function Shift8(c: bv32): bv32 {
    Bit(Bit(Bit(Bit(Bit(Bit(Bit(Bit(c))))))))
  }

  function Feed(crc: bv32, data: seq<bv8>): bv32 {
    if data == [] then crc
    else Shift8(Xor(Feed(crc, data[..|data| - 1]), data[|data| - 1] as bv32))
  }

  function Checksum(data: seq<bv8>): bv32 {
    Xor(Feed(INIT, data), FINAL_XOR)
  }

  // ---------- the table ----------

  function Pick(x: bv32, a0: bv32, a1: bv32, a2: bv32, a3: bv32, a4: bv32, a5: bv32, a6: bv32, a7: bv32): bv32 {
    if x & 4 == 0 then
      if x & 2 == 0 then (if x & 1 == 0 then a0 else a1) else (if x & 1 == 0 then a2 else a3)
    else
      if x & 2 == 0 then (if x & 1 == 0 then a4 else a5) else (if x & 1 == 0 then a6 else a7)
  }

  // The constant table, eight entries to a row, in eight parts of four rows.

  function FirstRow(x: bv32): bv32 {
    Pick(x, 0x00000000, 0x77073096, 0xEE0E612C, 0x990951BA, 0x076DC419, 0x706AF48F, 0xE963A535, 0x9E6495A3)
  }

  function FirstPart(x: bv32): bv32 {
    if x & 24 == 0 then FirstRow(x) else RestOfFirst(x)
  }

  function RestOfFirst(x: bv32): bv32 {
    if x & 24 == 8 then Pick(x, 0x0EDB8832, 0x79DCB8A4, 0xE0D5E91E, 0x97D2D988, 0x09B64C2B, 0x7EB17CBD, 0xE7B82D07, 0x90BF1D91)
    else if x & 24 == 16 then Pick(x, 0x1DB71064, 0x6AB020F2, 0xF3B97148, 0x84BE41DE, 0x1ADAD47D, 0x6DDDE4EB, 0xF4D4B551, 0x83D385C7)
    else Pick(x, 0x136C9856, 0x646BA8C0, 0xFD62F97A, 0x8A65C9EC, 0x14015C4F, 0x63066CD9, 0xFA0F3D63, 0x8D080DF5)
  }

  function SecondPart(x: bv32): bv32 {
    if x & 24 == 0 then Pick(x, 0x3B6E20C8, 0x4C69105E, 0xD56041E4, 0xA2677172, 0x3C03E4D1, 0x4B04D447, 0xD20D85FD, 0xA50AB56B)
    else if x & 24 == 8 then Pick(x, 0x35B5A8FA, 0x42B2986C, 0xDBBBC9D6, 0xACBCF940, 0x32D86CE3, 0x45DF5C75, 0xDCD60DCF, 0xABD13D59)
    else if x & 24 == 16 then Pick(x, 0x26D930AC, 0x51DE003A, 0xC8D75180, 0xBFD06116, 0x21B4F4B5, 0x56B3C423, 0xCFBA9599, 0xB8BDA50F)
    else Pick(x, 0x2802B89E, 0x5F058808, 0xC60CD9B2, 0xB10BE924, 0x2F6F7C87, 0x58684C11, 0xC1611DAB, 0xB6662D3D)
  }

  function ThirdPart(x: bv32): bv32 {
    if x & 24 == 0 then Pick(x, 0x76DC4190, 0x01DB7106, 0x98D220BC, 0xEFD5102A, 0x71B18589, 0x06B6B51F, 0x9FBFE4A5, 0xE8B8D433)
    else if x & 24 == 8 then Pick(x, 0x7807C9A2, 0x0F00F934, 0x9609A88E, 0xE10E9818, 0x7F6A0DBB, 0x086D3D2D, 0x91646C97, 0xE6635C01)
    else if x & 24 == 16 then Pick(x, 0x6B6B51F4, 0x1C6C6162, 0x856530D8, 0xF262004E, 0x6C0695ED, 0x1B01A57B, 0x8208F4C1, 0xF50FC457)
    else Pick(x, 0x65B0D9C6, 0x12B7E950, 0x8BBEB8EA, 0xFCB9887C, 0x62DD1DDF, 0x15DA2D49, 0x8CD37CF3, 0xFBD44C65)
  }

  function FourthPart(x: bv32): bv32 {
    if x & 24 == 0 then Pick(x, 0x4DB26158, 0x3AB551CE, 0xA3BC0074, 0xD4BB30E2, 0x4ADFA541, 0x3DD895D7, 0xA4D1C46D, 0xD3D6F4FB)
    else if x & 24 == 8 then Pick(x, 0x4369E96A, 0x346ED9FC, 0xAD678846, 0xDA60B8D0, 0x44042D73, 0x33031DE5, 0xAA0A4C5F, 0xDD0D7CC9)
    else if x & 24 == 16 then Pick(x, 0x5005713C, 0x270241AA, 0xBE0B1010, 0xC90C2086, 0x5768B525, 0x206F85B3, 0xB966D409, 0xCE61E49F)
    else Pick(x, 0x5EDEF90E, 0x29D9C998, 0xB0D09822, 0xC7D7A8B4, 0x59B33D17, 0x2EB40D81, 0xB7BD5C3B, 0xC0BA6CAD)
  }

  function FifthPart(x: bv32): bv32 {
    if x & 24 == 0 then Pick(x, 0xEDB88320, 0x9ABFB3B6, 0x03B6E20C, 0x74B1D29A, 0xEAD54739, 0x9DD277AF, 0x04DB2615, 0x73DC1683)
    else if x & 24 == 8 then Pick(x, 0xE3630B12, 0x94643B84, 0x0D6D6A3E, 0x7A6A5AA8, 0xE40ECF0B, 0x9309FF9D, 0x0A00AE27, 0x7D079EB1)
    else if x & 24 == 16 then Pick(x, 0xF00F9344, 0x8708A3D2, 0x1E01F268, 0x6906C2FE, 0xF762575D, 0x806567CB, 0x196C3671, 0x6E6B06E7)
    else Pick(x, 0xFED41B76, 0x89D32BE0, 0x10DA7A5A, 0x67DD4ACC, 0xF9B9DF6F, 0x8EBEEFF9, 0x17B7BE43, 0x60B08ED5)
  }

  function SixthPart(x: bv32): bv32 {
    if x & 24 == 0 then Pick(x, 0xD6D6A3E8, 0xA1D1937E, 0x38D8C2C4, 0x4FDFF252, 0xD1BB67F1, 0xA6BC5767, 0x3FB506DD, 0x48B2364B)
    else if x & 24 == 8 then Pick(x, 0xD80D2BDA, 0xAF0A1B4C, 0x36034AF6, 0x41047A60, 0xDF60EFC3, 0xA867DF55, 0x316E8EEF, 0x4669BE79)
    else if x & 24 == 16 then Pick(x, 0xCB61B38C, 0xBC66831A, 0x256FD2A0, 0x5268E236, 0xCC0C7795, 0xBB0B4703, 0x220216B9, 0x5505262F)
    else Pick(x, 0xC5BA3BBE, 0xB2BD0B28, 0x2BB45A92, 0x5CB36A04, 0xC2D7FFA7, 0xB5D0CF31, 0x2CD99E8B, 0x5BDEAE1D)
  }

  function SeventhPart(x: bv32): bv32 {
    if x & 24 == 0 then Pick(x, 0x9B64C2B0, 0xEC63F226, 0x756AA39C, 0x026D930A, 0x9C0906A9, 0xEB0E363F, 0x72076785, 0x05005713)
    else if x & 24 == 8 then Pick(x, 0x95BF4A82, 0xE2B87A14, 0x7BB12BAE, 0x0CB61B38, 0x92D28E9B, 0xE5D5BE0D, 0x7CDCEFB7, 0x0BDBDF21)
    else if x & 24 == 16 then Pick(x, 0x86D3D2D4, 0xF1D4E242, 0x68DDB3F8, 0x1FDA836E, 0x81BE16CD, 0xF6B9265B, 0x6FB077E1, 0x18B74777)
    else Pick(x, 0x88085AE6, 0xFF0F6A70, 0x66063BCA, 0x11010B5C, 0x8F659EFF, 0xF862AE69, 0x616BFFD3, 0x166CCF45)
  }

  function EighthPart(x: bv32): bv32 {
    if x & 24 == 0 then Pick(x, 0xA00AE278, 0xD70DD2EE, 0x4E048354, 0x3903B3C2, 0xA7672661, 0xD06016F7, 0x4969474D, 0x3E6E77DB)
    else if x & 24 == 8 then Pick(x, 0xAED16A4A, 0xD9D65ADC, 0x40DF0B66, 0x37D83BF0, 0xA9BCAE53, 0xDEBB9EC5, 0x47B2CF7F, 0x30B5FFE9)
    else if x & 24 == 16 then Pick(x, 0xBDBDF21C, 0xCABAC28A, 0x53B39330, 0x24B4A3A6, 0xBAD03605, 0xCDD70693, 0x54DE5729, 0x23D967BF)
    else Pick(x, 0xB3667A2E, 0xC4614AB8, 0x5D681B02, 0x2A6F2B94, 0xB40BBE37, 0xC30C8EA1, 0x5A05DF1B, 0x2D02EF8D)
  }

  function Table(x: bv32): bv32 {
    if x < 32 then FirstPart(x)
    else if x < 64 then SecondPart(x)
    else if x < 96 then ThirdPart(x)
    else if x < 128 then FourthPart(x)
    else if x < 160 then FifthPart(x)
    else if x < 192 then SixthPart(x)
    else if x < 224 then SeventhPart(x)
    else EighthPart(x)
  }

  // ---------- every entry is its index shifted eight times ----------

  // A row is its first entry combined with the first row of all, so that only the first entries and the
  // first row have to be compared with eight shifts.

  function Start(x: bv32): bv32 {
    x & 0xF8
  }

  function Place(x: bv32): bv32 {
    x & 7
  }

  lemma Splits(x: bv32)
    requires x < 256
    ensures Xor(Start(x), Place(x)) == x && Place(x) < 8 && Place(Start(x)) == 0
    ensures Start(x) / 32 == x / 32
  {
  }

  lemma SplitsBits(x: bv32)
    ensures Start(x) & 4 == 0 && Start(x) & 2 == 0 && Start(x) & 1 == 0 && Start(x) & 24 == x & 24
    ensures Place(x) & 4 == x & 4 && Place(x) & 2 == x & 2 && Place(x) & 1 == x & 1
  {
  }

  lemma FirstHalfRowIsShift(x: bv32)
    requires x < 4
    ensures FirstRow(x) == Shift8(x)
  {
  }

  lemma FirstRowIsShift(x: bv32)
    requires x < 8
    ensures FirstRow(x) == Shift8(x)
  {
    hide Shift8;
    if x < 4 {
      FirstHalfRowIsShift(x);
    } else {
      HalfRow(x);
      FirstHalfRowIsShift(x & 3);
      Shift8IsLinear(4, x & 3);
    }
  }

  lemma HalfRow(x: bv32)
    requires 4 <= x < 8
    ensures x & 3 < 4 && Xor(4, x & 3) == x && FirstRow(x) == Xor(Shift8(4), FirstRow(x & 3))
  {
    assert Shift8(4) == 0x076DC419;
  }

  lemma Combined(x: bv32, part: bv32, start: bv32)
    requires x < 256 && part == Xor(start, FirstRow(Place(x))) && start == Shift8(Start(x))
    ensures part == Shift8(x)
  {
    hide Shift8, FirstRow, Xor;
    Splits(x);
    FirstRowIsShift(Place(x));
    Shift8IsLinear(Start(x), Place(x));
  }

  lemma FirstRows(x: bv32)
    ensures FirstPart(x) == Xor(FirstPart(Start(x)), FirstRow(Place(x)))
  {
    hide FirstRow, RestOfFirst, Start, Place, Xor;
    SplitsBits(x);
    if x & 24 == 0 {
      OnFirstRow(x);
    } else {
      RestRows(x);
    }
  }

  lemma OnFirstRow(x: bv32)
    ensures FirstRow(x) == Xor(FirstRow(Start(x)), FirstRow(Place(x)))
  {
    SplitsBits(x);
    hide Start, Place;
  }

  lemma RestRows(x: bv32)
    ensures RestOfFirst(x) == Xor(RestOfFirst(Start(x)), FirstRow(Place(x)))
  {
    SplitsBits(x);
    hide Start, Place;
  }

  lemma FirstStarts(x: bv32)
    requires x < 32
    ensures FirstPart(Start(x)) == Shift8(Start(x))
  {
  }

  lemma SecondRows(x: bv32)
    ensures SecondPart(x) == Xor(SecondPart(Start(x)), FirstRow(Place(x)))
  {
    SplitsBits(x);
    hide Start, Place;
  }

  lemma SecondStarts(x: bv32)
    requires 32 <= x < 64
    ensures SecondPart(Start(x)) == Shift8(Start(x))
  {
  }

  lemma ThirdRows(x: bv32)
    ensures ThirdPart(x) == Xor(ThirdPart(Start(x)), FirstRow(Place(x)))
  {
    SplitsBits(x);
    hide Start, Place;
  }

  lemma ThirdStarts(x: bv32)
    requires 64 <= x < 96
    ensures ThirdPart(Start(x)) == Shift8(Start(x))
  {
  }

  lemma FourthRows(x: bv32)
    ensures FourthPart(x) == Xor(FourthPart(Start(x)), FirstRow(Place(x)))
  {
    SplitsBits(x);
    hide Start, Place;
  }

  lemma FourthStarts(x: bv32)
    requires 96 <= x < 128
    ensures FourthPart(Start(x)) == Shift8(Start(x))
  {
  }

  lemma FifthRows(x: bv32)
    ensures FifthPart(x) == Xor(FifthPart(Start(x)), FirstRow(Place(x)))
  {
    SplitsBits(x);
    hide Start, Place;
  }

  lemma FifthStarts(x: bv32)
    requires 128 <= x < 160
    ensures FifthPart(Start(x)) == Shift8(Start(x))
  {
  }

  lemma SixthRows(x: bv32)
    ensures SixthPart(x) == Xor(SixthPart(Start(x)), FirstRow(Place(x)))
  {
    SplitsBits(x);
    hide Start, Place;
  }

  lemma SixthStarts(x: bv32)
    requires 160 <= x < 192
    ensures SixthPart(Start(x)) == Shift8(Start(x))
  {
  }

  lemma SeventhRows(x: bv32)
    ensures SeventhPart(x) == Xor(SeventhPart(Start(x)), FirstRow(Place(x)))
  {
    SplitsBits(x);
    hide Start, Place;
  }

  lemma SeventhStarts(x: bv32)
    requires 192 <= x < 224
    ensures SeventhPart(Start(x)) == Shift8(Start(x))
  {
  }

  lemma EighthRows(x: bv32)
    ensures EighthPart(x) == Xor(EighthPart(Start(x)), FirstRow(Place(x)))
  {
    SplitsBits(x);
    hide Start, Place;
  }

  lemma EighthStarts(x: bv32)
    requires 224 <= x < 256
    ensures EighthPart(Start(x)) == Shift8(Start(x))
  {
  }

  lemma TableIsShift(x: bv32)
    requires x < 256
    ensures Table(x) == Shift8(x)
  {
    hide Shift8, FirstRow, Start, Place, Xor, FirstPart, SecondPart, ThirdPart, FourthPart, FifthPart, SixthPart, SeventhPart, EighthPart;
    var start := Shift8(Start(x));
    if x < 32 {
      FirstRows(x);
      FirstStarts(x);
    } else if x < 64 {
      SecondRows(x);
      SecondStarts(x);
    } else if x < 96 {
      ThirdRows(x);
      ThirdStarts(x);
    } else if x < 128 {
      FourthRows(x);
      FourthStarts(x);
    } else if x < 160 {
      FifthRows(x);
      FifthStarts(x);
    } else if x < 192 {
      SixthRows(x);
      SixthStarts(x);
    } else if x < 224 {
      SeventhRows(x);
      SeventhStarts(x);
    } else {
      EighthRows(x);
      EighthStarts(x);
    }
    Combined(x, Table(x), start);
  }

  // ---------- shifting is linear ----------

  lemma Commutes(x: bv32, y: bv32)
    ensures Xor(x, y) == Xor(y, x)
  {
  }

  lemma Associates(x: bv32, y: bv32, z: bv32)
    ensures Xor(Xor(x, y), z) == Xor(x, Xor(y, z))
  {
  }

  lemma Undoes(p: bv32, y: bv32)
    ensures Xor(p, p) == 0 && Xor(y, 0) == y
  {
  }

  lemma Cancels(x: bv32, y: bv32, p: bv32)
    ensures Xor(Xor(x, p), Xor(y, p)) == Xor(x, y)
  {
    hide Xor;
    Associates(x, p, Xor(y, p));
    Commutes(p, Xor(y, p));
    Associates(y, p, p);
    Undoes(p, y);
  }

  lemma HalfIsLinear(a: bv32, b: bv32)
    ensures Half(Xor(a, b)) == Xor(Half(a), Half(b))
  {
  }

  lemma OddIsLinear(a: bv32, b: bv32)
    ensures Odd(Xor(a, b)) <==> (Odd(a) <==> !Odd(b))
  {
  }

  lemma BitIsLinear(a: bv32, b: bv32)
    ensures Bit(Xor(a, b)) == Xor(Bit(a), Bit(b))
  {
    hide Xor, Half, Odd;
    HalfIsLinear(a, b);
    OddIsLinear(a, b);
    var x, y := Half(a), Half(b);
    Cancels(x, y, REVERSED_POLY);
    Associates(x, y, REVERSED_POLY);
    Associates(x, REVERSED_POLY, y);
    Commutes(y, REVERSED_POLY);
  }

  lemma Shift8IsLinear(a: bv32, b: bv32)
    ensures Shift8(Xor(a, b)) == Xor(Shift8(a), Shift8(b))
  {
    hide Bit, Xor;
    var a1, b1 := Bit(a), Bit(b);
    var a2, b2 := Bit(a1), Bit(b1);
    var a3, b3 := Bit(a2), Bit(b2);
    var a4, b4 := Bit(a3), Bit(b3);
    var a5, b5 := Bit(a4), Bit(b4);
    var a6, b6 := Bit(a5), Bit(b5);
    var a7, b7 := Bit(a6), Bit(b6);
    BitIsLinear(a, b);
    BitIsLinear(a1, b1);
    BitIsLinear(a2, b2);
    BitIsLinear(a3, b3);
    BitIsLinear(a4, b4);
    BitIsLinear(a5, b5);
    BitIsLinear(a6, b6);
    BitIsLinear(a7, b7);
  }

  function Low(c: bv32): bv32 {
    c & 0xFF
  }

  function High(c: bv32): bv32 {
    c & 0xFFFFFF00
  }

  /** Eight zero bits at the bottom are just shifted out. */
  lemma HighBitsShift(c: bv32)
    ensures Shift8(High(c)) == c >> 8
  {
  }

  lemma LowAndHigh(c: bv32)
    ensures c == Xor(Low(c), High(c))
  {
  }

  lemma LowIsByte(c: bv32, b: bv8)
    ensures Xor(Low(c), b as bv32) < 256
  {
  }

  /** One table lookup does the work of eight single steps. */
  lemma LookupIsShift(c: bv32, b: bv8)
    ensures Xor(Table(Xor(Low(c), b as bv32)), c >> 8) == Shift8(Xor(c, b as bv32))
  {
    hide Table, Shift8, Xor, Low, High;
    var x := b as bv32;
    LowAndHigh(c);
    Associates(Low(c), High(c), x);
    Commutes(High(c), x);
    Associates(Low(c), x, High(c));
    Shift8IsLinear(Xor(Low(c), x), High(c));
    LowIsByte(c, b);
    TableIsShift(Xor(Low(c), x));
    HighBitsShift(c);
  }

  lemma FeedNext(crc: bv32, data: seq<bv8>, i: nat)
    requires i < |data|
    ensures Feed(crc, data[..i + 1]) == Shift8(Xor(Feed(crc, data[..i]), data[i] as bv32))
  {
    hide Shift8, Xor;
    assert data[..i + 1][..i] == data[..i];
  }

  lemma FeedNone(data: seq<bv8>)
    ensures Feed(INIT, data[..0]) == INIT
  {
  }

  /** crc32_table: for every byte string the checksum of the definition. */
  method Compute(data: seq<bv8>) returns (crc: bv32)
    ensures crc == Checksum(data)
  {
    hide Table, Shift8, Feed, Xor, Low;
    crc := INIT;
    var i := 0;
    FeedNone(data);
    while i < |data|
      invariant 0 <= i <= |data|
      invariant crc == Feed(INIT, data[..i])
    {
      LookupIsShift(crc, data[i]);
      FeedNext(INIT, data, i);
      crc := Xor(Table(Xor(Low(crc), data[i] as bv32)), crc >> 8);
      i := i + 1;
    }
    assert data[..i] == data;
    crc := Xor(crc, FINAL_XOR);
  }
}
