/** The CRC-32C of src/crc32.c: reflected Castagnoli polynomial (section 12.1 of
    RFC 3720), without initial or final inversion. The reference shifts one bit at
    a time; the code looks up one byte, or eight bytes at once, in tables. */
module Crc32c {

  import opened Memory

  /** A u32. Keeping the bit-vector inside a datatype lets the proofs about the
      register treat words as plain values, and open them only where bits matter. */
  datatype Word = Word(bits: bv32)

  const ZERO: Word := Word(0)

  /** 0x1EDC6F41 with its bits reversed. */
  const POLY: Word := Word(0x82F63B78)

  function Xor(x: Word, y: Word): Word {
    Word(x.bits ^ y.bits)
  }

  /** x & 0xff */
  function Low(x: Word): Word {
    Word(x.bits & 0xff)
  }

  /** x >> 8 */
  function Drop(x: Word): Word {
    Word(x.bits >> 8)
  }

  /** x << 8 */
  function Raise(x: Word): Word {
    Word(x.bits << 8)
  }

  function OfByte(b: Byte): Word {
    Word(b as bv32)
  }

  predicate Odd(x: Word) {
    x.bits & 1 == 1
  }

  /** x >> 1 */
  function Half(x: Word): Word {
    Word(x.bits >> 1)
  }

  /** One step of the bit-serial register: what leaves the low end comes back as
      the polynomial. */
  function Shift1(x: Word): Word {
    Xor(Half(x), if Odd(x) then POLY else ZERO)
  }

  function Shift(n: nat, x: Word): Word {
    if n == 0 then x else Shift1(Shift(n - 1, x))
  }

  /** The bit-serial checksum: each byte enters at the low end, lowest bit first. */
  function Reference(crc: Word, buf: seq<Byte>): Word
    decreases |buf|
  {
    if buf == [] then crc
    else Reference(Shift(8, Xor(crc, OfByte(buf[0]))), buf[1..])
  }

  // ------------------------------------------------------------ the check value

  /** The register after one byte. */
  function AfterByte(crc: Word, b: Byte): Word {
    Shift(8, Xor(crc, OfByte(b)))
  }

  lemma AfterDigits123()
    ensures AfterByte(Word(0xFFFFFFFF), 0x31) == Word(0x6F0A661C)
    ensures AfterByte(Word(0x6F0A661C), 0x32) == Word(0x8CAA3B9F)
    ensures AfterByte(Word(0x8CAA3B9F), 0x33) == Word(0xEF84D04D)
  {}

  lemma AfterDigits456()
    ensures AfterByte(Word(0xEF84D04D), 0x34) == Word(0x09C50B11)
    ensures AfterByte(Word(0x09C50B11), 0x35) == Word(0xE72EDCCA)
    ensures AfterByte(Word(0xE72EDCCA), 0x36) == Word(0xBECA8E79)
  {}

  lemma AfterDigits789()
    ensures AfterByte(Word(0xBECA8E79), 0x37) == Word(0xEDBD6815)
    ensures AfterByte(Word(0xEDBD6815), 0x38) == Word(0x9F787F65)
    ensures AfterByte(Word(0x9F787F65), 0x39) == Word(0x1CF96D7C)
  {}

  lemma ReferenceOfByte(crc: Word, b: Byte, rest: seq<Byte>)
    ensures Reference(crc, [b] + rest) == Reference(AfterByte(crc, b), rest)
  {
    hide Shift, Xor;
    assert ([b] + rest)[1..] == rest;
  }

  /** The CRC-32C of the nine digits, inverted before and after as RFC 3720 has it, is
      the published check value 0xE3069283. */
  lemma CheckValue(start: Word)
    requires start == Word(0xFFFFFFFF)
    ensures Xor(Reference(start, [0x31] + ([0x32] + ([0x33] + ([0x34] + ([0x35] + ([0x36] + ([0x37] + ([0x38]
              + ([0x39] + []))))))))), start) == Word(0xE3069283)
  {
    AfterDigits123();
    AfterDigits456();
    AfterDigits789();
    assert Xor(Word(0x1CF96D7C), Word(0xFFFFFFFF)) == Word(0xE3069283);
    hide Reference, AfterByte, Xor;
    var s9 := [0x39] + [];
    var s8 := [0x38] + s9;
    var s7 := [0x37] + s8;
    var s6 := [0x36] + s7;
    var s5 := [0x35] + s6;
    var s4 := [0x34] + s5;
    var s3 := [0x33] + s4;
    var s2 := [0x32] + s3;
    ReferenceOfByte(start, 0x31, s2);
    ReferenceOfByte(Word(0x6F0A661C), 0x32, s3);
    ReferenceOfByte(Word(0x8CAA3B9F), 0x33, s4);
    ReferenceOfByte(Word(0xEF84D04D), 0x34, s5);
    ReferenceOfByte(Word(0x09C50B11), 0x35, s6);
    ReferenceOfByte(Word(0xE72EDCCA), 0x36, s7);
    ReferenceOfByte(Word(0xBECA8E79), 0x37, s8);
    ReferenceOfByte(Word(0xEDBD6815), 0x38, s9);
    ReferenceOfByte(Word(0x9F787F65), 0x39, []);
    ReferenceOfNothing(Word(0x1CF96D7C));
  }

  lemma ReferenceOfNothing(crc: Word)
    ensures Reference(crc, []) == crc
  {}

  // ------------------------------------------------------------- the tables

  /** Entry `i` of the k-th table: crc_tableil8_o32 for k = 0 up to
      crc_tableil8_o88 for k = 7. Each table follows from the one before. */
  function Table(k: nat, i: Word): Word {
    if k == 0 then Shift(8, i)
    else var t := Table(k - 1, i); Xor(Table(0, Low(t)), Drop(t))
  }

  // ------------------------------------------------- the register is linear

  lemma XorAssoc(a: Word, b: Word, c: Word)
    ensures Xor(Xor(a, b), c) == Xor(a, Xor(b, c))
  {
  }

  lemma XorCommutes(a: Word, b: Word)
    ensures Xor(a, b) == Xor(b, a)
  {
  }

  lemma XorZero(a: Word)
    ensures Xor(a, ZERO) == a && Xor(a, a) == ZERO
  {
  }

  lemma XorGroup(a: Word, b: Word, c: Word, d: Word)
    ensures Xor(Xor(a, b), Xor(c, d)) == Xor(Xor(a, c), Xor(b, d))
  {
    hide Xor;
    XorAssoc(a, b, Xor(c, d));
    XorAssoc(b, c, d);
    XorCommutes(b, c);
    XorAssoc(c, b, d);
    XorAssoc(a, c, Xor(b, d));
  }

  lemma HalfLinear(x: Word, y: Word)
    ensures Half(Xor(x, y)) == Xor(Half(x), Half(y))
    ensures Odd(Xor(x, y)) <==> Odd(x) != Odd(y)
  {
  }

  lemma Shift1Linear(x: Word, y: Word)
    ensures Shift1(Xor(x, y)) == Xor(Shift1(x), Shift1(y))
  {
    hide Xor, Half, Odd;
    HalfLinear(x, y);
    XorZero(POLY);
    XorZero(ZERO);
    XorCommutes(ZERO, POLY);
    XorGroup(Half(x), Half(y), if Odd(x) then POLY else ZERO, if Odd(y) then POLY else ZERO);
  }

  lemma {:induction false} ShiftLinear(n: nat, x: Word, y: Word)
    ensures Shift(n, Xor(x, y)) == Xor(Shift(n, x), Shift(n, y))
  {
    hide Xor, Shift1;
    if n > 0 {
      ShiftLinear(n - 1, x, y);
      Shift1Linear(Shift(n - 1, x), Shift(n - 1, y));
    }
  }

  lemma {:induction false} ShiftAdd(m: nat, n: nat, x: Word)
    ensures Shift(m, Shift(n, x)) == Shift(m + n, x)
  {
    hide Shift1;
    if m > 0 {
      ShiftAdd(m - 1, n, x);
    }
  }

  /** Eight steps push out a zero byte, and nothing feeds back. */
  lemma ShiftOut(x: Word)
    ensures Shift(8, Raise(Drop(x))) == Drop(x)
  {
    var z := Raise(Drop(x));
    var z1 := Half(z);
    var z2 := Half(z1);
    var z3 := Half(z2);
    var z4 := Half(z3);
    var z5 := Half(z4);
    var z6 := Half(z5);
    var z7 := Half(z6);
    assert !Odd(z) && !Odd(z1) && !Odd(z2) && !Odd(z3) && !Odd(z4) && !Odd(z5) && !Odd(z6) && !Odd(z7);
    assert Half(z7) == Drop(x);
    hide Odd, Half, Raise, Drop, Xor, Shift;
    EvenStep(0, z, z);
    EvenStep(1, z, z1);
    EvenStep(2, z, z2);
    EvenStep(3, z, z3);
    EvenStep(4, z, z4);
    EvenStep(5, z, z5);
    EvenStep(6, z, z6);
    EvenStep(7, z, z7);
  }

  lemma EvenStep(n: nat, x: Word, y: Word)
    requires n == 0 ==> x == y
    requires n > 0 ==> Shift(n, x) == y
    requires !Odd(y)
    ensures Shift(n + 1, x) == Half(y)
  {
    XorZero(Half(y));
    hide Xor, Half, Odd;
  }

  lemma SplitLow(x: Word)
    ensures x == Xor(Low(x), Raise(Drop(x)))
  {
  }

  /** A shift by eight is a lookup on the low byte. */
  lemma ShiftByTable(x: Word)
    ensures Shift(8, x) == Xor(Table(0, Low(x)), Drop(x))
  {
    hide Xor, Shift, Low, Drop, Raise;
    SplitLow(x);
    ShiftLinear(8, Low(x), Raise(Drop(x)));
    ShiftOut(x);
  }

  /** The k-th table holds the register after 8 * (k + 1) steps. */
  lemma {:induction false} TableIsShift(k: nat, i: Word)
    ensures Table(k, i) == Shift(8 * (k + 1), i)
  {
    hide Xor, Shift, Low, Drop;
    if k > 0 {
      TableIsShift(k - 1, i);
      ShiftByTable(Table(k - 1, i));
      ShiftAdd(8, 8 * k, i);
    }
  }

  /** The second entry of crc_tableil8_o32. */
  lemma FirstEntry()
    ensures Table(0, Word(1)) == Word(0xF26B8303)
  {
    assert Shift(4, Word(1)) == Word(0x105EC76F);
  }

  /** The last entry of every table, from the last entry of the one before. */
  lemma LastEntriesLow()
    ensures Shift(8, Word(0x000000FF)) == Word(0xAD7D5351)
    ensures Shift(8, Word(0xAD7D5351)) == Word(0xA3E32483)
  {
  }

  lemma LastEntriesMid()
    ensures Shift(8, Word(0xA3E32483)) == Word(0x91052BA8)
    ensures Shift(8, Word(0x91052BA8)) == Word(0x2803E842)
    ensures Shift(8, Word(0x2803E842)) == Word(0xA0686EA3)
  {
  }

  lemma LastEntriesHigh()
    ensures Shift(8, Word(0xA0686EA3)) == Word(0xB1BB2E3C)
    ensures Shift(8, Word(0xB1BB2E3C)) == Word(0x7D113D4F)
    ensures Shift(8, Word(0x7D113D4F)) == Word(0x1F1530A5)
  {
  }

  lemma NextTable(k: nat, i: Word)
    ensures Table(k + 1, i) == Shift(8, Table(k, i))
  {
    hide Xor, Shift, Low, Drop;
    ShiftByTable(Table(k, i));
  }

  /** The last entry of each of the source's eight tables. */
  lemma LastEntries(last: Word)
    requires last == Word(255)
    ensures Table(0, last) == Word(0xAD7D5351) && Table(1, last) == Word(0xA3E32483)
    ensures Table(2, last) == Word(0x91052BA8) && Table(3, last) == Word(0x2803E842)
    ensures Table(4, last) == Word(0xA0686EA3) && Table(5, last) == Word(0xB1BB2E3C)
    ensures Table(6, last) == Word(0x7D113D4F) && Table(7, last) == Word(0x1F1530A5)
  {
    hide Table, Shift, Xor, Low, Drop;
    LastEntriesLow();
    LastEntriesMid();
    LastEntriesHigh();
    FirstTable(last);
    NextTable(0, last);
    NextTable(1, last);
    NextTable(2, last);
    NextTable(3, last);
    NextTable(4, last);
    NextTable(5, last);
    NextTable(6, last);
  }

  lemma FirstTable(i: Word)
    ensures Table(0, i) == Shift(8, i)
  {
  }

  // --------------------------------------------------------- the bytewise code

  /** One lookup: crc_tableil8_o32[(crc ^ b) & 0xff] ^ (crc >> 8). */
  function Update(crc: Word, b: Byte): Word {
    Xor(Table(0, Low(Xor(crc, OfByte(b)))), Drop(crc))
  }

  lemma UpdateIsShift(crc: Word, b: Byte)
    ensures Update(crc, b) == Shift(8, Xor(crc, OfByte(b)))
  {
    assert Drop(Xor(crc, OfByte(b))) == Drop(crc);
    hide Xor, Shift, Low, Drop, OfByte;
    ShiftByTable(Xor(crc, OfByte(b)));
  }

  /** Checksumming a concatenation is chaining the checksums. */
  lemma {:induction false} ReferenceChains(crc: Word, a: seq<Byte>, b: seq<Byte>)
    ensures Reference(crc, a + b) == Reference(Reference(crc, a), b)
    decreases |a|
  {
    hide Xor, Shift, OfByte;
    if a == [] {
      assert a + b == b;
    } else {
      assert (a + b)[1..] == a[1..] + b;
      ReferenceChains(Shift(8, Xor(crc, OfByte(a[0]))), a[1..], b);
    }
  }

  // ------------------------------------------------------------ eight at a time

  /** A little-endian load of four bytes. */
  function Load(b: seq<Byte>): Word
    requires |b| == 4
  {
    Word((b[0] as bv32) | ((b[1] as bv32) << 8) | ((b[2] as bv32) << 16) | ((b[3] as bv32) << 24))
  }

  /** The same load, byte by byte from the top. */
  function Pack(b: seq<Byte>): Word {
    if b == [] then ZERO else Xor(OfByte(b[0]), Raise(Pack(b[1..])))
  }

  lemma LoadIsPack(b: seq<Byte>)
    requires |b| == 4
    ensures Load(b) == Pack(b)
  {
    assert Pack(b[4..]) == ZERO;
    assert b[3..][1..] == b[4..] && b[2..][1..] == b[3..] && b[1..][1..] == b[2..];
    assert Pack(b[3..]) == OfByte(b[3]) by { XorZero(OfByte(b[3])); assert Raise(ZERO) == ZERO; }
    assert Pack(b[2..]) == Xor(OfByte(b[2]), Raise(OfByte(b[3])));
  }

  lemma PackFits(b: seq<Byte>)
    requires |b| <= 3
    ensures Drop(Raise(Pack(b))) == Pack(b)
    ensures |b| <= 2 ==> Pack(b).bits < 0x1_0000
    ensures |b| <= 1 ==> Pack(b).bits < 0x100
  {
    if b != [] {
      PackFits(b[1..]);
    }
  }

  /** Up to four bytes can enter the register together before it is shifted. */
  lemma {:induction false} PackAbsorbs(crc: Word, b: seq<Byte>)
    requires |b| <= 4
    ensures Reference(crc, b) == Shift(8 * |b|, Xor(crc, Pack(b)))
    decreases |b|
  {
    if b == [] {
      XorZero(crc);
    } else {
      var x := Xor(crc, OfByte(b[0]));
      var rest := Pack(b[1..]);
      PackFits(b[1..]);
      PackAbsorbs(Shift(8, x), b[1..]);
      hide Xor, Shift, OfByte, Raise, Drop;
      ShiftOut(Raise(rest));
      ShiftLinear(8, x, Raise(rest));
      ShiftAdd(8 * |b[1..]|, 8, Xor(x, Raise(rest)));
      XorAssoc(crc, OfByte(b[0]), Raise(rest));
    }
  }

  lemma {:induction false} ShiftOfZero(n: nat)
    ensures Shift(n, ZERO) == ZERO
  {
    if n > 0 {
      ShiftOfZero(n - 1);
      assert Shift1(ZERO) == ZERO;
    }
  }

  /** A long shift looks up the low byte in one table and goes on with the rest. */
  lemma PeelByte(k: nat, x: Word)
    ensures Shift(8 * (k + 1), x) == Xor(Table(k, Low(x)), Shift(8 * k, Drop(x)))
  {
    hide Xor, Shift, Low, Drop;
    ShiftAdd(8 * k, 8, x);
    ShiftByTable(x);
    ShiftLinear(8 * k, Table(0, Low(x)), Drop(x));
    ShiftAdd(8 * k, 8, Low(x));
    TableIsShift(k, Low(x));
  }

  /** The lookups for one word: table k for its low byte, down to table k - 3. */
  function Slice(k: nat, x: Word): Word
    requires k >= 3
  {
    Xor(Xor(Table(k, Low(x)), Table(k - 1, Low(Drop(x)))),
        Xor(Table(k - 2, Low(Drop(Drop(x)))), Table(k - 3, Low(Drop(Drop(Drop(x)))))))
  }

  lemma FourBytesGone(x: Word)
    ensures Drop(Drop(Drop(Drop(x)))) == ZERO
  {
  }

  lemma SliceIsShift(k: nat, x: Word)
    requires k >= 3
    ensures Slice(k, x) == Shift(8 * (k + 1), x)
  {
    var x1 := Drop(x);
    var x2 := Drop(x1);
    var x3 := Drop(x2);
    FourBytesGone(x);
    hide Xor, Shift, Low, Drop, Table;
    PeelByte(k, x);
    PeelByte(k - 1, x1);
    PeelByte(k - 2, x2);
    PeelByte(k - 3, x3);
    ShiftOfZero(8 * (k - 3));
    XorZero(Table(k - 3, Low(x3)));
    XorAssoc(Table(k, Low(x)), Table(k - 1, Low(x1)), Xor(Table(k - 2, Low(x2)), Table(k - 3, Low(x3))));
  }

  /** The body of the main loop, for eight bytes read as two words. */
  function Slice8(crc: Word, first: Word, second: Word): Word {
    var crc1 := Xor(crc, first);
    var term1 := Xor(Table(7, Low(crc1)), Table(6, Low(Drop(crc1))));
    var term2 := Drop(Drop(crc1));
    var crc2 := Xor(Xor(term1, Table(5, Low(term2))), Table(4, Low(Drop(term2))));
    var term3 := Xor(Table(3, Low(second)), Table(2, Low(Drop(second))));
    var term4 := Drop(Drop(second));
    Xor(Xor(Xor(crc2, term3), Table(1, Low(term4))), Table(0, Low(Drop(term4))))
  }

  lemma Slice8Groups(crc: Word, first: Word, second: Word)
    ensures Slice8(crc, first, second) == Xor(Slice(7, Xor(crc, first)), Slice(3, second))
  {
    hide Xor, Table, Low, Drop;
    var crc1 := Xor(crc, first);
    var a := Xor(Table(7, Low(crc1)), Table(6, Low(Drop(crc1))));
    XorAssoc(a, Table(5, Low(Drop(Drop(crc1)))), Table(4, Low(Drop(Drop(Drop(crc1))))));
    var b := Xor(Table(3, Low(second)), Table(2, Low(Drop(second))));
    var c := Table(1, Low(Drop(Drop(second))));
    var d := Table(0, Low(Drop(Drop(Drop(second)))));
    XorAssoc(Xor(Slice(7, crc1), b), c, d);
    XorAssoc(Slice(7, crc1), b, Xor(c, d));
  }

  lemma Slice8IsReference(crc: Word, b: seq<Byte>)
    requires |b| == 8
    ensures Slice8(crc, Load(b[..4]), Load(b[4..])) == Reference(crc, b)
  {
    hide Xor, Shift, Load, Pack, Slice;
    var x := Xor(crc, Load(b[..4]));
    LoadIsPack(b[..4]);
    LoadIsPack(b[4..]);
    assert b == b[..4] + b[4..];
    ReferenceChains(crc, b[..4], b[4..]);
    PackAbsorbs(crc, b[..4]);
    PackAbsorbs(Shift(32, x), b[4..]);
    ShiftLinear(32, Shift(32, x), Load(b[4..]));
    ShiftAdd(32, 32, x);
    hide Slice8;
    Slice8Groups(crc, Load(b[..4]), Load(b[4..]));
    SliceIsShift(7, x);
    SliceIsShift(3, Load(b[4..]));
  }

  // ---------------------------------------------------------------- the methods

  lemma ReferenceStep(crc: Word, buf: seq<Byte>, p: nat)
    requires p < |buf|
    ensures Reference(crc, buf[p..]) == Reference(Update(crc, buf[p]), buf[p + 1..])
  {
    hide Xor, Shift, OfByte, Update;
    UpdateIsShift(crc, buf[p]);
    assert buf[p..][1..] == buf[p + 1..];
  }

  lemma ReferenceStep8(crc: Word, buf: seq<Byte>, p: nat)
    requires p + 8 <= |buf|
    ensures Reference(crc, buf[p..]) ==
            Reference(Slice8(crc, Load(buf[p..p + 4]), Load(buf[p + 4..p + 8])), buf[p + 8..])
  {
    hide Reference, Slice8, Load;
    var b := buf[p..p + 8];
    assert b[..4] == buf[p..p + 4] && b[4..] == buf[p + 4..p + 8];
    assert buf[p..] == b + buf[p + 8..];
    Slice8IsReference(crc, b);
    ReferenceChains(crc, b, buf[p + 8..]);
  }

  /** crc32c: the byte-by-byte version. */
  method Bytewise(runningCrc: Word, buf: seq<Byte>) returns (crc: Word)
    ensures crc == Reference(runningCrc, buf)
  {
    crc := runningCrc;
    var p := 0;
    hide Xor, Shift, OfByte, Update;
    while p < |buf|
      invariant p <= |buf|
      invariant Reference(crc, buf[p..]) == Reference(runningCrc, buf)
    {
      ReferenceStep(crc, buf, p);
      crc := Update(crc, buf[p]);
      p := p + 1;
    }
  }

  /** The bytes before the next multiple of four. */
  function BytesToAlign(address: nat): nat {
    (4 - address % 4) % 4
  }

  /** crc32c_sb8_64_bit: bytes up to an aligned address, then eight at a time, then
      the rest. `address` is where the buffer lies; the unsigned subtraction of
      line 537 needs the buffer to reach the first aligned address. */
  method SlicingBy8(runningCrc: Word, buf: seq<Byte>, address: nat) returns (crc: Word)
    requires |buf| >= BytesToAlign(address)
    ensures crc == Reference(runningCrc, buf)
  {
    hide Xor, Shift, OfByte, Update, Slice, Slice8, Load, Table, BytesToAlign;
    crc := runningCrc;
    var initBytes := BytesToAlign(address);
    var blocks := (|buf| - initBytes) / 8;
    var runningLength := blocks * 8;
    var endBytes := |buf| - initBytes - runningLength;
    var p := 0;
    while p < initBytes
      invariant p <= initBytes
      invariant Reference(crc, buf[p..]) == Reference(runningCrc, buf)
    {
      ReferenceStep(crc, buf, p);
      crc := Update(crc, buf[p]);
      p := p + 1;
    }
    for li := 0 to blocks
      invariant p == initBytes + 8 * li
      invariant Reference(crc, buf[p..]) == Reference(runningCrc, buf)
    {
      ReferenceStep8(crc, buf, p);
      crc := Slice8(crc, Load(buf[p..p + 4]), Load(buf[p + 4..p + 8]));
      p := p + 8;
    }
    for li := 0 to endBytes
      invariant p == initBytes + runningLength + li
      invariant Reference(crc, buf[p..]) == Reference(runningCrc, buf)
    {
      ReferenceStep(crc, buf, p);
      crc := Update(crc, buf[p]);
      p := p + 1;
    }
  }

  // ------------------------------------------------------------ error detection

  /** The register never forgets: a step takes different words to different words. */
  lemma Shift1Injective(x: Word, y: Word)
    requires Shift1(x) == Shift1(y)
    ensures x == y
  {
    Shift1Linear(x, y);
    XorZero(Shift1(y));
    assert Shift1(Xor(x, y)) == ZERO;
    OnlyZeroShiftsToZero(Xor(x, y));
    XorDetects(x, y);
  }

  lemma OnlyZeroShiftsToZero(x: Word)
    requires Shift1(x) == ZERO
    ensures x == ZERO
  {
    if !Odd(x) {
      XorZero(Half(x));
    }
  }

  lemma XorDetects(x: Word, y: Word)
    requires Xor(x, y) == ZERO
    ensures x == y
  {
  }

  lemma {:induction false} ShiftInjective(n: nat, x: Word, y: Word)
    requires Shift(n, x) == Shift(n, y)
    ensures x == y
  {
    hide Shift1;
    if n > 0 {
      Shift1Injective(Shift(n - 1, x), Shift(n - 1, y));
      ShiftInjective(n - 1, x, y);
    }
  }

  lemma XorInjective(a: Word, x: Word, y: Word)
    requires Xor(a, x) == Xor(a, y)
    ensures x == y
  {
    hide Xor;
    XorAssoc(a, a, x);
    XorAssoc(a, a, y);
    XorZero(a);
    XorZero(x);
    XorZero(y);
    XorCommutes(x, ZERO);
    XorCommutes(y, ZERO);
  }

  /** Different checksums stay different however the buffer goes on. */
  lemma {:induction false} ReferenceInjective(x: Word, y: Word, buf: seq<Byte>)
    requires Reference(x, buf) == Reference(y, buf)
    ensures x == y
    decreases |buf|
  {
    hide Xor, Shift, OfByte;
    if buf != [] {
      var b := OfByte(buf[0]);
      ReferenceInjective(Shift(8, Xor(x, b)), Shift(8, Xor(y, b)), buf[1..]);
      ShiftInjective(8, Xor(x, b), Xor(y, b));
      XorCommutes(x, b);
      XorCommutes(y, b);
      XorInjective(b, x, y);
    }
  }

  lemma PackHead(b: seq<Byte>)
    requires 1 <= |b| <= 4
    ensures Low(Pack(b)) == OfByte(b[0]) && Drop(Pack(b)) == Pack(b[1..])
  {
    PackFits(b[1..]);
  }

  lemma {:induction false} PackInjective(a: seq<Byte>, b: seq<Byte>)
    requires |a| == |b| <= 4 && Pack(a) == Pack(b)
    ensures a == b
  {
    if a != [] {
      PackHead(a);
      PackHead(b);
      assert OfByte(a[0]) == OfByte(b[0]);
      assert a[0] == b[0];
      PackInjective(a[1..], b[1..]);
    }
  }

  /** Any change confined to four consecutive bytes changes the checksum. */
  lemma BurstIsDetected(crc: Word, a: seq<Byte>, b: seq<Byte>, at: nat)
    requires |a| == |b| && a != b
    requires forall j :: 0 <= j < |a| && !(at <= j < at + 4) ==> a[j] == b[j]
    ensures Reference(crc, a) != Reference(crc, b)
  {
    var i := if at <= |a| then at else |a|;
    var j := if at + 4 <= |a| then at + 4 else |a|;
    assert a == a[..i] + (a[i..j] + a[j..]) && b == b[..i] + (b[i..j] + b[j..]);
    assert a[..i] == b[..i] && a[j..] == b[j..];
    hide Reference, Shift, Xor, Pack;
    ReferenceChains(crc, a[..i], a[i..j] + a[j..]);
    ReferenceChains(crc, b[..i], b[i..j] + b[j..]);
    var mid := Reference(crc, a[..i]);
    ReferenceChains(mid, a[i..j], a[j..]);
    ReferenceChains(mid, b[i..j], b[j..]);
    if Reference(crc, a) == Reference(crc, b) {
      ReferenceInjective(Reference(mid, a[i..j]), Reference(mid, b[i..j]), a[j..]);
      PackAbsorbs(mid, a[i..j]);
      PackAbsorbs(mid, b[i..j]);
      ShiftInjective(8 * (j - i), Xor(mid, Pack(a[i..j])), Xor(mid, Pack(b[i..j])));
      XorInjective(mid, Pack(a[i..j]), Pack(b[i..j]));
      PackInjective(a[i..j], b[i..j]);
    }
  }
}
