/** Database serialization (src/database.c): a compact byte stream out, a header
    block with 64-byte aligned bytecode back. */
module Database {
  import opened Crc32c
  import opened Memory

  datatype Error = Success | Invalid | VersionError | PlatformError | BadAlign

  const MAGIC: Word := Word(0xdbdbdbdb)
  const VERSION: Word := Word(0x05040200)

  /** sizeof(struct hs_database), which is also offsetof(struct hs_database, bytes). */
  const HEADER_SIZE: nat := 104

  /** The end of the last header field; padding follows up to HEADER_SIZE. */
  const FIELDS_END: nat := 40

  /** The bytes of the serialized header. */
  const STREAM_HEADER: nat := 32

  function Value(w: Word): nat { w.bits as nat }

  datatype Header = Header(
    magic: Word, version: Word, length: Word, platform: bv64,
    crc32: Word, reserved0: Word, reserved1: Word)
  {
    function Length(): nat {
      Value(length)
    }
  }

  // ------------------------------------------------------------------- encoding

  function Put32(w: Word): (b: seq<Byte>)
    ensures |b| == 4
  {
    [(w.bits & 0xff) as bv8, ((w.bits >> 8) & 0xff) as bv8, ((w.bits >> 16) & 0xff) as bv8, (w.bits >> 24) as bv8]
  }

  function Put64(p: bv64): (b: seq<Byte>)
    ensures |b| == 8
  {
    Put32(Word((p & 0xffff_ffff) as bv32)) + Put32(Word((p >> 32) as bv32))
  }

  function Load64(b: seq<Byte>): bv64
    requires |b| == 8
  {
    (Load(b[..4]).bits as bv64) | ((Load(b[4..]).bits as bv64) << 32)
  }

  lemma Load32(w: Word)
    ensures Load(Put32(w)) == w
  {
  }

  /** Different bytes load as different words. */
  lemma SameWords(a: seq<Byte>, b: seq<Byte>)
    requires |a| == |b| == 4 && Load(a) == Load(b)
    ensures a == b
  {
    hide Load, Pack;
    LoadIsPack(a);
    LoadIsPack(b);
    PackInjective(a, b);
  }

  lemma PutOfLoad(b: seq<Byte>)
    requires |b| == 4
    ensures Put32(Load(b)) == b
  {
    hide Put32, Load;
    Load32(Load(b));
    SameWords(Put32(Load(b)), b);
  }

  lemma HalvesOf64(lo: bv32, hi: bv32)
    ensures var p := (lo as bv64) | ((hi as bv64) << 32);
            (p & 0xffff_ffff) as bv32 == lo && (p >> 32) as bv32 == hi
  {}

  lemma Put64OfLoad64(b: seq<Byte>)
    requires |b| == 8
    ensures Put64(Load64(b)) == b
  {
    var lo, hi := Load(b[..4]), Load(b[4..]);
    HalvesOf64(lo.bits, hi.bits);
    PutOfLoad(b[..4]);
    PutOfLoad(b[4..]);
    hide Put32, Load;
    assert b == b[..4] + b[4..];
  }

  lemma Load64OfPut64(p: bv64)
    ensures Load64(Put64(p)) == p
  {
    var lo, hi := Word((p & 0xffff_ffff) as bv32), Word((p >> 32) as bv32);
    Load32(lo);
    Load32(hi);
    assert Put64(p)[..4] == Put32(lo) && Put64(p)[4..] == Put32(hi);
  }

  function Zeros(n: nat): (z: seq<Byte>)
    ensures |z| == n
  {
    seq(n, _ => 0)
  }

  // ------------------------------------------------- the database in memory

  /** struct hs_database as it lies in memory, with offset `off` in its bytecode
      field. The four bytes before platform are alignment padding. */
  function Fields(h: Header, off: Word): (b: seq<Byte>)
    ensures |b| == FIELDS_END
  {
    Put32(h.magic) + Put32(h.version) + Put32(h.length) + Zeros(4)
    + Put64(h.platform) + Put32(h.crc32) + Put32(h.reserved0) + Put32(h.reserved1) + Put32(off)
  }

  function HeaderAt(mem: seq<Byte>): Header
    requires |mem| >= FIELDS_END
  {
    Header(Load(mem[0..4]), Load(mem[4..8]), Load(mem[8..12]), Load64(mem[16..24]),
           Load(mem[24..28]), Load(mem[28..32]), Load(mem[32..36]))
  }

  function OffsetAt(mem: seq<Byte>): nat
    requires |mem| >= FIELDS_END
  {
    Value(Load(mem[36..40]))
  }

  lemma FieldsRead(h: Header, off: Word, mem: seq<Byte>)
    requires |mem| >= FIELDS_END && mem[..FIELDS_END] == Fields(h, off)
    ensures HeaderAt(mem) == h && Load(mem[36..40]) == off
  {
    var f := Fields(h, off);
    hide Put32, Put64, Load, Load64, Zeros;
    assert mem[0..4] == f[0..4] == Put32(h.magic);
    assert mem[4..8] == f[4..8] == Put32(h.version);
    assert mem[8..12] == f[8..12] == Put32(h.length);
    assert mem[16..24] == f[16..24] == Put64(h.platform);
    assert mem[24..28] == f[24..28] == Put32(h.crc32);
    assert mem[28..32] == f[28..32] == Put32(h.reserved0);
    assert mem[32..36] == f[32..36] == Put32(h.reserved1);
    assert mem[36..40] == f[36..40] == Put32(off);
    Load32(h.magic);
    Load32(h.version);
    Load32(h.length);
    Load64OfPut64(h.platform);
    Load32(h.crc32);
    Load32(h.reserved0);
    Load32(h.reserved1);
    Load32(off);
  }

  /** The header and the bytecode it points to lie inside the block. */
  predicate InMemory(mem: seq<Byte>) {
    |mem| >= HEADER_SIZE && OffsetAt(mem) + HeaderAt(mem).Length() <= |mem|
  }

  function BytecodeAt(mem: seq<Byte>): seq<Byte>
    requires InMemory(mem)
  {
    mem[OffsetAt(mem)..OffsetAt(mem) + HeaderAt(mem).Length()]
  }

  /** ISALIGNED_16 and ISALIGNED_CL for a place inside a block. */
  predicate Aligned16(address: nat, off: nat) {
    (address + off) % 16 == 0
  }

  predicate Aligned64(address: nat, off: nat) {
    (address + off) % 64 == 0
  }

  /** db_check_platform, for a runtime built for `current`. */
  predicate PlatformOk(p: bv64, current: bv64) {
    p == current || p == current | 0x38000 || p == current | 0x30000 || p == current | 0x20000
  }

  /** dbIsValid, for a block at `address`. */
  function DbIsValid(mem: seq<Byte>, address: nat, current: bv64): Error
    requires InMemory(mem)
  {
    var h := HeaderAt(mem);
    if h.magic != MAGIC then Invalid
    else if h.version != VERSION then VersionError
    else if !PlatformOk(h.platform, current) then PlatformError
    else if !Aligned16(address, OffsetAt(mem)) then Invalid
    else if Reference(ZERO, BytecodeAt(mem)) != h.crc32 then Invalid
    else Success
  }

  /** A valid database, read off its bytes. */
  lemma ValidFromBytes(mem: seq<Byte>, address: nat, current: bv64)
    requires InMemory(mem)
    ensures var off, n, p := Value(Load(mem[36..40])), Value(Load(mem[8..12])), Load64(mem[16..24]);
            && off + n <= |mem|
            && (DbIsValid(mem, address, current) == Success <==>
                  && Load(mem[0..4]) == Word(0xdbdbdbdb) && Load(mem[4..8]) == Word(0x05040200)
                  && (p == current || p == current | 0x20000 || p == current | 0x30000 || p == current | 0x38000)
                  && (address + off) % 16 == 0
                  && Reference(Word(0), mem[off..off + n]) == Load(mem[24..28]))
  {
    hide Load, Load64, Value, Reference, PlatformOk, BytecodeAt, OffsetAt, InMemory;
    CodeSpelled(mem);
    PlatformSpelled(Load64(mem[16..24]), current);
  }

  lemma CodeSpelled(mem: seq<Byte>)
    requires InMemory(mem)
    ensures |mem| >= FIELDS_END
    ensures var off, n := Value(Load(mem[36..40])), Value(Load(mem[8..12]));
            off + n <= |mem| && OffsetAt(mem) == off && BytecodeAt(mem) == mem[off..off + n]
  {
    hide Load, Load64, Value;
  }

  lemma PlatformSpelled(p: bv64, current: bv64)
    ensures PlatformOk(p, current) <==>
              p == current || p == current | 0x20000 || p == current | 0x30000 || p == current | 0x38000
  {}

  // --------------------------------------------------------------- serializing

  /** What hs_serialize_database writes: the fields without padding and without the
      bytecode offset, the bytecode, and zeros up to the size of the block. */
  function Stream(h: Header, code: seq<Byte>): (b: seq<Byte>)
    ensures |b| == HEADER_SIZE + |code|
  {
    Put32(h.magic) + Put32(h.version) + Put32(h.length) + Put64(h.platform)
    + Put32(h.crc32) + Put32(h.reserved0) + Put32(h.reserved1) + code + Zeros(HEADER_SIZE - STREAM_HEADER)
  }

  /** The buffer holds `text` up to `pos` and zeros from there on. */
  ghost predicate Written(dst: array<Byte>, pos: nat, text: seq<Byte>)
    reads dst
  {
    pos == |text| <= dst.Length && dst[..] == text + Zeros(dst.Length - pos)
  }

  /** Copy bytes to a moving pointer. */
  method Put(dst: array<Byte>, pos: nat, src: seq<Byte>, ghost text: seq<Byte>) returns (next: nat)
    requires Written(dst, pos, text) && pos + |src| <= dst.Length
    modifies dst
    ensures next == pos + |src| && Written(dst, next, text + src)
  {
    next := pos + |src|;
    forall i | 0 <= i < |src| {
      dst[pos + i] := src[i];
    }
  }

  /** The checks of hs_serialize_database. */
  function CanSerialize(h: Header, address: nat): Error {
    if address % 8 != 0 then BadAlign
    else if h.magic != MAGIC then Invalid
    else if h.version != VERSION then VersionError
    else Success
  }

  /** hs_serialize_database on the block `db` at `address`: the stream, or the error
      that kept it from being written. */
  method Serialize(db: array<Byte>, address: nat) returns (err: Error, out: seq<Byte>)
    requires InMemory(db[..])
    ensures err == CanSerialize(HeaderAt(db[..]), address)
    ensures out == if err == Success then Stream(HeaderAt(db[..]), BytecodeAt(db[..])) else []
  {
    var h, code := HeaderAt(db[..]), BytecodeAt(db[..]);
    hide Put32, Put64, Zeros, HeaderAt, BytecodeAt, InMemory;
    err := CanSerialize(h, address);
    if err != Success {
      return err, [];
    }
    var buf := new Byte[HEADER_SIZE + |code|](_ => 0);
    StartsEmpty(buf);
    hide Written;
    var pos := Put(buf, 0, Put32(h.magic), []);
    ghost var text := Put32(h.magic);
    assert [] + text == text;
    pos := Put(buf, pos, Put32(h.version), text);
    text := text + Put32(h.version);
    pos := Put(buf, pos, Put32(h.length), text);
    text := text + Put32(h.length);
    pos := Put(buf, pos, Put64(h.platform), text);
    text := text + Put64(h.platform);
    pos := Put(buf, pos, Put32(h.crc32), text);
    text := text + Put32(h.crc32);
    pos := Put(buf, pos, Put32(h.reserved0), text);
    text := text + Put32(h.reserved0);
    pos := Put(buf, pos, Put32(h.reserved1), text);
    text := text + Put32(h.reserved1);
    pos := Put(buf, pos, code, text);
    ReadsBack(buf, pos, text + code);
    out := buf[..];
  }

  /** In bytes: the three words, the platform without the padding before it, the three
      words after it, the bytecode, and zeros. */
  lemma StreamFromBlock(mem: seq<Byte>)
    requires InMemory(mem)
    ensures var off, n := Value(Load(mem[36..40])), Value(Load(mem[8..12]));
            && off + n <= |mem|
            && Stream(HeaderAt(mem), BytecodeAt(mem))
               == mem[0..12] + mem[16..24] + mem[24..36] + mem[off..off + n] + seq(72, _ => 0)
  {
    hide Put32, Put64, Load, Load64, Stream;
    PutOfLoad(mem[0..4]);
    PutOfLoad(mem[4..8]);
    PutOfLoad(mem[8..12]);
    Put64OfLoad64(mem[16..24]);
    PutOfLoad(mem[24..28]);
    PutOfLoad(mem[28..32]);
    PutOfLoad(mem[32..36]);
    StreamGrouped(HeaderAt(mem), BytecodeAt(mem), mem);
  }

  lemma StreamGrouped(h: Header, code: seq<Byte>, mem: seq<Byte>)
    requires |mem| >= 36
    requires Put32(h.magic) == mem[0..4] && Put32(h.version) == mem[4..8] && Put32(h.length) == mem[8..12]
    requires Put64(h.platform) == mem[16..24]
    requires Put32(h.crc32) == mem[24..28] && Put32(h.reserved0) == mem[28..32] && Put32(h.reserved1) == mem[32..36]
    ensures Stream(h, code) == mem[0..12] + mem[16..24] + mem[24..36] + code + seq(72, _ => 0)
  {
    hide Put32, Put64;
    assert mem[0..12] == mem[0..4] + mem[4..8] + mem[8..12];
    assert mem[24..36] == mem[24..28] + mem[28..32] + mem[32..36];
  }

  lemma StartsEmpty(buf: array<Byte>)
    requires forall i :: 0 <= i < buf.Length ==> buf[i] == 0
    ensures Written(buf, 0, [])
  {
  }

  lemma ReadsBack(buf: array<Byte>, pos: nat, text: seq<Byte>)
    requires Written(buf, pos, text)
    ensures pos <= buf.Length && buf[..] == text + Zeros(buf.Length - pos)
  {
  }

  // ------------------------------------------------------------- deserializing

  function StreamHeader(bytes: seq<Byte>): Header
    requires |bytes| >= STREAM_HEADER
  {
    Header(Load(bytes[0..4]), Load(bytes[4..8]), Load(bytes[8..12]), Load64(bytes[12..20]),
           Load(bytes[20..24]), Load(bytes[24..28]), Load(bytes[28..32]))
  }

  /** db_decode_header. */
  function DecodeHeader(bytes: seq<Byte>): Error {
    if |bytes| < HEADER_SIZE then Invalid
    else
      var h := StreamHeader(bytes);
      if h.magic != MAGIC then Invalid
      else if h.version != VERSION then VersionError
      else if |bytes| != HEADER_SIZE + h.Length() then Invalid
      else Success
  }

  /** The bytecode carried by a stream whose header was accepted. */
  function StreamCode(bytes: seq<Byte>): seq<Byte>
    requires DecodeHeader(bytes) == Success
  {
    bytes[STREAM_HEADER..STREAM_HEADER + StreamHeader(bytes).Length()]
  }

  /** What hs_deserialize_database_at returns. */
  function Accepts(bytes: seq<Byte>, address: nat, current: bv64): Error {
    if address % 8 != 0 then BadAlign
    else if DecodeHeader(bytes) != Success then DecodeHeader(bytes)
    else if !PlatformOk(StreamHeader(bytes).platform, current) then PlatformError
    else if Reference(ZERO, StreamCode(bytes)) != StreamHeader(bytes).crc32 then Invalid
    else Success
  }

  /** Where db_copy_bytecode puts the bytecode of a block at `address`. */
  function CodeOffset(address: nat): nat {
    HEADER_SIZE - (address + HEADER_SIZE) % 64
  }

  /** CodeOffset as the header field holds it. */
  function OffsetField(address: nat): Word {
    Word(CodeOffset(address) as bv32)
  }

  /** The block that deserializing leaves at `address`. */
  function Block(h: Header, code: seq<Byte>, address: nat): (b: seq<Byte>)
    requires address % 8 == 0
    ensures |b| == HEADER_SIZE + |code|
  {
    CodeOffsetFits(address);
    var off := CodeOffset(address);
    Fields(h, OffsetField(address)) + Zeros(off - FIELDS_END) + code + Zeros(HEADER_SIZE - off)
  }

  /** The bytecode starts on a cache line, after the header fields, and no later
      than the space reserved for it. */
  lemma CodeOffsetFits(address: nat)
    requires address % 8 == 0
    ensures FIELDS_END <= CodeOffset(address) <= HEADER_SIZE
    ensures Aligned64(address, CodeOffset(address)) && Aligned16(address, CodeOffset(address))
    ensures Value(OffsetField(address)) == CodeOffset(address)
  {
    var off := CodeOffset(address);
    var lines := (address + HEADER_SIZE) / 64;
    assert address + off == 64 * lines;
    LinesAlign(address, off, lines);
    hide CodeOffset, Aligned16, Aligned64;
    assert address == 8 * (address / 8);
    OffsetSurvives(off, 8 * lines - address / 8);
  }

  lemma LinesAlign(address: nat, off: nat, lines: nat)
    requires address + off == 64 * lines
    ensures Aligned64(address, off) && Aligned16(address, off)
  {
    MultipleOf64(address + off, lines);
    MultipleOf16(address + off, 4 * lines);
  }

  lemma MultipleOf64(n: nat, k: nat)
    requires n == 64 * k
    ensures n % 64 == 0
  {
  }

  lemma MultipleOf16(n: nat, k: nat)
    requires n == 16 * k
    ensures n % 16 == 0
  {
  }

  lemma OffsetSurvives(off: nat, eighth: int)
    requires off == 8 * eighth && HEADER_SIZE - 64 < off <= HEADER_SIZE
    ensures FIELDS_END <= off && (off as bv32) as nat == off
  {
    assert off == 48 || off == 56 || off == 64 || off == 72 || off == 80 || off == 88 || off == 96 || off == 104;
  }

  lemma BlockReads(h: Header, code: seq<Byte>, address: nat)
    requires address % 8 == 0 && |code| == h.Length()
    ensures var b := Block(h, code, address);
            && InMemory(b) && HeaderAt(b) == h && BytecodeAt(b) == code
            && OffsetAt(b) == CodeOffset(address)
  {
    var b := Block(h, code, address);
    var off := CodeOffset(address);
    CodeOffsetFits(address);
    hide Put32, Put64, Load, Load64, Zeros, CodeOffset;
    assert b[..FIELDS_END] == Fields(h, OffsetField(address));
    FieldsRead(h, OffsetField(address), b);
    assert b[off..off + |code|] == code;
  }

  lemma StreamReads(h: Header, code: seq<Byte>)
    ensures var b := Stream(h, code);
            StreamHeader(b) == h && b[STREAM_HEADER..STREAM_HEADER + |code|] == code
  {
    var b := Stream(h, code);
    hide Put32, Put64, Load, Load64, Zeros;
    assert b[0..4] == Put32(h.magic);
    assert b[4..8] == Put32(h.version);
    assert b[8..12] == Put32(h.length);
    assert b[12..20] == Put64(h.platform);
    assert b[20..24] == Put32(h.crc32);
    assert b[24..28] == Put32(h.reserved0);
    assert b[28..32] == Put32(h.reserved1);
    Load32(h.magic);
    Load32(h.version);
    Load32(h.length);
    Load64OfPut64(h.platform);
    Load32(h.crc32);
    Load32(h.reserved0);
    Load32(h.reserved1);
  }

  /** The block as hs_deserialize_database_at builds it: zeros, the decoded header
      with its padding, the offset, the bytecode. */
  function Built(h: Header, code: seq<Byte>, address: nat): (r: seq<Byte>)
    requires address % 8 == 0
    ensures |r| == HEADER_SIZE + |code|
  {
    CodeOffsetFits(address);
    var zeroed := Zeros(HEADER_SIZE + |code|);
    var headed := Splice(zeroed, 0, Fields(h, ZERO) + Zeros(HEADER_SIZE - FIELDS_END));
    var placed := Splice(headed, FIELDS_END - 4, Put32(OffsetField(address)));
    Splice(placed, CodeOffset(address), code)
  }

  lemma SpliceAll(b: seq<Byte>, src: seq<Byte>)
    requires |b| == |src|
    ensures Splice(b, 0, src) == src
  {
  }

  lemma HeaderSpliced(f: seq<Byte>, n: nat)
    requires |f| == FIELDS_END
    ensures var pad := Zeros(HEADER_SIZE - FIELDS_END);
            Splice(Zeros(HEADER_SIZE + n), 0, f + pad) == f + Zeros(HEADER_SIZE - FIELDS_END + n)
  {
  }

  lemma OffsetSpliced(h: Header, off: Word, rest: seq<Byte>)
    ensures Splice(Fields(h, ZERO) + rest, FIELDS_END - 4, Put32(off)) == Fields(h, off) + rest
  {
    var f0, f := Fields(h, ZERO), Fields(h, off);
    assert f0[..36] == f[..36] && f[36..] == Put32(off);
    hide Fields, Put32;
  }

  lemma CodeSpliced(f: seq<Byte>, off: nat, code: seq<Byte>)
    requires |f| == FIELDS_END <= off <= HEADER_SIZE
    ensures Splice(f + Zeros(HEADER_SIZE - FIELDS_END + |code|), off, code) ==
            f + Zeros(off - FIELDS_END) + code + Zeros(HEADER_SIZE - off)
  {
  }

  lemma BuiltIsBlock(h: Header, code: seq<Byte>, address: nat)
    requires address % 8 == 0
    ensures Built(h, code, address) == Block(h, code, address)
  {
    hide Put32, CodeOffset, OffsetField, Fields, Splice, Zeros, Aligned16, Aligned64;
    CodeOffsetFits(address);
    HeaderSpliced(Fields(h, ZERO), |code|);
    OffsetSpliced(h, OffsetField(address), Zeros(HEADER_SIZE - FIELDS_END + |code|));
    CodeSpliced(Fields(h, OffsetField(address)), CodeOffset(address), code);
  }

  /** Lines 225 to 233: clear the block, then header, offset and bytecode. */
  method Rebuild(db: array<Byte>, h: Header, code: seq<Byte>, address: nat)
    requires address % 8 == 0 && db.Length == HEADER_SIZE + |code|
    modifies db
    ensures db[..] == Block(h, code, address)
  {
    hide Put32, Put64, CodeOffset, OffsetField, Block, Zeros, Splice, Fields, Aligned16, Aligned64;
    CodeOffsetFits(address);
    SpliceAll(db[..], Zeros(db.Length));
    BuiltIsBlock(h, code, address);
    Memcpy(db, 0, Zeros(db.Length));
    Memcpy(db, 0, Fields(h, ZERO) + Zeros(HEADER_SIZE - FIELDS_END));
    Memcpy(db, FIELDS_END - 4, Put32(OffsetField(address)));
    Memcpy(db, CodeOffset(address), code);
  }

  /** The error, read off the bytes. */
  ghost predicate ErrorOf(bytes: seq<Byte>, current: bv64, err: Error) {
    if |bytes| < 104 || Load(bytes[0..4]) != Word(0xdbdbdbdb) then err == Invalid
    else if Load(bytes[4..8]) != Word(0x05040200) then err == VersionError
    else if |bytes| != 104 + Value(Load(bytes[8..12])) then err == Invalid
    else
      var p := Load64(bytes[12..20]);
      if p != current && p != current | 0x20000 && p != current | 0x30000 && p != current | 0x38000 then
        err == PlatformError
      else
        err == if Reference(Word(0), bytes[32..|bytes| - 72]) == Load(bytes[20..24]) then Success else Invalid
  }

  /** The block rebuilt at `address`, read off the bytes. */
  ghost predicate RebuiltFrom(bytes: seq<Byte>, address: nat, db: seq<Byte>)
    requires |bytes| >= 104
  {
    && |db| == |bytes|
    && db[0..12] == bytes[0..12] && db[16..24] == bytes[12..20] && db[24..36] == bytes[20..32]
    && var off := Value(Load(db[36..40]));
       && 40 <= off <= 104 && (address + off) % 64 == 0
       && db[off..off + |bytes| - 104] == bytes[32..|bytes| - 72]
  }

  lemma AcceptsFromBytes(bytes: seq<Byte>, address: nat, current: bv64)
    requires address % 8 == 0
    ensures ErrorOf(bytes, current, Accepts(bytes, address, current))
  {
    hide Load, Load64, Value, Reference, PlatformOk, StreamCode;
    if DecodeHeader(bytes) == Success {
      PlatformSpelled(Load64(bytes[12..20]), current);
      LengthsAgree(bytes);
    }
  }

  lemma SameLongs(a: seq<Byte>, b: seq<Byte>)
    requires |a| == |b| == 8 && Load64(a) == Load64(b)
    ensures a == b
  {
    hide Load64, Put64;
    Put64OfLoad64(a);
    Put64OfLoad64(b);
  }

  lemma BlockFromBytes(bytes: seq<Byte>, address: nat)
    requires address % 8 == 0 && DecodeHeader(bytes) == Success
    ensures RebuiltFrom(bytes, address, Block(StreamHeader(bytes), StreamCode(bytes), address))
  {
    hide Load, Load64, Block, CodeOffset, HeaderAt, StreamHeader, Aligned16;
    var h, code := StreamHeader(bytes), StreamCode(bytes);
    var db := Block(h, code, address);
    CodeOffsetFits(address);
    BlockReads(h, code, address);
    FieldsAgree(db, bytes);
    LengthsAgree(bytes);
  }

  lemma LengthsAgree(bytes: seq<Byte>)
    requires DecodeHeader(bytes) == Success
    ensures |StreamCode(bytes)| == |bytes| - 104 && StreamCode(bytes) == bytes[32..|bytes| - 72]
    ensures |StreamCode(bytes)| == StreamHeader(bytes).Length()
  {
    hide Load, Load64, Value;
  }

  lemma FieldsAgree(db: seq<Byte>, bytes: seq<Byte>)
    requires |db| >= FIELDS_END && |bytes| >= STREAM_HEADER && HeaderAt(db) == StreamHeader(bytes)
    ensures db[0..12] == bytes[0..12] && db[16..24] == bytes[12..20] && db[24..36] == bytes[20..32]
  {
    hide Load, Load64;
    SameWords(db[0..4], bytes[0..4]);
    SameWords(db[4..8], bytes[4..8]);
    SameWords(db[8..12], bytes[8..12]);
    SameLongs(db[16..24], bytes[12..20]);
    SameWords(db[24..28], bytes[20..24]);
    SameWords(db[28..32], bytes[24..28]);
    SameWords(db[32..36], bytes[28..32]);
    assert db[0..12] == db[0..4] + db[4..8] + db[8..12] && bytes[0..12] == bytes[0..4] + bytes[4..8] + bytes[8..12];
    assert db[24..36] == db[24..28] + db[28..32] + db[32..36];
    assert bytes[20..32] == bytes[20..24] + bytes[24..28] + bytes[28..32];
  }

  /** hs_deserialize_database_at: check the header and the platform, rebuild the
      block in place, and check the bytecode against its checksum. Nothing is
      written before the header and the platform are accepted. */
  method DeserializeAt(bytes: seq<Byte>, db: array<Byte>, address: nat, current: bv64) returns (err: Error)
    requires db.Length == |bytes|
    modifies db
    ensures err == Accepts(bytes, address, current)
    ensures if address % 8 != 0 then err == BadAlign else ErrorOf(bytes, current, err)
    ensures err == Success ==> RebuiltFrom(bytes, address, db[..])
    ensures err == Success ==> db[..] == Block(StreamHeader(bytes), StreamCode(bytes), address)
    ensures address % 8 != 0 || DecodeHeader(bytes) != Success || err == PlatformError ==> db[..] == old(db[..])
  {
    hide Reference, StreamHeader, PlatformOk, Block, CodeOffset, Aligned64, ErrorOf, RebuiltFrom;
    if address % 8 != 0 {
      return BadAlign;
    }
    AcceptsFromBytes(bytes, address, current);
    err := DecodeHeader(bytes);
    if err != Success {
      return;
    }
    var h, code := StreamHeader(bytes), StreamCode(bytes);
    if !PlatformOk(h.platform, current) {
      return PlatformError;
    }
    Rebuild(db, h, code, address);
    CodeOffsetFits(address);
    LineNeedsNoBytes(address, CodeOffset(address));
    var crc := SlicingBy8(ZERO, code, address + CodeOffset(address));
    BlockFromBytes(bytes, address);
    err := if crc != h.crc32 then Invalid else Success;
  }

  lemma LineNeedsNoBytes(address: nat, off: nat)
    requires Aligned64(address, off)
    ensures BytesToAlign(address + off) == 0
  {
  }

  // -------------------------------------------------------------- the round trip

  /** A header and bytecode that a runtime built for `current` takes. */
  predicate Sound(h: Header, code: seq<Byte>, current: bv64) {
    && h.magic == MAGIC && h.version == VERSION && PlatformOk(h.platform, current)
    && |code| == h.Length() && Reference(ZERO, code) == h.crc32
  }

  lemma StreamAccepted(h: Header, code: seq<Byte>, address: nat, current: bv64)
    requires address % 8 == 0 && Sound(h, code, current)
    ensures var bytes := Stream(h, code);
            && DecodeHeader(bytes) == Success && Accepts(bytes, address, current) == Success
            && StreamHeader(bytes) == h && StreamCode(bytes) == code
  {
    StreamReads(h, code);
    hide Stream, StreamHeader, Reference, PlatformOk;
  }

  lemma BlockValid(h: Header, code: seq<Byte>, address: nat, current: bv64)
    requires address % 8 == 0 && Sound(h, code, current)
    ensures var b := Block(h, code, address);
            && InMemory(b) && HeaderAt(b) == h && BytecodeAt(b) == code
            && Aligned64(address, OffsetAt(b)) && FIELDS_END <= OffsetAt(b)
            && DbIsValid(b, address, current) == Success
  {
    hide Block, HeaderAt, BytecodeAt, OffsetAt, CodeOffset, InMemory, Reference, PlatformOk, Aligned16, Aligned64;
    CodeOffsetFits(address);
    BlockReads(h, code, address);
  }

  /** A database that passes dbIsValid survives serializing and deserializing at any
      8-byte aligned address: same header, same bytecode, aligned and in bounds,
      clear of the fields, and the result is valid again. */
  lemma RoundTrip(mem: seq<Byte>, address: nat, address': nat, current: bv64)
    requires InMemory(mem) && address % 8 == 0 && address' % 8 == 0
    requires DbIsValid(mem, address, current) == Success
    ensures CanSerialize(HeaderAt(mem), address) == Success
    ensures var bytes := Stream(HeaderAt(mem), BytecodeAt(mem));
            && DecodeHeader(bytes) == Success && Accepts(bytes, address', current) == Success
            && var b := Block(StreamHeader(bytes), StreamCode(bytes), address');
               && InMemory(b) && HeaderAt(b) == HeaderAt(mem) && BytecodeAt(b) == BytecodeAt(mem)
               && Aligned64(address', OffsetAt(b)) && FIELDS_END <= OffsetAt(b)
               && DbIsValid(b, address', current) == Success
  {
    var h, code := HeaderAt(mem), BytecodeAt(mem);
    assert Sound(h, code, current);
    hide Aligned64, HeaderAt, BytecodeAt, Sound, InMemory, Stream, StreamHeader, Block, Accepts, DecodeHeader, OffsetAt,
      DbIsValid;
    StreamAccepted(h, code, address', current);
    BlockValid(h, code, address', current);
  }

  lemma SameStreamHeader(a: seq<Byte>, b: seq<Byte>)
    requires |a| >= STREAM_HEADER && |b| >= STREAM_HEADER && a[..STREAM_HEADER] == b[..STREAM_HEADER]
    ensures StreamHeader(a) == StreamHeader(b)
  {
    hide Load, Load64;
    var p := a[..STREAM_HEADER];
    assert a[0..4] == p[0..4] == b[0..4] && a[4..8] == p[4..8] == b[4..8] && a[8..12] == p[8..12] == b[8..12];
    assert a[12..20] == p[12..20] == b[12..20] && a[20..24] == p[20..24] == b[20..24];
    assert a[24..28] == p[24..28] == b[24..28] && a[28..32] == p[28..32] == b[28..32];
  }

  /** Any change to a serialized database confined to its bytecode, and there to four
      consecutive bytes, is rejected. */
  lemma CorruptionIsRejected(h: Header, code: seq<Byte>, bytes: seq<Byte>, at: nat, address: nat, current: bv64)
    requires address % 8 == 0 && Sound(h, code, current)
    requires |bytes| == HEADER_SIZE + |code| && bytes != Stream(h, code)
    requires STREAM_HEADER <= at
    requires forall j :: 0 <= j < |bytes| && !(at <= j < at + 4 && j < STREAM_HEADER + |code|) ==>
      bytes[j] == Stream(h, code)[j]
    ensures Accepts(bytes, address, current) == Invalid
  {
    var good := Stream(h, code);
    var bad := bytes[STREAM_HEADER..STREAM_HEADER + |code|];
    StreamReads(h, code);
    hide Stream, Reference, StreamHeader, PlatformOk;
    assert bytes[..STREAM_HEADER] == good[..STREAM_HEADER];
    SameStreamHeader(bytes, good);
    var j :| 0 <= j < |bytes| && bytes[j] != good[j];
    assert bad[j - STREAM_HEADER] != code[j - STREAM_HEADER];
    forall i | 0 <= i < |code| && !(at - STREAM_HEADER <= i < at - STREAM_HEADER + 4) ensures code[i] == bad[i] {
      assert bytes[STREAM_HEADER + i] == good[STREAM_HEADER + i];
    }
    BurstIsDetected(ZERO, code, bad, at - STREAM_HEADER);
  }
}
