// The CRC-32 of the PNG encoder: a 256-entry table, filled and used a byte at
// a time, proved equal to the one-bit-at-a-time shift register of RFC 2083
// sections 3.4 and 15, and proved to detect every short burst.
module Checksum {
  import opened Bytes
  import opened Lfsr

  type word = bv32

  function Xor(x: word, y: word): word {
    x ^ y
  }

  /** The low `bits` binary digits of a number as a register value. */
  function Binary(n: nat, bits: nat): word
    decreases bits
  {
    if bits == 0 then 0 else (if n % 2 == 1 then 1 else 0) | (Binary(n / 2, bits - 1) << 1)
  }

  /** A buffer byte as a 32-bit operand. */
  function ToWord(b: byte): word {
    Binary(b as nat, 8)
  }

  /** One turn of the register with nothing fed in. */
  function Shift(c: word): word {
    if c & 1 == 1 then 0xedb8_8320 ^ (c >> 1) else c >> 1
  }

  // ---------------------------------------------------------------------
  // The reference: a shift register that is fed one message bit at a time.
  // ---------------------------------------------------------------------

  function Feed(c: word, bit: bool): word {
    if (c & 1 == 1) != bit then 0xedb8_8320 ^ (c >> 1) else c >> 1
  }

  /** The low `n` bits of `b`, least significant first. */
  function Bits(b: word, n: nat): seq<bool>
    decreases n
  {
    if n == 0 then [] else [b & 1 == 1] + Bits(b >> 1, n - 1)
  }

  function FeedByte(c: word, b: byte): word {
    Drive(Feed, c, Bits(ToWord(b), 8))
  }

  /** The CRC of the standard: register preset to ones, result complemented. */
  function BitSerialCrc(message: seq<byte>): word {
    Xor(Drive(FeedByte, 0xffff_ffff, message), 0xffff_ffff)
  }

  // ---------------------------------------------------------------------
  // The byte-wise form behind the table.
  // ---------------------------------------------------------------------

  /** The register after one byte: the byte joins the low end, then eight turns. */
  function ByteStep(c: word, b: byte): word {
    Iterate(Shift, Xor(c, ToWord(b)), 8)
  }

  function Crc(message: seq<byte>): word {
    Xor(Drive(ByteStep, 0xffff_ffff, message), 0xffff_ffff)
  }

  // --- exclusive or -------------------------------------------------------

  lemma XorShift(x: word, y: word)
    ensures (x ^ y) >> 1 == (x >> 1) ^ (y >> 1)
  {}

  lemma XorLowBit(x: word, y: word)
    ensures ((x ^ y) & 1 == 1) <==> ((x & 1 == 1) != (y & 1 == 1))
  {}

  lemma XorLaws(p: word, a: word, b: word)
    ensures p ^ (a ^ b) == (p ^ a) ^ b == a ^ (p ^ b)
    ensures (p ^ a) ^ (p ^ b) == a ^ b
  {}

  lemma XorCancel(c: word, x: word, y: word)
    requires Xor(x, c) == Xor(y, c) || Xor(c, x) == Xor(c, y)
    ensures x == y
  {}

  // --- one turn is linear and can be undone ---------------------------------

  lemma ShiftDistributes(x: word, y: word)
    ensures DistributesAt(Shift, Xor, x, y)
  {
    XorShift(x, y);
    XorLowBit(x, y);
    XorLaws(0xedb8_8320, x >> 1, y >> 1);
  }

  lemma ShiftLinear()
    ensures Linear(Shift, Xor)
  {
    forall x, y ensures DistributesAt(Shift, Xor, x, y) {
      ShiftDistributes(x, y);
    }
  }

  /** One turn backwards: bit 31 of the polynomial is set, so it tells the branch. */
  function Unshift(c: word): word {
    if c & 0x8000_0000 != 0 then ((c ^ 0xedb8_8320) << 1) | 1 else c << 1
  }

  lemma ShiftTopBit(c: word)
    ensures (c >> 1) & 0x8000_0000 == 0
    ensures (0xedb8_8320 ^ (c >> 1)) & 0x8000_0000 != 0
  {}

  lemma ShiftBack(c: word)
    ensures c & 1 == 1 ==> (((0xedb8_8320 ^ (c >> 1)) ^ 0xedb8_8320) << 1) | 1 == c
    ensures c & 1 != 1 ==> (c >> 1) << 1 == c
  {}

  lemma UnshiftShift(c: word)
    ensures Unshift(Shift(c)) == c
  {
    ShiftTopBit(c);
    ShiftBack(c);
  }

  lemma ShiftInjective()
    ensures Injective(Shift)
  {
    forall x, y | Shift(x) == Shift(y) ensures x == y {
      UnshiftShift(x);
      UnshiftShift(y);
    }
  }

  // --- empty low bits just move out -----------------------------------------

  function Drop(c: word, n: nat): word
    decreases n
  {
    if n == 0 then c else Drop(c >> 1, n - 1)
  }

  /** The `n` lowest positions are clear. */
  predicate LowEmpty(c: word, n: nat)
    requires n <= 8
  {
    c & [0, 1, 3, 7, 15, 31, 63, 127, 255][n] == 0
  }

  lemma LowEmptyStep(c: word, n: nat)
    requires 0 < n <= 8 && LowEmpty(c, n)
    ensures c & 1 == 0 && LowEmpty(c >> 1, n - 1)
  {
    if n == 1 {} else if n == 2 {} else if n == 3 {} else if n == 4 {}
    else if n == 5 {} else if n == 6 {} else if n == 7 {} else {}
  }

  lemma {:induction false} ShiftLowEmpty(c: word, n: nat)
    requires n <= 8 && LowEmpty(c, n)
    ensures Iterate(Shift, c, n) == Drop(c, n)
    decreases n
  {
    if n > 0 {
      LowEmptyStep(c, n);
      assert Shift(c) == c >> 1;
      ShiftLowEmpty(c >> 1, n - 1);
    }
  }

  lemma Drop8(c: word)
    ensures Drop(c, 8) == c >> 8
  {
    var c4 := c >> 1 >> 1 >> 1 >> 1;
    assert Drop(c, 8) == Drop(c >> 1 >> 1, 6) == Drop(c4, 4) == Drop(c4 >> 1 >> 1, 2);
  }

  /** Eight turns of a register whose low byte is empty move it one byte down. */
  lemma EightTurns(c: word)
    requires c & 0xff == 0
    ensures Iterate(Shift, c, 8) == c >> 8
  {
    ShiftLowEmpty(c, 8);
    Drop8(c);
  }

  // --- byte-wise equals bit-serial ------------------------------------------

  lemma FeedIsShift(c: word, b: word)
    ensures Shift(c ^ b) == Feed(c, b & 1 == 1) ^ (b >> 1)
  {
    XorShift(c, b);
    XorLowBit(c, b);
    XorLaws(0xedb8_8320, c >> 1, b >> 1);
  }

  /** Joining all bits first or feeding them one by one leaves only what was not fed. */
  lemma {:induction false} TurnsFeedBits(c: word, b: word, n: nat)
    ensures Iterate(Shift, Xor(c, b), n) == Xor(Drive(Feed, c, Bits(b, n)), Drop(b, n))
    decreases n
  {
    if n > 0 {
      var bit := b & 1 == 1;
      FeedIsShift(c, b);
      TurnsFeedBits(Feed(c, bit), b >> 1, n - 1);
      assert Bits(b, n)[1..] == Bits(b >> 1, n - 1);
    }
  }

  /** Nothing above the `bits` lowest positions. */
  predicate Narrow(w: word, bits: nat)
    requires bits <= 8
  {
    w < [1, 2, 4, 8, 16, 32, 64, 128, 256][bits]
  }

  lemma DoubleNarrow(low: word, w: word, bits: nat)
    requires low < 2 && bits < 8 && Narrow(w, bits)
    ensures Narrow(low | (w << 1), bits + 1)
  {
    if bits == 0 {} else if bits == 1 {} else if bits == 2 {} else if bits == 3 {}
    else if bits == 4 {} else if bits == 5 {} else if bits == 6 {} else {}
  }

  lemma DoubleParts(low: word, w: word)
    requires low < 2 && w < 128
    ensures (low | (w << 1)) & 1 == low && (low | (w << 1)) >> 1 == w
  {}

  lemma NarrowIsSmall(w: word, bits: nat)
    requires bits < 8 && Narrow(w, bits)
    ensures w < 128
  {}

  lemma {:induction false} BinaryNarrow(n: nat, bits: nat)
    requires bits <= 8
    ensures Narrow(Binary(n, bits), bits)
    decreases bits
  {
    if bits > 0 {
      BinaryNarrow(n / 2, bits - 1);
      DoubleNarrow(if n % 2 == 1 then 1 else 0, Binary(n / 2, bits - 1), bits - 1);
    }
  }

  predicate HasDigits(n: nat, bits: nat)
    decreases bits
  {
    if bits == 0 then n == 0 else HasDigits(n / 2, bits - 1)
  }

  /** The lowest digit and the rest can be read back. */
  lemma BinaryParts(n: nat, bits: nat) returns (w: word, rest: word)
    requires 0 < bits <= 8
    ensures w == Binary(n, bits) && rest == Binary(n / 2, bits - 1)
    ensures w >> 1 == rest && (w & 1 == 1 <==> n % 2 == 1)
  {
    w, rest := Binary(n, bits), Binary(n / 2, bits - 1);
    BinaryNarrow(n / 2, bits - 1);
    NarrowIsSmall(rest, bits - 1);
    DoubleParts(if n % 2 == 1 then 1 else 0, rest);
  }

  lemma {:induction false} BinaryInjective(m: nat, n: nat, bits: nat)
    requires bits <= 8 && HasDigits(m, bits) && HasDigits(n, bits)
    requires Binary(m, bits) == Binary(n, bits)
    ensures m == n
    decreases bits
  {
    if bits > 0 {
      var v, p := BinaryParts(m, bits);
      var w, q := BinaryParts(n, bits);
      BinaryInjective(m / 2, n / 2, bits - 1);
    }
  }

  lemma ByteHasDigits(b: byte)
    ensures HasDigits(b as nat, 8)
  {
    var n := b as nat;
    assert HasDigits(n / 2 / 2 / 2 / 2 / 2 / 2 / 2 / 2, 0);
    assert HasDigits(n / 2 / 2 / 2 / 2 / 2 / 2, 2);
    assert HasDigits(n / 2 / 2 / 2 / 2, 4);
    assert HasDigits(n / 2 / 2, 6);
  }

  lemma SmallWord(w: word)
    requires w < 256
    ensures w >> 8 == 0 && w & 0xff == w
  {}

  lemma ByteFits(b: byte)
    ensures ToWord(b) >> 8 == 0 && ToWord(b) & 0xff == ToWord(b)
  {
    BinaryNarrow(b as nat, 8);
    SmallWord(ToWord(b));
  }

  lemma {:induction false} ByteStepFeedsByte(c: word, b: byte)
    ensures ByteStep(c, b) == FeedByte(c, b)
  {
    TurnsFeedBits(c, ToWord(b), 8);
    Drop8(ToWord(b));
    ByteFits(b);
  }

  /** Main result: the table-driven CRC is the bit-serial one, on every message. */
  lemma CrcIsBitSerial(message: seq<byte>)
    ensures Crc(message) == BitSerialCrc(message)
  {
    forall c, b ensures ByteStep(c, b) == FeedByte(c, b) {
      ByteStepFeedsByte(c, b);
    }
    DriveAgree(ByteStep, FeedByte, 0xffff_ffff, message);
  }

  // --- the table ----------------------------------------------------------------

  /** What entry `n` of the table must hold. */
  function Entry(n: word): word {
    Iterate(Shift, n, 8)
  }

  ghost predicate IsCrcTable(t: seq<word>) {
    |t| == 256 && forall i: word | i < 256 && i as int < 256 :: t[i as int] == Entry(i)
  }

  /** Eight turns of a word whose low byte is `low` and whose other bytes are `high`. */
  lemma EightTurnsSum(low: word, high: word)
    requires high & 0xff == 0
    ensures Iterate(Shift, Xor(low, high), 8) == Xor(Entry(low), high >> 8)
  {
    ShiftLinear();
    IterateLinear(Shift, Xor, low, high, 8);
    EightTurns(high);
  }

  lemma SplitXor(c: word, b: word)
    requires b & 0xff == b
    ensures var high := (c >> 8) << 8;
            Xor(c, b) == Xor((c ^ b) & 0xff, high) && high & 0xff == 0 && high >> 8 == c >> 8
  {}

  lemma SplitRegister(c: word, b: word) returns (high: word)
    requires b & 0xff == b
    ensures high & 0xff == 0 && high >> 8 == c >> 8
    ensures Xor(c, b) == Xor((c ^ b) & 0xff, high)
  {
    SplitXor(c, b);
    high := (c >> 8) << 8;
  }

  lemma EightTurnsOfXor(c: word, b: word)
    requires b & 0xff == b
    ensures Iterate(Shift, Xor(c, b), 8) == Xor(Entry((c ^ b) & 0xff), c >> 8)
  {
    var high := SplitRegister(c, b);
    EightTurnsSum((c ^ b) & 0xff, high);
  }

  lemma WordOfByte(b: byte) returns (w: word)
    ensures w == ToWord(b) && w & 0xff == w
  {
    ByteFits(b);
    w := ToWord(b);
  }

  /** A table entry and one shift by eight do the work of eight turns. */
  lemma EntryIsByteStep(c: word, b: byte)
    ensures Xor(Entry((c ^ ToWord(b)) & 0xff), c >> 8) == ByteStep(c, b)
  {
    var w := WordOfByte(b);
    EightTurnsOfXor(c, w);
  }

  lemma IndexInRange(i: word)
    requires i < 256
    ensures i as int < 256
  {}

  lemma MaskInRange(i: word)
    ensures i & 0xff < 256
  {}

  lemma LookupIsByteStep(t: seq<word>, c: word, b: byte, i: word)
    requires IsCrcTable(t)
    requires i == (c ^ ToWord(b)) & 0xff
    ensures i as int < 256 && Xor(t[i as int], c >> 8) == ByteStep(c, b)
  {
    MaskInRange(c ^ ToWord(b));
    IndexInRange(i);
    EntryIsByteStep(c, b);
  }

  lemma WordOfIndex(i: word)
    requires i < 256
    ensures (i as int) as word == i
  {}

  method TableEntry(n: nat) returns (c: word)
    requires n < 256
    ensures c == Entry(n as word)
  {
    c := n as word;
    for k := 0 to 8
      invariant Iterate(Shift, c, 8 - k) == Entry(n as word)
    {
      c := if c & 1 == 1 then 0xedb8_8320 ^ (c >> 1) else c >> 1;
    }
  }

  method MakeCrcTable() returns (t: array<word>)
    ensures fresh(t) && IsCrcTable(t[..])
  {
    t := new word[256];
    for n := 0 to 256
      invariant forall i: word | i < 256 && i as int < n :: t[i as int] == Entry(i)
    {
      t[n] := TableEntry(n);
      forall i: word | i < 256 && i as int < n + 1 ensures t[i as int] == Entry(i) {
        if i as int == n {
          WordOfIndex(i);
        }
      }
    }
  }

  /** One byte through the table. */
  method Lookup(crcTable: array<word>, c: word, b: byte) returns (r: word)
    requires IsCrcTable(crcTable[..])
    ensures r == ByteStep(c, b)
  {
    var index := (c ^ ToWord(b)) & 0xff;
    LookupIsByteStep(crcTable[..], c, b, index);
    r := crcTable[index as int] ^ (c >> 8);
  }

  method Crc32(crcTable: array<word>, buf: seq<byte>) returns (crc: word)
    requires IsCrcTable(crcTable[..])
    ensures crc == BitSerialCrc(buf)
  {
    var c: word := 0xffff_ffff;
    for i := 0 to |buf|
      invariant Drive(ByteStep, c, buf[i..]) == Drive(ByteStep, 0xffff_ffff, buf)
    {
      assert buf[i..][1..] == buf[i + 1..];
      c := Lookup(crcTable, c, buf[i]);
    }
    crc := Xor(c, 0xffff_ffff);
    CrcIsBitSerial(buf);
  }

  // --- error detection --------------------------------------------------------------

  lemma ByteStepInjective()
    ensures forall b, v, w :: ByteStep(v, b) == ByteStep(w, b) ==> v == w
  {
    forall b, v, w | ByteStep(v, b) == ByteStep(w, b) ensures v == w {
      ShiftInjective();
      IterateInjective(Shift, Xor(v, ToWord(b)), Xor(w, ToWord(b)), 8);
      XorCancel(ToWord(b), v, w);
    }
  }

  /** Up to four bytes as one word, the first byte lowest. */
  function Window(s: seq<byte>): word
    requires |s| <= 4
    decreases |s|
  {
    if s == [] then 0 else Push(ToWord(s[0]), Window(s[1..]))
  }

  function Push(b: word, rest: word): word {
    b ^ (rest << 8)
  }

  /** The bits above the `n` lowest bytes are clear. */
  predicate Fits(w: word, n: nat) {
    match n
    case 0 => w == 0
    case 1 => w & 0xffff_ff00 == 0
    case 2 => w & 0xffff_0000 == 0
    case 3 => w & 0xff00_0000 == 0
    case _ => true
  }

  lemma PushFits(b: word, rest: word, n: nat)
    requires b & 0xff == b && n < 4 && Fits(rest, n)
    ensures Fits(Push(b, rest), n + 1)
  {}

  lemma LowByteOut(b: word, rest: word)
    requires b & 0xff == b && rest & 0xff00_0000 == 0
    ensures (b ^ (rest << 8)) & 0xff == b
    ensures (b ^ (rest << 8)) >> 8 == rest
  {}

  lemma PushParts(b: word, rest: word)
    requires b & 0xff == b && rest & 0xff00_0000 == 0
    ensures Push(b, rest) & 0xff == b && Push(b, rest) >> 8 == rest
  {
    LowByteOut(b, rest);
  }

  lemma PushInjective(b: word, x: word, c: word, y: word)
    requires b & 0xff == b && x & 0xff00_0000 == 0
    requires c & 0xff == c && y & 0xff00_0000 == 0
    requires Push(b, x) == Push(c, y)
    ensures b == c && x == y
  {
    PushParts(b, x);
    PushParts(c, y);
  }

  lemma PushEmpty(rest: word)
    requires rest & 0xff00_0000 == 0
    ensures (rest << 8) & 0xff == 0 && (rest << 8) >> 8 == rest
  {}

  lemma FitsMore(w: word, n: nat)
    requires n <= 3 && Fits(w, n)
    ensures w & 0xff00_0000 == 0
  {
    if n == 2 {
      NarrowMask(w);
    } else if n == 1 {
      NarrowerMask(w);
    }
  }

  lemma NarrowMask(w: word)
    requires w & 0xffff_0000 == 0
    ensures w & 0xff00_0000 == 0
  {}

  lemma NarrowerMask(w: word)
    requires w & 0xffff_ff00 == 0
    ensures w & 0xff00_0000 == 0
  {}

  lemma {:induction false} WindowFits(s: seq<byte>)
    requires |s| <= 4
    ensures Fits(Window(s), |s|)
    decreases |s|
  {
    if s != [] {
      var b := WordOfByte(s[0]);
      WindowFits(s[1..]);
      PushFits(b, Window(s[1..]), |s| - 1);
    }
  }

  lemma WindowParts(s: seq<byte>) returns (b: word, rest: word)
    requires 0 < |s| <= 4
    ensures b == ToWord(s[0]) && rest == Window(s[1..]) && Window(s) == Push(b, rest)
    ensures b & 0xff == b && rest & 0xff00_0000 == 0
  {
    b := WordOfByte(s[0]);
    rest := Window(s[1..]);
    WindowFits(s[1..]);
    FitsMore(rest, |s| - 1);
  }

  lemma {:induction false} WindowInjective(s: seq<byte>, t: seq<byte>)
    requires |s| == |t| <= 4
    requires Window(s) == Window(t)
    ensures s == t
    decreases |s|
  {
    if s != [] {
      var b, x := WindowParts(s);
      var c, y := WindowParts(t);
      PushInjective(b, x, c, y);
      WindowInjective(s[1..], t[1..]);
      SameByte(s[0], t[0]);
    }
  }

  lemma SameByte(a: byte, b: byte)
    requires ToWord(a) == ToWord(b)
    ensures a == b
  {
    ByteHasDigits(a);
    ByteHasDigits(b);
    BinaryInjective(a as nat, b as nat, 8);
  }

  lemma XorAssoc(x: word, y: word, z: word)
    ensures Xor(Xor(x, y), z) == Xor(x, Xor(y, z))
  {}

  lemma PushTurns(c: word, b: word, rest: word)
    requires b & 0xff == b && rest & 0xff00_0000 == 0
    ensures Iterate(Shift, Xor(c, Push(b, rest)), 8) == Xor(Iterate(Shift, Xor(c, b), 8), rest)
  {
    PushEmpty(rest);
    XorAssoc(c, b, rest << 8);
    ShiftLinear();
    IterateLinear(Shift, Xor, Xor(c, b), rest << 8, 8);
    EightTurns(rest << 8);
  }

  /** Up to four bytes act on the register as one word joined at once. */
  lemma {:induction false} DriveWindow(c: word, s: seq<byte>)
    requires |s| <= 4
    ensures Drive(ByteStep, c, s) == Iterate(Shift, Xor(c, Window(s)), 8 * |s|)
    decreases |s|
  {
    if s == [] {
      assert Xor(c, 0) == c;
    } else {
      var b, rest := WindowParts(s);
      PushTurns(c, b, rest);
      DriveWindow(ByteStep(c, s[0]), s[1..]);
      IterateSplit(Shift, Xor(c, Window(s)), 8, 8 * |s[1..]|);
    }
  }

  /**
   * Main result: two messages of equal length that differ only inside one
   * window of at most four bytes never share a CRC. A single wrong byte is the
   * case of a one-byte window.
   */
  lemma BurstDetected(before: seq<byte>, s: seq<byte>, t: seq<byte>, after: seq<byte>)
    requires |s| == |t| <= 4
    requires BitSerialCrc(before + s + after) == BitSerialCrc(before + t + after)
    ensures s == t
  {
    var c := Drive(ByteStep, 0xffff_ffff, before);
    var x, y := Drive(ByteStep, c, s), Drive(ByteStep, c, t);
    DriveSplit(ByteStep, 0xffff_ffff, before + s, after);
    DriveSplit(ByteStep, 0xffff_ffff, before, s);
    DriveSplit(ByteStep, 0xffff_ffff, before + t, after);
    DriveSplit(ByteStep, 0xffff_ffff, before, t);
    EqualCrc(before + s + after, before + t + after);
    ByteStepInjective();
    DriveInjective(ByteStep, x, y, after);
    DriveWindow(c, s);
    DriveWindow(c, t);
    ShiftInjective();
    IterateInjective(Shift, Xor(c, Window(s)), Xor(c, Window(t)), 8 * |s|);
    XorCancel(c, Window(s), Window(t));
    WindowInjective(s, t);
  }

  lemma EqualCrc(m: seq<byte>, n: seq<byte>)
    requires BitSerialCrc(m) == BitSerialCrc(n)
    ensures Drive(ByteStep, 0xffff_ffff, m) == Drive(ByteStep, 0xffff_ffff, n)
  {
    CrcIsBitSerial(m);
    CrcIsBitSerial(n);
    XorCancel(0xffff_ffff, Drive(ByteStep, 0xffff_ffff, m), Drive(ByteStep, 0xffff_ffff, n));
  }

  // --- a known checksum --------------------------------------------------------------

  lemma EightShifts(a: word, b: word, c: word, d: word, e: word, f: word, g: word, h: word, i: word)
    requires Shift(a) == b && Shift(b) == c && Shift(c) == d && Shift(d) == e
    requires Shift(e) == f && Shift(f) == g && Shift(g) == h && Shift(h) == i
    ensures Iterate(Shift, a, 8) == i
  {
    assert Iterate(Shift, h, 1) == i && Iterate(Shift, g, 2) == i && Iterate(Shift, f, 3) == i;
    assert Iterate(Shift, e, 4) == i && Iterate(Shift, d, 5) == i && Iterate(Shift, c, 6) == i;
    assert Iterate(Shift, b, 7) == i;
  }

  lemma FirstStep()
    ensures ByteStep(0xffff_ffff, 0x49) == 0x22fd_e946
  {
    assert ToWord(0x49) == 0x49;
    EightShifts(0xffff_ffb6, 0x7fff_ffdb, 0xd247_7ccd, 0x849b_3d46, 0x424d_9ea3, 0xcc9e_4c71, 0x8bf7_a518, 0x45fb_d28c, 0x22fd_e946);
  }

  lemma SecondStep()
    ensures ByteStep(0x22fd_e946, 0x45) == 0x992b_ac53
  {
    assert ToWord(0x45) == 0x45;
    EightShifts(0x22fd_e903, 0xfcc6_77a1, 0x93db_b8f0, 0x49ed_dc78, 0x24f6_ee3c, 0x127b_771e, 0x093d_bb8f, 0xe926_5ee7, 0x992b_ac53);
  }

  lemma ThirdStep()
    ensures ByteStep(0x992b_ac53, 0x4e) == 0x639f_4775
  {
    assert ToWord(0x4e) == 0x4e;
    EightShifts(0x992b_ac1d, 0xa12d_552e, 0x5096_aa97, 0xc5f3_d66b, 0x8f41_6815, 0xaa18_372a, 0x550c_1b95, 0xc73e_8eea, 0x639f_4775);
  }

  lemma FourthStep()
    ensures ByteStep(0x639f_4775, 0x44) == 0x51bd_9f7d
  {
    assert ToWord(0x44) == 0x44;
    EightShifts(0x639f_4731, 0xdc77_20b8, 0x6e3b_905c, 0x371d_c82e, 0x1b8e_e417, 0xe07f_f12b, 0x9d87_7bb5, 0xa37b_3efa, 0x51bd_9f7d);
  }

  /** The checksum of the four letters IEND, as every PNG file ends with it. */
  lemma KnownChecksum()
    ensures Crc([0x49, 0x45, 0x4e, 0x44]) == 0xae42_6082
    ensures BitSerialCrc([0x49, 0x45, 0x4e, 0x44]) == 0xae42_6082
  {
    FirstStep();
    SecondStep();
    ThirdStep();
    FourthStep();
    var m: seq<byte> := [0x49, 0x45, 0x4e, 0x44];
    assert m[1..] == [0x45, 0x4e, 0x44] && m[1..][1..] == [0x4e, 0x44] && m[1..][1..][1..] == [0x44];
    assert m[1..][1..][1..][1..] == [];
    CrcIsBitSerial(m);
  }
}
