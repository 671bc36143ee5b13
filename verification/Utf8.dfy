// UTF-8 as the log reader meets it: a decoder that replaces every ill-formed
// subsequence by U+FFFD, and the byte length of the decoded text.
module Utf8 {
  import opened Bytes

  type rune = nat

  const REPLACEMENT: rune := 0xfffd
  const NEWLINE: byte := 10

  predicate Scalar(r: rune) {
    r < 0xd800 || 0xe000 <= r < 0x11_0000
  }

  predicate Within(b: byte, lo: nat, hi: nat) {
    lo <= b as nat <= hi
  }

  /** Whether position `i` holds a byte of the given range. */
  predicate At(s: seq<byte>, i: nat, lo: nat, hi: nat) {
    i < |s| && Within(s[i], lo, hi)
  }

  datatype Lead = Lead(lo: nat, hi: nat, width: nat)

  /** The allowed second byte and the length of the sequence a lead byte opens. */
  function LeadOf(b: byte): (lead: Option<Lead>)
    ensures lead.Some? ==> 0x80 <= lead.value.lo <= lead.value.hi <= 0xbf && 2 <= lead.value.width <= 4
  {
    if Within(b, 0xc2, 0xdf) then Some(Lead(0x80, 0xbf, 2))
    else if b == 0xe0 then Some(Lead(0xa0, 0xbf, 3))
    else if b == 0xed then Some(Lead(0x80, 0x9f, 3))
    else if Within(b, 0xe1, 0xef) then Some(Lead(0x80, 0xbf, 3))
    else if b == 0xf0 then Some(Lead(0x90, 0xbf, 4))
    else if Within(b, 0xf1, 0xf3) then Some(Lead(0x80, 0xbf, 4))
    else if b == 0xf4 then Some(Lead(0x80, 0x8f, 4))
    else None
  }

  datatype Unit = Unit(value: rune, width: nat, formed: bool)

  /** The first character, or the first ill-formed piece as one replacement. */
  function DecodeFirst(s: seq<byte>): (u: Unit)
    requires s != []
    ensures 1 <= u.width <= |s| && u.width <= 4
    ensures !u.formed ==> u.value == REPLACEMENT && u.width <= 3
  {
    var b := s[0] as nat;
    if b < 0x80 then Unit(b, 1, true)
    else
      match LeadOf(s[0])
      case None => Unit(REPLACEMENT, 1, false)
      case Some(lead) =>
        if !At(s, 1, lead.lo, lead.hi) then Unit(REPLACEMENT, 1, false)
        else if lead.width == 2 then Unit((b - 0xc0) * 0x40 + Low6(s[1]), 2, true)
        else if !At(s, 2, 0x80, 0xbf) then Unit(REPLACEMENT, 2, false)
        else if lead.width == 3 then Unit(((b - 0xe0) * 0x40 + Low6(s[1])) * 0x40 + Low6(s[2]), 3, true)
        else if !At(s, 3, 0x80, 0xbf) then Unit(REPLACEMENT, 3, false)
        else Unit((((b - 0xf0) * 0x40 + Low6(s[1])) * 0x40 + Low6(s[2])) * 0x40 + Low6(s[3]), 4, true)
  }

  function Low6(b: byte): (n: nat)
  {
    if 0x80 <= b then b as nat - 0x80 else 0
  }

  function Decode(s: seq<byte>): seq<rune>
    decreases |s|
  {
    if s == [] then []
    else
      var u := DecodeFirst(s);
      [u.value] + Decode(s[u.width..])
  }

  /** The number of bytes that encode a character. */
  function Width(r: rune): nat {
    if r < 0x80 then 1 else if r < 0x800 then 2 else if r < 0x1_0000 then 3 else 4
  }

  function ByteLength(text: seq<rune>): nat {
    if text == [] then 0 else Width(text[0]) + ByteLength(text[1..])
  }

  function EncodeOne(r: rune): (s: seq<byte>)
    requires Scalar(r)
    ensures |s| == Width(r)
  {
    if r < 0x80 then [r as byte]
    else if r < 0x800 then [(0xc0 + r / 0x40) as byte, (0x80 + r % 0x40) as byte]
    else if r < 0x1_0000 then
      [(0xe0 + r / 0x40 / 0x40) as byte, (0x80 + r / 0x40 % 0x40) as byte, (0x80 + r % 0x40) as byte]
    else
      [(0xf0 + r / 0x40 / 0x40 / 0x40) as byte, (0x80 + r / 0x40 / 0x40 % 0x40) as byte,
       (0x80 + r / 0x40 % 0x40) as byte, (0x80 + r % 0x40) as byte]
  }

  predicate ScalarText(text: seq<rune>) {
    forall r <- text :: Scalar(r)
  }

  function Encode(text: seq<rune>): seq<byte>
    requires ScalarText(text)
  {
    if text == [] then [] else EncodeOne(text[0]) + Encode(text[1..])
  }

  // --- a newline stands alone -------------------------------------------------

  /** What follows a newline cannot influence the character before it. */
  lemma DecodeFirstLocal(a: seq<byte>, b: seq<byte>)
    requires a != []
    ensures DecodeFirst(a + [NEWLINE] + b) == DecodeFirst(a)
  {
    var s := a + [NEWLINE] + b;
    forall i: nat, lo, hi | i <= |a| && 0x80 <= lo ensures At(s, i, lo, hi) == At(a, i, lo, hi) {
      if i == |a| {
        assert s[i] == NEWLINE;
      }
    }
  }

  /** Main lemma: decoding a text and cutting it at a newline commute. */
  lemma {:induction false} DecodeAtNewline(a: seq<byte>, b: seq<byte>)
    ensures Decode(a + [NEWLINE] + b) == Decode(a) + [NEWLINE as rune] + Decode(b)
    decreases |a|
  {
    var s := a + [NEWLINE] + b;
    if a == [] {
      assert s[0] == NEWLINE && s[1..] == b;
      assert DecodeFirst(s) == Unit(NEWLINE as rune, 1, true);
    } else {
      var w := DecodeFirst(a).width;
      DecodeFirstLocal(a, b);
      assert s[w..] == a[w..] + [NEWLINE] + b;
      DecodeAtNewline(a[w..], b);
    }
  }

  lemma {:induction false} NoNewlineDecoded(a: seq<byte>)
    requires NEWLINE !in a
    ensures NEWLINE as rune !in Decode(a)
    decreases |a|
  {
    if a != [] {
      var u := DecodeFirst(a);
      assert a[0] != NEWLINE;
      assert u.value != NEWLINE as rune;
      NoNewlineDecoded(a[u.width..]);
    }
  }

  lemma {:induction false} ByteLengthConcat(x: seq<rune>, y: seq<rune>)
    ensures ByteLength(x + y) == ByteLength(x) + ByteLength(y)
  {
    if x == [] {
      assert x + y == y;
    } else {
      assert (x + y)[1..] == x[1..] + y;
      ByteLengthConcat(x[1..], y);
    }
  }

  // --- when decoding keeps the length -----------------------------------------

  /** Every ill-formed piece is as long as the three bytes of its replacement. */
  predicate KeepsLength(s: seq<byte>)
    decreases |s|
  {
    s == [] || (var u := DecodeFirst(s); (u.formed || u.width == 3) && KeepsLength(s[u.width..]))
  }

  lemma UnitWidth(s: seq<byte>)
    requires s != []
    ensures var u := DecodeFirst(s);
            if u.formed then Width(u.value) == u.width else Width(u.value) == 3
  {}

  /** Re-measuring decoded bytes never comes out short, and is exact on KeepsLength only. */
  lemma {:induction false} DecodedLength(s: seq<byte>)
    ensures ByteLength(Decode(s)) >= |s|
    ensures ByteLength(Decode(s)) == |s| <==> KeepsLength(s)
    decreases |s|
  {
    if s != [] {
      var u := DecodeFirst(s);
      UnitWidth(s);
      DecodedLength(s[u.width..]);
      assert Decode(s)[1..] == Decode(s[u.width..]);
    }
  }

  // --- encoded text decodes to itself -----------------------------------------

  lemma DecodeTwo(r: rune, rest: seq<byte>)
    requires 0x80 <= r < 0x800
    ensures DecodeFirst(EncodeOne(r) + rest) == Unit(r, 2, true)
  {}

  lemma DecodeThree(r: rune, rest: seq<byte>)
    requires 0x800 <= r < 0x1_0000 && Scalar(r)
    ensures DecodeFirst(EncodeOne(r) + rest) == Unit(r, 3, true)
  {
    var q := r / 0x40;
    assert r == q * 0x40 + r % 0x40 && q == q / 0x40 * 0x40 + q % 0x40;
  }

  lemma DecodeFour(r: rune, rest: seq<byte>)
    requires 0x1_0000 <= r < 0x11_0000
    ensures DecodeFirst(EncodeOne(r) + rest) == Unit(r, 4, true)
  {
    var q := r / 0x40;
    var p := q / 0x40;
    assert r == q * 0x40 + r % 0x40 && q == p * 0x40 + q % 0x40 && p == p / 0x40 * 0x40 + p % 0x40;
  }

  lemma DecodeEncodedOne(r: rune, rest: seq<byte>)
    requires Scalar(r)
    ensures DecodeFirst(EncodeOne(r) + rest) == Unit(r, Width(r), true)
  {
    if 0x1_0000 <= r {
      DecodeFour(r, rest);
    } else if 0x800 <= r {
      DecodeThree(r, rest);
    } else if 0x80 <= r {
      DecodeTwo(r, rest);
    }
  }

  lemma {:induction false} DecodeEncoded(text: seq<rune>)
    requires ScalarText(text)
    ensures Decode(Encode(text)) == text && KeepsLength(Encode(text))
  {
    if text != [] {
      var r, rest := text[0], Encode(text[1..]);
      DecodeEncodedOne(r, rest);
      assert (EncodeOne(r) + rest)[Width(r)..] == rest;
      DecodeEncoded(text[1..]);
    }
  }

  // --- what is well-formed ----------------------------------------------------------

  lemma TwoBytes(b: byte, c: byte)
    requires Within(b, 0xc2, 0xdf) && Within(c, 0x80, 0xbf)
    ensures var r := (b as nat - 0xc0) * 0x40 + Low6(c); 0x80 <= r < 0x800 && EncodeOne(r) == [b, c]
  {}

  lemma ThreeBytes(b: byte, c: byte, d: byte)
    requires Within(b, 0xe0, 0xef) && Within(c, 0x80, 0xbf) && Within(d, 0x80, 0xbf)
    requires (b == 0xe0 ==> 0xa0 <= c) && (b == 0xed ==> c <= 0x9f)
    ensures var r := ((b as nat - 0xe0) * 0x40 + Low6(c)) * 0x40 + Low6(d);
            0x800 <= r < 0x1_0000 && Scalar(r) && EncodeOne(r) == [b, c, d]
  {
    var q := (b as nat - 0xe0) * 0x40 + Low6(c);
    var r := q * 0x40 + Low6(d);
    assert r / 0x40 == q && r % 0x40 == Low6(d) && q / 0x40 == b as nat - 0xe0 && q % 0x40 == Low6(c);
  }

  lemma FourBytes(b: byte, c: byte, d: byte, e: byte)
    requires Within(b, 0xf0, 0xf4) && Within(c, 0x80, 0xbf) && Within(d, 0x80, 0xbf) && Within(e, 0x80, 0xbf)
    requires (b == 0xf0 ==> 0x90 <= c) && (b == 0xf4 ==> c <= 0x8f)
    ensures var r := (((b as nat - 0xf0) * 0x40 + Low6(c)) * 0x40 + Low6(d)) * 0x40 + Low6(e);
            0x1_0000 <= r < 0x11_0000 && EncodeOne(r) == [b, c, d, e]
  {
    var p := (b as nat - 0xf0) * 0x40 + Low6(c);
    var q := p * 0x40 + Low6(d);
    var r := q * 0x40 + Low6(e);
    assert r / 0x40 == q && r % 0x40 == Low6(e) && q / 0x40 == p && q % 0x40 == Low6(d);
    assert p / 0x40 == b as nat - 0xf0 && p % 0x40 == Low6(c);
  }

  /** What is taken for a character is the encoding of one: nothing overlong, no surrogate, nothing too large. */
  lemma FormedIsEncoded(s: seq<byte>)
    requires s != [] && DecodeFirst(s).formed
    ensures var u := DecodeFirst(s); Scalar(u.value) && s[..u.width] == EncodeOne(u.value)
  {
    var u := DecodeFirst(s);
    if u.width == 2 {
      TwoBytes(s[0], s[1]);
    } else if u.width == 3 {
      ThreeBytes(s[0], s[1], s[2]);
    } else if u.width == 4 {
      FourBytes(s[0], s[1], s[2], s[3]);
    }
  }

  /** An ill-formed piece is told from the bytes up to the one after it. */
  lemma IllFormedLocal(s: seq<byte>, t: seq<byte>)
    requires s != [] && !DecodeFirst(s).formed && DecodeFirst(s).width < |s|
    requires DecodeFirst(s).width < |t| && t[..DecodeFirst(s).width + 1] == s[..DecodeFirst(s).width + 1]
    ensures DecodeFirst(t) == DecodeFirst(s)
  {
    var w := DecodeFirst(s).width;
    forall i | 0 <= i <= w ensures t[i] == s[i] {
      assert t[..w + 1][i] == s[..w + 1][i];
    }
  }

  /**
   * An ill-formed piece is replaced as a whole and no further: together with the
   * byte after it, it begins no character, and if it is longer than a byte it
   * begins one.
   */
  lemma IllFormedIsMaximal(s: seq<byte>, r: rune) returns (cut: rune)
    requires s != [] && !DecodeFirst(s).formed && Scalar(r)
    ensures var w := DecodeFirst(s).width;
            && (w < |s| ==> !(s[..w + 1] <= EncodeOne(r)))
            && (w > 1 ==> Scalar(cut) && s[..w] < EncodeOne(cut))
  {
    var w := DecodeFirst(s).width;
    if w < |s| && s[..w + 1] <= EncodeOne(r) {
      DecodeEncodedOne(r, []);
      assert EncodeOne(r) + [] == EncodeOne(r);
      IllFormedLocal(s, EncodeOne(r));
      assert false;
    }
    cut := 0;
    if w > 1 {
      var lead := LeadOf(s[0]).value;
      var t := s[..w] + if lead.width - w == 1 then [0x80] else [0x80, 0x80];
      FormedIsEncoded(t);
      cut := DecodeFirst(t).value;
    }
  }
}
