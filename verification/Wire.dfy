/** The header of a WebSocket frame (section 5.2 of RFC 6455), read and written.
    A byte is a number below 256, so `b & 0x80 != 0` is `b >= 128`,
    `b & 0x7f` is `b % 128` and `b & 0x0f` is `b % 16`. */
module Wire {
  import opened Base

  type Byte = b: int | 0 <= b < 256

  const U64_MAX: nat := 0xFFFF_FFFF_FFFF_FFFF
  /** The least length whose top bit (of 64) is set. */
  const TOP_BIT: nat := 0x8000_0000_0000_0000

  /** What the guard keeps of a header: `size` bytes of header, a mask key
      included, and `len` of payload, which the client may say is anything below
      2^64. */
  datatype Header = Header(fin: bool, opcode: nat, len: nat, size: nat)

  predicate IsControl(h: Header) {
    h.opcode >= 8
  }

  /** The unsigned number `b` spells, its most significant byte first. */
  function BigEndian(b: seq<Byte>): nat {
    if b == [] then 0 else 256 * BigEndian(b[..|b| - 1]) + b[|b| - 1]
  }

  function Pow256(n: nat): nat {
    if n == 0 then 1 else 256 * Pow256(n - 1)
  }

  /** `n` in `k` bytes, the most significant first. */
  function ToBigEndian(n: nat, k: nat): (b: seq<Byte>)
    ensures |b| == k
  {
    if k == 0 then [] else ToBigEndian(n / 256, k - 1) + [n % 256]
  }

  lemma {:induction false} BigEndianBelow(b: seq<Byte>)
    ensures BigEndian(b) < Pow256(|b|)
  {
    if b != [] {
      BigEndianBelow(b[..|b| - 1]);
    }
  }

  lemma {:induction false} BigEndianRoundTrip(n: nat, k: nat)
    requires n < Pow256(k)
    ensures BigEndian(ToBigEndian(n, k)) == n
  {
    if k > 0 {
      BigEndianRoundTrip(n / 256, k - 1);
      assert ToBigEndian(n, k)[..k - 1] == ToBigEndian(n / 256, k - 1);
    }
  }

  lemma {:induction false} ToBigEndianRoundTrip(b: seq<Byte>)
    ensures ToBigEndian(BigEndian(b), |b|) == b
  {
    if b != [] {
      ToBigEndianRoundTrip(b[..|b| - 1]);
      assert b == b[..|b| - 1] + [b[|b| - 1]];
    }
  }

  /** The first byte is the most significant one. */
  lemma {:induction false} BigEndianFirst(b: seq<Byte>)
    requires b != []
    ensures b[0] * Pow256(|b| - 1) <= BigEndian(b) < (b[0] + 1) * Pow256(|b| - 1)
  {
    if |b| == 1 {
      assert b[..0] == [];
      assert BigEndian(b[..0]) == 0;
    } else {
      var front := b[..|b| - 1];
      BigEndianFirst(front);
      var p, f: int := Pow256(|front| - 1), b[0];
      assert Pow256(|b| - 1) == 256 * p;
      assert f * (256 * p) == 256 * (f * p);
      assert (f + 1) * (256 * p) == 256 * ((f + 1) * p);
    }
  }

  lemma Pow256Eight()
    ensures Pow256(1) == 256 && Pow256(2) == 0x1_0000
    ensures Pow256(7) == 0x100_0000_0000_0000 && Pow256(8) == U64_MAX + 1
  {
    assert Pow256(3) == 0x100_0000;
    assert Pow256(5) == 0x100_0000_0000;
  }

  /** A 64-bit length with its top bit set, seen at the third byte. */
  predicate IllegalLength(b: seq<Byte>) {
    |b| >= 3 && b[1] % 128 == 127 && b[2] >= 128
  }

  /** The header `b` begins with, unless part of it is missing. */
  function ParseHeader(b: seq<Byte>): (r: Option<Header>)
    ensures r.Some? ==> 2 <= r.value.size <= |b| && r.value.size <= 14 && r.value.opcode < 16
  {
    if |b| < 2 then None else
    var n := b[1] % 128;
    if (n == 126 && |b| < 4) || (n == 127 && |b| < 10) then None else
    var len := if n == 126 then BigEndian(b[2..4]) else if n == 127 then BigEndian(b[2..10]) else n;
    var size := (if n == 126 then 4 else if n == 127 then 10 else 2) + (if b[1] >= 128 then 4 else 0);
    if |b| < size then None else Some(Header(b[0] >= 128, b[0] % 16, len, size))
  }

  /** `Header::total`: the frame's bytes in 64 bits, saturated. */
  function Total(h: Header): (t: nat)
  {
    Min(h.size + h.len, U64_MAX)
  }

  /** A legal frame's total is exact; no frame's is ever shorter than its
      payload or wraps. */
  lemma TotalNeverShort(h: Header)
    requires h.size <= 14 && h.len <= U64_MAX
    ensures h.len <= Total(h) <= U64_MAX
    ensures h.len < TOP_BIT ==> Total(h) == h.size + h.len
    ensures Total(h) == h.size + h.len || Total(h) == U64_MAX
  {}

  /** The top bit the third byte shows is the length's: exactly the frames not
      refused have a length below 2^63. */
  lemma IllegalLengthIsTopBit(b: seq<Byte>)
    requires ParseHeader(b).Some?
    ensures IllegalLength(b) <==> ParseHeader(b).value.len >= TOP_BIT
    ensures ParseHeader(b).value.len <= U64_MAX
  {
    Pow256Eight();
    if b[1] % 128 == 127 {
      BigEndianFirst(b[2..10]);
      assert b[2..10][0] == b[2];
      BigEndianBelow(b[2..10]);
      assert 128 * Pow256(7) == TOP_BIT;
    } else if b[1] % 128 == 126 {
      BigEndianBelow(b[2..4]);
    }
  }

  /** What follows a header never changes how it reads. */
  lemma HeaderIsAPrefix(b: seq<Byte>, t: seq<Byte>)
    requires ParseHeader(b).Some?
    ensures ParseHeader(b + t) == ParseHeader(b)
    ensures ParseHeader(b[..ParseHeader(b).value.size]) == ParseHeader(b)
    ensures IllegalLength(b + t) == IllegalLength(b)
  {
    var c := b[..ParseHeader(b).value.size];
    assert (b + t)[0] == b[0] && (b + t)[1] == b[1];
    assert c[0] == b[0] && c[1] == b[1];
    if b[1] % 128 == 126 {
      assert (b + t)[2..4] == b[2..4] == c[2..4];
    } else if b[1] % 128 == 127 {
      assert (b + t)[2..10] == b[2..10] == c[2..10];
    }
  }

  /** How a client writes a header: `form` names the length's own bytes. */
  datatype Form = Short | Long | Longest

  predicate Fits(form: Form, len: nat) {
    match form
    case Short => len < 126
    case Long => len <= 0xFFFF
    case Longest => len <= U64_MAX
  }

  /** The mask bit and the payload length, in the form chosen. */
  function EncodeLength(masked: bool, form: Form, len: nat): (b: seq<Byte>)
    requires Fits(form, len)
    ensures |b| == match form case Short => 1 case Long => 3 case Longest => 9
  {
    var mask := if masked then 128 else 0;
    match form
    case Short => [mask + len]
    case Long => [mask + 126] + ToBigEndian(len, 2)
    case Longest => [mask + 127] + ToBigEndian(len, 8)
  }

  /** The header a client sends, by the figure of section 5.2 of RFC 6455. */
  function EncodeHeader(fin: bool, rsv: nat, opcode: nat, form: Form, len: nat, key: Option<seq<Byte>>): seq<Byte>
    requires rsv < 8 && opcode < 16 && Fits(form, len)
    requires key.Some? ==> |key.value| == 4
  {
    [(if fin then 128 else 0) + 16 * rsv + opcode]
    + EncodeLength(key.Some?, form, len)
    + (if key.Some? then key.value else [])
  }

  lemma FirstByteReads(fin: bool, rsv: nat, opcode: nat)
    requires rsv < 8 && opcode < 16
    ensures var x := (if fin then 128 else 0) + 16 * rsv + opcode;
            x < 256 && (x >= 128 <==> fin) && x % 16 == opcode
  {}

  lemma LengthReads(b: seq<Byte>, masked: bool, form: Form, len: nat)
    requires Fits(form, len)
    requires var e := EncodeLength(masked, form, len);
             |b| == 1 + |e| + (if masked then 4 else 0) && b[1..1 + |e|] == e
    ensures ParseHeader(b) == Some(Header(b[0] >= 128, b[0] % 16, len, |b|))
  {
    var e := EncodeLength(masked, form, len);
    Pow256Eight();
    assert b[1] == e[0];
    match form {
      case Short =>
      case Long =>
        assert b[2..4] == e[1..] == ToBigEndian(len, 2);
        BigEndianRoundTrip(len, 2);
      case Longest =>
        assert b[2..10] == e[1..] == ToBigEndian(len, 8);
        BigEndianRoundTrip(len, 8);
    }
  }

  /** Whatever a client writes is read back, in every length form, masked or
      not, whatever comes after it. */
  lemma HeaderRoundTrip(fin: bool, rsv: nat, opcode: nat, form: Form, len: nat, key: Option<seq<Byte>>, t: seq<Byte>)
    requires rsv < 8 && opcode < 16 && Fits(form, len)
    requires key.Some? ==> |key.value| == 4
    ensures var b := EncodeHeader(fin, rsv, opcode, form, len, key);
            ParseHeader(b + t) == Some(Header(fin, opcode, len, |b|))
  {
    var b := EncodeHeader(fin, rsv, opcode, form, len, key);
    var e := EncodeLength(key.Some?, form, len);
    FirstByteReads(fin, rsv, opcode);
    assert b[1..1 + |e|] == e;
    LengthReads(b, key.Some?, form, len);
    HeaderIsAPrefix(b, t);
  }

  lemma LengthIsEncoded(b: seq<Byte>) returns (form: Form)
    requires ParseHeader(b).Some?
    ensures var h := ParseHeader(b).value;
            var at := h.size - (if b[1] >= 128 then 4 else 0);
            Fits(form, h.len) && at <= |b| && b[1..at] == EncodeLength(b[1] >= 128, form, h.len)
  {
    var n := b[1] % 128;
    Pow256Eight();
    if n == 126 {
      form := Long;
      BigEndianBelow(b[2..4]);
      ToBigEndianRoundTrip(b[2..4]);
      assert b[1..4] == [b[1]] + b[2..4];
    } else if n == 127 {
      form := Longest;
      BigEndianBelow(b[2..10]);
      ToBigEndianRoundTrip(b[2..10]);
      assert b[1..10] == [b[1]] + b[2..10];
    } else {
      form := Short;
      assert b[1..2] == [b[1]];
    }
  }

  /** And every header the guard reads is one a client could have written so:
      the bytes it takes for the header are that encoding. */
  lemma HeaderIsEncoded(b: seq<Byte>) returns (rsv: nat, form: Form, key: Option<seq<Byte>>)
    requires ParseHeader(b).Some?
    ensures rsv < 8 && (key.Some? ==> |key.value| == 4)
    ensures var h := ParseHeader(b).value;
            Fits(form, h.len) && b[..h.size] == EncodeHeader(h.fin, rsv, h.opcode, form, h.len, key)
  {
    var h := ParseHeader(b).value;
    form := LengthIsEncoded(b);
    rsv := b[0] % 128 / 16;
    key := if b[1] >= 128 then Some(b[h.size - 4..h.size]) else None;
    var at := h.size - (if b[1] >= 128 then 4 else 0);
    assert b[..h.size] == [b[0]] + b[1..at] + b[at..h.size];
    assert b[at..h.size] == if key.Some? then key.value else [];
    FirstByteIsEncoded(b[0]);
  }

  lemma FirstByteIsEncoded(x: Byte)
    ensures x % 128 / 16 < 8 && x == (if x >= 128 then 128 else 0) + 16 * (x % 128 / 16) + x % 16
  {}
}
