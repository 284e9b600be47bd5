/** UTF-8 as Node's `Buffer` sees it.

    Encoding (`new Buffer(s)`, `Buffer.byteLength(s, "utf8")`) turns a JS
    string into its code points, a lone surrogate becoming U+FFFD, and writes
    each code point in the one-to-four byte form of RFC 3629, section 3.

    Decoding (`buf.toString("utf8")`) follows the UTF-8 decoder of the WHATWG
    Encoding Standard: every ill-formed maximal subpart becomes one U+FFFD.
    Only the `.length` of the decoded string matters to the formatter, so the
    decoder here counts the UTF-16 code units it would produce: one per code
    point below U+10000 or per U+FFFD, two per supplementary code point
    (RFC 2781, section 2.1). */
module Utf8 {
  import opened JsString

  type Byte = b: int | 0 <= b < 0x100

  /** A Unicode scalar value. */
  type Scalar = c: int | 0 <= c < 0x11_0000 && !(0xD800 <= c < 0xE000)

  const REPLACEMENT_CHARACTER: Scalar := 0xFFFD

  // ---------------------------------------------------------------------
  // Encoding

  /** The code points of a JS string: a high surrogate followed by a low
      surrogate is one supplementary code point, any other surrogate is
      replaced by U+FFFD. */
  function CodePoints(s: String): seq<Scalar>
  {
    if s == [] then []
    else if |s| >= 2 && IsHighSurrogate(s[0]) && IsLowSurrogate(s[1]) then
      [0x1_0000 + (s[0] - 0xD800) * 0x400 + (s[1] - 0xDC00)] + CodePoints(s[2..])
    else if IsHighSurrogate(s[0]) || IsLowSurrogate(s[0]) then
      [REPLACEMENT_CHARACTER] + CodePoints(s[1..])
    else
      [s[0]] + CodePoints(s[1..])
  }

  /** The number of UTF-16 code units that represent a code point. */
  function Width(c: Scalar): nat
  {
    if c < 0x1_0000 then 1 else 2
  }

  /** The `.length` of the JS string holding the code points `cs`. */
  function Utf16Length(cs: seq<Scalar>): nat
  {
    if cs == [] then 0 else Width(cs[0]) + Utf16Length(cs[1..])
  }

  /** The RFC 3629 encoding of one code point. */
  function EncodeScalar(c: Scalar): (r: seq<Byte>)
    ensures 1 <= |r| <= 4
  {
    if c < 0x80 then [c]
    else if c < 0x800 then [0xC0 + c / 0x40, 0x80 + c % 0x40]
    else if c < 0x1_0000 then [0xE0 + c / 0x1000, 0x80 + (c / 0x40) % 0x40, 0x80 + c % 0x40]
    else [0xF0 + c / 0x4_0000, 0x80 + (c / 0x1000) % 0x40, 0x80 + (c / 0x40) % 0x40, 0x80 + c % 0x40]
  }

  function Encode(cs: seq<Scalar>): seq<Byte>
  {
    if cs == [] then [] else EncodeScalar(cs[0]) + Encode(cs[1..])
  }

  /** `new Buffer(s)`: the UTF-8 bytes of a JS string. Every code unit
      takes one to three bytes (a surrogate pair takes four for its two
      units, a lone surrogate the three of U+FFFD). */
  function Utf8Bytes(s: String): (r: seq<Byte>)
    ensures |s| <= |r| <= 3 * |s|
  {
    EncodedSize(s);
    Encode(CodePoints(s))
  }

  /** The size bounds of `Utf8Bytes`, following `CodePoints` unit by unit. */
  lemma {:induction false} EncodedSize(s: String)
    ensures |s| <= |Encode(CodePoints(s))| <= 3 * |s|
    decreases |s|
  {
    if s == [] {
    } else if |s| >= 2 && IsHighSurrogate(s[0]) && IsLowSurrogate(s[1]) {
      var c := CodePoints(s)[0];
      assert CodePoints(s) == [c] + CodePoints(s[2..]) && c >= 0x1_0000;
      assert |EncodeScalar(c)| == 4;
      EncodedSize(s[2..]);
    } else {
      var c := CodePoints(s)[0];
      assert CodePoints(s) == [c] + CodePoints(s[1..]) && c < 0x1_0000;
      assert |EncodeScalar(c)| <= 3;
      EncodedSize(s[1..]);
    }
  }

  /** `Buffer.byteLength(s, "utf8")`: one to three bytes per code unit. */
  function ByteLength(s: String): (n: nat)
    ensures |s| <= n <= 3 * |s|
    ensures s == [] <==> n == 0
  {
    |Utf8Bytes(s)|
  }

  // ---------------------------------------------------------------------
  // Decoding

  /** Decoder state: idle, or inside a multi-byte sequence that still needs
      `remaining` continuation bytes, the next of which must lie in
      [lower, upper]; `width` is what the completed code point will add. */
  datatype Decoder = Idle | Partial(remaining: nat, width: nat, lower: Byte, upper: Byte)

  datatype Emitted = Emitted(units: nat, state: Decoder)

  /** How much of the output is still owed for a pending sequence: the
      one U+FFFD it gives if the input stops here. */
  function Owed(d: Decoder): nat
  {
    if d.Partial? then 1 else 0
  }

  /** A state the decoder can reach: a pending code point is one or two
      code units wide. */
  predicate Reachable(d: Decoder)
  {
    d.Partial? ==> 1 <= d.width <= 2
  }

  /** A byte seen in the idle state: an ASCII byte is one code unit, a
      valid lead byte opens a sequence, any other byte is one U+FFFD. */
  function Lead(b: Byte): (e: Emitted)
    ensures b < 0x80 ==> e == Emitted(1, Idle)
    ensures e.state.Partial? <==> 0xC2 <= b <= 0xF4
    ensures e.state.Partial? ==> e.units == 0 && 1 <= e.state.remaining <= 3
    ensures e.units + Owed(e.state) == 1
    ensures Reachable(e.state)
  {
    if b < 0x80 then Emitted(1, Idle)
    else if 0xC2 <= b <= 0xDF then Emitted(0, Partial(1, 1, 0x80, 0xBF))
    else if 0xE0 <= b <= 0xEF then
      Emitted(0, Partial(2, 1, if b == 0xE0 then 0xA0 else 0x80, if b == 0xED then 0x9F else 0xBF))
    else if 0xF0 <= b <= 0xF4 then
      Emitted(0, Partial(3, 2, if b == 0xF0 then 0x90 else 0x80, if b == 0xF4 then 0x8F else 0xBF))
    else Emitted(1, Idle)
  }

  /** One byte of input. A byte that cannot continue the pending sequence
      ends it with one U+FFFD and is then read again from the idle state. */
  function Step(d: Decoder, b: Byte): (e: Emitted)
    ensures Reachable(d) ==> Reachable(e.state) && e.units + Owed(e.state) <= 1 + Owed(d)
    ensures d.Partial? && d.lower <= b <= d.upper && d.remaining <= 1 ==> e == Emitted(d.width, Idle)
  {
    match d
    case Idle => Lead(b)
    case Partial(remaining, width, lower, upper) =>
      if b < lower || upper < b then
        var again := Lead(b);
        Emitted(1 + again.units, again.state)
      else if remaining <= 1 then Emitted(width, Idle)
      else Emitted(0, Partial(remaining - 1, width, 0x80, 0xBF))
  }

  /** The decoder run over a byte sequence, as a left fold of `Step`. */
  function Run(d: Decoder, bs: seq<Byte>): Emitted
    decreases |bs|
  {
    if bs == [] then Emitted(0, d)
    else
      var first := Step(d, bs[0]);
      var rest := Run(first.state, bs[1..]);
      Emitted(first.units + rest.units, rest.state)
  }

  /** `bs.toString("utf8").length`: a sequence cut short at the end of the
      input adds one more U+FFFD. */
  function DecodedLength(bs: seq<Byte>): nat
  {
    var e := Run(Idle, bs);
    if e.state.Partial? then e.units + 1 else e.units
  }

  /** Every byte the decoder reads accounts for at most one code unit,
      counting what a pending sequence still owes. */
  lemma {:induction false} RunBound(d: Decoder, bs: seq<Byte>)
    requires Reachable(d)
    ensures Reachable(Run(d, bs).state)
    ensures Run(d, bs).units + Owed(Run(d, bs).state) <= |bs| + Owed(d)
    decreases |bs|
  {
    if bs != [] {
      RunBound(Step(d, bs[0]).state, bs[1..]);
    }
  }

  /** A buffer never decodes to more code units than it has bytes. */
  lemma DecodedAtMostBytes(bs: seq<Byte>)
    ensures DecodedLength(bs) <= |bs|
  {
    RunBound(Idle, bs);
  }

  /** `buf.slice(start, end)`: both ends are clamped to the buffer, and an
      end before the start gives an empty slice. */
  function Slice(bs: seq<Byte>, start: nat, end: nat): (r: seq<Byte>)
    ensures start <= end <= |bs| ==> r == bs[start..end]
    ensures end <= start ==> r == []
  {
    var lo := Min(start, |bs|);
    var hi := Min(end, |bs|);
    if hi <= lo then [] else bs[lo..hi]
  }

  // ---------------------------------------------------------------------
  // Properties

  /** Decoding is a left fold: decoding `x + y` decodes `x`, then `y` from
      the state `x` left behind. */
  lemma {:induction false} RunAppend(d: Decoder, x: seq<Byte>, y: seq<Byte>)
    ensures Run(d, x + y) ==
      Emitted(Run(d, x).units + Run(Run(d, x).state, y).units, Run(Run(d, x).state, y).state)
    decreases |x|
  {
    if x == [] {
      assert x + y == y;
    } else {
      assert (x + y)[0] == x[0];
      assert (x + y)[1..] == x[1..] + y;
      RunAppend(Step(d, x[0]).state, x[1..], y);
    }
  }

  /** Every encoded code point decodes back to exactly its UTF-16 width,
      leaving the decoder idle. */
  lemma DecodeScalar(c: Scalar)
    ensures Run(Idle, EncodeScalar(c)) == Emitted(Width(c), Idle)
  {
    var e := EncodeScalar(c);
    if c < 0x80 {
      assert Run(Idle, e[1..]) == Emitted(0, Idle);
    } else if c < 0x800 {
      DecodeTwoBytes(c);
    } else if c < 0x1_0000 {
      DecodeThreeBytes(c);
    } else {
      DecodeFourBytes(c);
    }
  }

  /** A two-byte sequence decodes to one code unit. */
  lemma DecodeTwoBytes(c: Scalar)
    requires 0x80 <= c < 0x800
    ensures Run(Idle, EncodeScalar(c)) == Emitted(1, Idle)
  {
    var e := EncodeScalar(c);
    var d1 := Step(Idle, e[0]).state;
    assert d1 == Partial(1, 1, 0x80, 0xBF);
    assert Run(d1, e[1..]) == Emitted(1, Idle) by {
      assert Run(Idle, e[2..]) == Emitted(0, Idle);
    }
  }

  /** A three-byte sequence decodes to one code unit. */
  lemma DecodeThreeBytes(c: Scalar)
    requires 0x800 <= c < 0x1_0000
    ensures Run(Idle, EncodeScalar(c)) == Emitted(1, Idle)
  {
    var e := EncodeScalar(c);
    var d1 := Step(Idle, e[0]).state;
    assert d1.Partial? && d1.remaining == 2 && d1.width == 1;
    assert d1.lower <= e[1] <= d1.upper;
    var d2 := Step(d1, e[1]).state;
    assert d2 == Partial(1, 1, 0x80, 0xBF);
    assert Run(d2, e[2..]) == Emitted(1, Idle) by {
      assert Run(Idle, e[3..]) == Emitted(0, Idle);
    }
    assert Run(d1, e[1..]) == Emitted(1, Idle) by {
      assert e[1..][1..] == e[2..];
    }
  }

  /** A four-byte sequence decodes to a surrogate pair. */
  lemma DecodeFourBytes(c: Scalar)
    requires 0x1_0000 <= c
    ensures Run(Idle, EncodeScalar(c)) == Emitted(2, Idle)
  {
    var e := EncodeScalar(c);
    var d1 := Step(Idle, e[0]).state;
    assert d1.Partial? && d1.remaining == 3 && d1.width == 2;
    assert d1.lower <= e[1] <= d1.upper;
    var d2 := Step(d1, e[1]).state;
    assert d2 == Partial(2, 2, 0x80, 0xBF);
    var d3 := Step(d2, e[2]).state;
    assert d3 == Partial(1, 2, 0x80, 0xBF);
    assert Run(d3, e[3..]) == Emitted(2, Idle) by {
      assert Run(Idle, e[4..]) == Emitted(0, Idle);
    }
    assert Run(d2, e[2..]) == Emitted(2, Idle) by {
      assert e[2..][1..] == e[3..];
    }
    assert Run(d1, e[1..]) == Emitted(2, Idle) by {
      assert e[1..][1..] == e[2..];
    }
  }

  /** Decoding the encoding of a code point sequence gives back its UTF-16
      length and leaves the decoder idle. */
  lemma {:induction false} DecodeEncode(cs: seq<Scalar>)
    ensures Run(Idle, Encode(cs)) == Emitted(Utf16Length(cs), Idle)
  {
    if cs != [] {
      DecodeScalar(cs[0]);
      DecodeEncode(cs[1..]);
      RunAppend(Idle, EncodeScalar(cs[0]), Encode(cs[1..]));
    }
  }

  lemma {:induction false} EncodeAppend(a: seq<Scalar>, b: seq<Scalar>)
    ensures Encode(a + b) == Encode(a) + Encode(b)
  {
    if a == [] {
      assert a + b == b;
    } else {
      assert (a + b)[0] == a[0];
      assert (a + b)[1..] == a[1..] + b;
      EncodeAppend(a[1..], b);
    }
  }

  lemma {:induction false} Utf16LengthAppend(a: seq<Scalar>, b: seq<Scalar>)
    ensures Utf16Length(a + b) == Utf16Length(a) + Utf16Length(b)
  {
    if a == [] {
      assert a + b == b;
    } else {
      assert (a + b)[0] == a[0];
      assert (a + b)[1..] == a[1..] + b;
      Utf16LengthAppend(a[1..], b);
    }
  }

  /** Every JS string has as many UTF-16 code units as its code points
      need: a surrogate pair is one code point of width two, a lone
      surrogate becomes U+FFFD of width one. */
  lemma {:induction false} CodePointsWidth(s: String)
    ensures Utf16Length(CodePoints(s)) == |s|
  {
    if s != [] {
      if |s| >= 2 && IsHighSurrogate(s[0]) && IsLowSurrogate(s[1]) {
        CodePointsWidth(s[2..]);
      } else {
        CodePointsWidth(s[1..]);
      }
    }
  }

  /** Round trip: decoding the whole UTF-8 buffer of a JS string gives a
      string of the same `.length`, lone surrogates included. */
  lemma DecodedLengthOfBuffer(s: String)
    ensures DecodedLength(Utf8Bytes(s)) == |s|
  {
    DecodeEncode(CodePoints(s));
    CodePointsWidth(s);
  }

  /** Decoding a buffer that starts with complete code points: the prefix
      contributes its UTF-16 length and the rest is decoded from scratch. */
  lemma DecodedLengthAfterPrefix(cs: seq<Scalar>, rest: seq<Byte>)
    ensures DecodedLength(Encode(cs) + rest) == Utf16Length(cs) + DecodedLength(rest)
  {
    DecodeEncode(cs);
    RunAppend(Idle, Encode(cs), rest);
  }

  predicate IsAscii(s: String)
  {
    forall i | 0 <= i < |s| :: s[i] < 0x80
  }

  /** ASCII text is its own UTF-8 encoding. */
  lemma {:induction false} AsciiBytes(s: String)
    requires IsAscii(s)
    ensures Utf8Bytes(s) == s
  {
    if s != [] {
      assert IsAscii(s[1..]) by {
        forall i | 0 <= i < |s[1..]| ensures s[1..][i] < 0x80 { assert s[1..][i] == s[i + 1]; }
      }
      AsciiBytes(s[1..]);
    }
  }

  /** Every ASCII byte decodes to one code unit. */
  lemma {:induction false} AsciiDecodedLength(bs: seq<Byte>)
    requires forall i | 0 <= i < |bs| :: bs[i] < 0x80
    ensures Run(Idle, bs) == Emitted(|bs|, Idle)
    ensures DecodedLength(bs) == |bs|
  {
    if bs != [] {
      AsciiDecodedLength(bs[1..]);
    }
  }
}
