/** The byte-offset translator: turns an `{offset, length}` pair counted in
    UTF-8 bytes of the document into one counted in UTF-16 code units (the
    unit of JS string indices), remembering the last translated offset in a
    single-slot cache shared by every call. */
module ByteToOffset {
  import opened JsString
  import opened Utf8

  /** A cache entry: byte offset `byte` of some text corresponds to code
      unit offset `offset`. */
  datatype Anchor = Anchor(byte: nat, offset: nat)

  /** The cache's value when the extension is loaded. */
  const START: Anchor := Anchor(0, 0)

  /** The code-unit offset returned for byte offset `offset`: from the
      cache entry forward when the offset is not before it, otherwise from
      the start of the buffer. */
  function TranslateOffset(bytes: seq<Byte>, anchor: Anchor, offset: nat): nat
  {
    if offset >= anchor.byte then anchor.offset + DecodedLength(Slice(bytes, anchor.byte, offset))
    else DecodedLength(Slice(bytes, 0, offset))
  }

  /** The code-unit length returned for `length` bytes at byte `offset`;
      the cache plays no part in it. */
  function TranslateLength(bytes: seq<Byte>, offset: nat, length: nat): nat
  {
    DecodedLength(Slice(bytes, offset, offset + length))
  }

  /** The translator never moves further in code units than it read in
      bytes: forward from the cache entry, from the start, and for the
      length. */
  lemma TranslateBounds(bytes: seq<Byte>, anchor: Anchor, offset: nat, length: nat)
    ensures var r := TranslateOffset(bytes, anchor, offset);
      (offset >= anchor.byte ==> anchor.offset <= r <= anchor.offset + (offset - anchor.byte)) &&
      (offset < anchor.byte ==> r <= offset)
    ensures TranslateLength(bytes, offset, length) <= length
  {
    DecodedAtMostBytes(Slice(bytes, anchor.byte, offset));
    DecodedAtMostBytes(Slice(bytes, 0, offset));
    DecodedAtMostBytes(Slice(bytes, offset, offset + length));
  }

  /** The record the translator updates in place: `editInfo` for the
      translator, `currentEdit` (which also carries the replacement text)
      for the replacement handler. */
  class EditInfo {
    var offset: nat
    var length: nat
    var text: String

    constructor (offset: nat, length: nat)
      ensures this.offset == offset && this.length == length && text == []
    {
      this.offset := offset;
      this.length := length;
      text := [];
    }
  }

  /** The module-level `codeByteOffsetCache`. It is created once and never
      reset: every translation, of whatever document, reads and overwrites
      it. */
  class OffsetCache {
    var byte: nat
    var offset: nat

    constructor ()
      ensures Current() == START
    {
      byte, offset := 0, 0;
    }

    function Current(): Anchor
      reads this
    {
      Anchor(byte, offset)
    }

    /** The default export of the translator: rewrites `edit.offset` and
      `edit.length` in place, stores the new pair in the cache and hands
      back the same record. */
    method Translate(code: String, edit: EditInfo) returns (r: EditInfo)
      modifies this, edit`offset, edit`length
      ensures r == edit
      ensures edit.offset == TranslateOffset(Utf8Bytes(code), old(Current()), old(edit.offset))
      ensures edit.length == TranslateLength(Utf8Bytes(code), old(edit.offset), old(edit.length))
      ensures Current() == Anchor(old(edit.offset), edit.offset)
    {
      var codeBuffer := Utf8Bytes(code);
      var byteOffset := edit.offset;
      var byteLength := edit.length;
      if byteOffset >= byte {
        edit.offset := offset + DecodedLength(Slice(codeBuffer, byte, byteOffset));
        byte := byteOffset;
        offset := edit.offset;
      } else {
        edit.offset := DecodedLength(Slice(codeBuffer, 0, byteOffset));
        byte := byteOffset;
        offset := edit.offset;
      }
      edit.length := DecodedLength(Slice(codeBuffer, byteOffset, byteOffset + byteLength));
      r := edit;
    }
  }

  // ---------------------------------------------------------------------
  // Character boundaries and anchors

  /** `b` is the byte offset of the start of some code point of `s` (or of
      its end). */
  ghost predicate IsBoundary(s: String, b: nat)
  {
    exists k | 0 <= k <= |CodePoints(s)| :: |Encode(CodePoints(s)[..k])| == b
  }

  /** The cache entry is right for the text `s`: it sits on a character
      boundary and holds the code-unit offset of that boundary. */
  ghost predicate Anchored(s: String, a: Anchor)
  {
    IsBoundary(s, a.byte) && a.offset == DecodedLength(Slice(Utf8Bytes(s), 0, a.byte))
  }

  /** Index `j` of a JS string does not fall between the two halves of a
      surrogate pair. */
  predicate NotInsidePair(s: String, j: nat)
  {
    !(0 < j < |s| && IsHighSurrogate(s[j - 1]) && IsLowSurrogate(s[j]))
  }

  /** Reading the decoded length of a prefix that ends on a boundary. */
  lemma PrefixAtBoundary(cs: seq<Scalar>, k: nat, hi: nat)
    requires k <= |cs| && |Encode(cs[..k])| <= hi <= |Encode(cs)|
    ensures DecodedLength(Encode(cs)[..hi]) ==
      Utf16Length(cs[..k]) + DecodedLength(Encode(cs)[|Encode(cs[..k])|..hi])
  {
    var bytes := Encode(cs);
    var head := Encode(cs[..k]);
    assert cs == cs[..k] + cs[k..];
    EncodeAppend(cs[..k], cs[k..]);
    assert bytes[..hi] == head + bytes[|head|..hi];
    DecodedLengthAfterPrefix(cs[..k], bytes[|head|..hi]);
  }

  /** The fast path is exact: when the cache entry is right for the text
      being translated, the offset computed from it equals the offset
      decoded from the start of the buffer. */
  lemma FastPathAgrees(s: String, a: Anchor, offset: nat)
    requires Anchored(s, a)
    ensures TranslateOffset(Utf8Bytes(s), a, offset) == DecodedLength(Slice(Utf8Bytes(s), 0, offset))
  {
    if offset >= a.byte {
      var cs := CodePoints(s);
      var bytes := Utf8Bytes(s);
      var k :| 0 <= k <= |cs| && |Encode(cs[..k])| == a.byte;
      assert a.byte <= |bytes| by {
        assert cs == cs[..k] + cs[k..];
        EncodeAppend(cs[..k], cs[k..]);
      }
      var hi := Min(offset, |bytes|);
      assert a.offset == Utf16Length(cs[..k]) by {
        PrefixAtBoundary(cs, k, a.byte);
        assert Slice(bytes, 0, a.byte) == bytes[..a.byte];
        assert bytes[a.byte..a.byte] == [];
      }
      assert DecodedLength(bytes[..hi]) == a.offset + DecodedLength(bytes[a.byte..hi]) by {
        PrefixAtBoundary(cs, k, hi);
      }
      assert Slice(bytes, 0, offset) == bytes[..hi];
      assert Slice(bytes, a.byte, offset) == bytes[a.byte..hi];
    }
  }

  /** Translating a boundary offset with a right cache entry leaves a right
      cache entry behind, so a stream of replacements on one document keeps
      every translation exact, in whatever order the offsets come. */
  lemma TranslateKeepsAnchor(s: String, a: Anchor, offset: nat)
    requires Anchored(s, a) && IsBoundary(s, offset)
    ensures Anchored(s, Anchor(offset, TranslateOffset(Utf8Bytes(s), a, offset)))
  {
    FastPathAgrees(s, a, offset);
  }

  /** The cache's initial value is right for every text. */
  lemma StartIsAnchored(s: String)
    ensures Anchored(s, START)
  {
    assert CodePoints(s)[..0] == [];
    assert |Encode(CodePoints(s)[..0])| == 0;
  }

  /** The number of code units the first code point of a non-empty JS
      string takes. */
  function LeadUnits(s: String): (n: nat)
    requires s != []
    ensures 1 <= n <= |s|
  {
    if |s| >= 2 && IsHighSurrogate(s[0]) && IsLowSurrogate(s[1]) then 2 else 1
  }

  /** The first code point of a JS string can be read off on its own. */
  lemma CodePointsLead(s: String)
    requires s != []
    ensures CodePoints(s) == CodePoints(s[..LeadUnits(s)]) + CodePoints(s[LeadUnits(s)..])
  {
    var n := LeadUnits(s);
    var t := s[..n];
    assert t[0] == s[0];
    if n == 2 {
      assert t[1] == s[1] && t[2..] == [];
    } else {
      assert t[1..] == [];
    }
  }

  /** Appending text that does not complete a surrogate pair keeps the first
      code point of a non-empty string. */
  lemma LeadOfAppend(a: String, b: String)
    requires a != [] && !(b != [] && IsHighSurrogate(a[|a| - 1]) && IsLowSurrogate(b[0]))
    ensures LeadUnits(a + b) == LeadUnits(a)
    ensures (a + b)[..LeadUnits(a)] == a[..LeadUnits(a)]
  {
    var ab := a + b;
    assert ab[0] == a[0];
    if |a| >= 2 {
      assert ab[1] == a[1];
    } else if b != [] {
      assert ab[1] == b[0];
    }
  }

  /** The first code point of `a + b` is that of `a`, when `b` does not
      complete a surrogate pair `a` ends with. */
  lemma AppendHead(a: String, b: String)
    requires a != [] && !(b != [] && IsHighSurrogate(a[|a| - 1]) && IsLowSurrogate(b[0]))
    ensures CodePoints(a + b) == CodePoints(a[..LeadUnits(a)]) + CodePoints(a[LeadUnits(a)..] + b)
  {
    var ab, n := a + b, LeadUnits(a);
    assert LeadUnits(ab) == n && ab[..n] == a[..n] by {
      LeadOfAppend(a, b);
    }
    assert ab[n..] == a[n..] + b;
    assert CodePoints(ab) == CodePoints(ab[..n]) + CodePoints(ab[n..]) by {
      CodePointsLead(ab);
    }
  }

  /** What is left of `a` after its first code point ends as `a` does. */
  lemma RestKeepsSeam(a: String, b: String)
    requires a != [] && !(b != [] && IsHighSurrogate(a[|a| - 1]) && IsLowSurrogate(b[0]))
    ensures var rest := a[LeadUnits(a)..];
      !(rest != [] && b != [] && IsHighSurrogate(rest[|rest| - 1]) && IsLowSurrogate(b[0]))
  {
    var rest := a[LeadUnits(a)..];
    if rest != [] {
      assert rest[|rest| - 1] == a[|a| - 1];
    }
  }

  /** A JS string splits into the code points of its two halves, unless the
      split separates a surrogate pair. */
  lemma {:induction false} CodePointsAppend(a: String, b: String)
    requires !(a != [] && b != [] && IsHighSurrogate(a[|a| - 1]) && IsLowSurrogate(b[0]))
    ensures CodePoints(a + b) == CodePoints(a) + CodePoints(b)
    decreases |a|
  {
    if a == [] {
      assert a + b == b;
    } else {
      var n := LeadUnits(a);
      AppendHead(a, b);
      RestKeepsSeam(a, b);
      CodePointsAppend(a[n..], b);
      CodePointsLead(a);
    }
  }

  /** Cutting a JS string outside a surrogate pair cuts its code points. */
  lemma CodePointsSplit(s: String, j: nat)
    requires j <= |s| && NotInsidePair(s, j)
    ensures CodePoints(s) == CodePoints(s[..j]) + CodePoints(s[j..])
  {
    var a, b := s[..j], s[j..];
    assert s == a + b;
    if a != [] && b != [] {
      assert a[|a| - 1] == s[j - 1] && b[0] == s[j];
    }
    CodePointsAppend(a, b);
  }

  /** The same cut splits the UTF-8 buffer of the string. */
  lemma TwoWaySplit(s: String, j: nat)
    requires j <= |s| && NotInsidePair(s, j)
    ensures Utf8Bytes(s) == Utf8Bytes(s[..j]) + Utf8Bytes(s[j..])
  {
    CodePointsSplit(s, j);
    EncodeAppend(CodePoints(s[..j]), CodePoints(s[j..]));
  }

  /** Cutting the prefix `s[..end]` at `start` gives the same pieces as
      cutting `s`, and the cut is still outside a surrogate pair. */
  lemma PrefixCut(s: String, start: nat, end: nat)
    requires start <= end <= |s| && NotInsidePair(s, start)
    ensures s[..end][..start] == s[..start] && s[..end][start..] == s[start..end]
    ensures NotInsidePair(s[..end], start)
  {
    var prefix := s[..end];
    if 0 < start < |prefix| {
      assert prefix[start - 1] == s[start - 1] && prefix[start] == s[start];
    }
  }

  /** The UTF-8 buffer of `s` is the buffers of its three pieces, laid end
      to end, when neither cut is inside a surrogate pair. */
  lemma ThreeWaySplit(s: String, start: nat, end: nat)
    requires start <= end <= |s| && NotInsidePair(s, start) && NotInsidePair(s, end)
    ensures Utf8Bytes(s) == Utf8Bytes(s[..start]) + Utf8Bytes(s[start..end]) + Utf8Bytes(s[end..])
  {
    PrefixCut(s, start, end);
    TwoWaySplit(s, end);
    TwoWaySplit(s[..end], start);
  }

  /** Round trip with the driver's conversion: the byte offset of a JS index
      `start` (`Buffer.byteLength` of the text before it) translates back to
      `start`, and the byte length of `text[start..end)` translates back to
      `end - start`, whenever neither index cuts a surrogate pair and the
      cache entry is right for the text. */
  lemma RoundTrip(s: String, a: Anchor, start: nat, end: nat)
    requires start <= end <= |s| && NotInsidePair(s, start) && NotInsidePair(s, end)
    requires Anchored(s, a)
    ensures TranslateOffset(Utf8Bytes(s), a, ByteLength(s[..start])) == start
    ensures TranslateLength(Utf8Bytes(s), ByteLength(s[..start]), ByteLength(s[start..end])) == end - start
  {
    RoundTripOffset(s, a, start, end);
    RoundTripLength(s, start, end);
  }

  lemma RoundTripOffset(s: String, a: Anchor, start: nat, end: nat)
    requires start <= end <= |s| && NotInsidePair(s, start) && NotInsidePair(s, end)
    requires Anchored(s, a)
    ensures TranslateOffset(Utf8Bytes(s), a, ByteLength(s[..start])) == start
  {
    CodePointsSplit(s, start);
    TwoWaySplit(s, start);
    var p := s[..start];
    var cp := CodePoints(p);
    var bytes := Utf8Bytes(s);
    var o := |Encode(cp)|;
    assert Slice(bytes, 0, o) == Encode(cp) + [];
    DecodedLengthAfterPrefix(cp, []);
    CodePointsWidth(p);
    assert IsBoundary(s, o) by {
      assert CodePoints(s)[..|cp|] == cp;
    }
    FastPathAgrees(s, a, o);
  }

  lemma RoundTripLength(s: String, start: nat, end: nat)
    requires start <= end <= |s| && NotInsidePair(s, start) && NotInsidePair(s, end)
    ensures TranslateLength(Utf8Bytes(s), ByteLength(s[..start]), ByteLength(s[start..end])) == end - start
  {
    ThreeWaySplit(s, start, end);
    var m := s[start..end];
    var bytes := Utf8Bytes(s);
    var o, l := ByteLength(s[..start]), ByteLength(m);
    assert Slice(bytes, o, o + l) == Utf8Bytes(m);
    DecodedLengthOfBuffer(m);
  }

  /** On ASCII text bytes and code units coincide: the translator gives the
      offset and length back unchanged, and a cache entry whose two halves
      agree stays that way. */
  lemma AsciiIsIdentity(s: String, a: Anchor, offset: nat, length: nat)
    requires IsAscii(s) && a.byte == a.offset && offset + length <= |s|
    ensures TranslateOffset(Utf8Bytes(s), a, offset) == offset
    ensures TranslateLength(Utf8Bytes(s), offset, length) == length
  {
    AsciiBytes(s);
    var bytes := Utf8Bytes(s);
    forall i, j | 0 <= i <= j <= |s|
      ensures DecodedLength(bytes[i..j]) == j - i
    {
      assert forall k | 0 <= k < j - i :: bytes[i..j][k] == s[i + k];
      AsciiDecodedLength(bytes[i..j]);
    }
    assert bytes[0..offset] == Slice(bytes, 0, offset);
    assert bytes[offset..offset + length] == Slice(bytes, offset, offset + length);
    if offset >= a.byte {
      assert bytes[a.byte..offset] == Slice(bytes, a.byte, offset);
    }
  }

  /** "aé b" is the five bytes 61 C3 A9 20 62 in UTF-8. */
  lemma ExampleEncoding()
    ensures Utf8Bytes([0x61, 0xE9, 0x20, 0x62]) == [0x61, 0xC3, 0xA9, 0x20, 0x62]
  {
    var s: String := [0x61, 0xE9, 0x20, 0x62];
    var cs: seq<Scalar> := [0x61, 0xE9, 0x20, 0x62];
    assert CodePoints(s) == cs by {
      assert s[1..][1..][1..][1..] == [];
    }
    assert Encode(cs) == [0x61, 0xC3, 0xA9, 0x20, 0x62] by {
      assert EncodeScalar(0xE9) == [0xC3, 0xA9];
      assert cs[1..][1..][1..][1..] == [];
    }
  }

  /** Text mixing one- and two-byte characters: in "aé b" (bytes 61 C3 A9
      20 62) byte offset 3 is code unit 2, and byte offset 4, translated
      next from the cache entry the first call left, is code unit 3. */
  lemma MixedWidthExample()
    ensures var s: String := [0x61, 0xE9, 0x20, 0x62];
      TranslateOffset(Utf8Bytes(s), START, 3) == 2 &&
      TranslateOffset(Utf8Bytes(s), Anchor(3, 2), 4) == 3
  {
    var bytes: seq<Byte> := [0x61, 0xC3, 0xA9, 0x20, 0x62];
    ExampleEncoding();
    assert DecodedLength(Slice(bytes, 0, 3)) == 2 by {
      var head: seq<Byte> := [0x61, 0xC3, 0xA9];
      assert Slice(bytes, 0, 3) == head;
      assert Run(Idle, head[1..]) == Emitted(1, Idle) by {
        assert head[1..][1..] == [0xA9];
        assert Run(Partial(1, 1, 0x80, 0xBF), [0xA9]) == Emitted(1, Idle);
      }
    }
    assert DecodedLength(Slice(bytes, 3, 4)) == 1 by {
      var space: seq<Byte> := [0x20];
      assert Slice(bytes, 3, 4) == space && space[1..] == [];
    }
  }

  /** The cache is not keyed by document. After one call on the text "a"
      leaves the entry (1, 1), translating byte 2 of the text "éa" (bytes
      C3 A9 61) starts from that entry, decodes the lone continuation byte
      A9 as U+FFFD and returns code unit 2, after the "a"; the byte lies
      between "é" and "a", at code unit 1, which is what decoding the
      document from its start gives. */
  lemma StaleAnchorCounterexample()
    ensures var first: String := [0x61];
      var second: String := [0xE9, 0x61];
      TranslateOffset(Utf8Bytes(first), START, 1) == 1 &&
      TranslateOffset(Utf8Bytes(second), Anchor(1, 1), 2) == 2 &&
      TranslateOffset(Utf8Bytes(second), START, 2) == 1 && |second| == 2
  {
    var first: String := [0x61];
    var second: String := [0xE9, 0x61];
    assert Utf8Bytes(first) == [0x61];
    var bytes: seq<Byte> := [0xC3, 0xA9, 0x61];
    assert Utf8Bytes(second) == bytes by {
      assert CodePoints(second) == [0xE9, 0x61] by {
        assert second[1..][1..] == [];
      }
      assert EncodeScalar(0xE9) == [0xC3, 0xA9];
    }
    assert DecodedLength(Slice(bytes, 1, 2)) == 1 by {
      var lone: seq<Byte> := [0xA9];
      assert Slice(bytes, 1, 2) == lone && lone[1..] == [];
    }
    assert DecodedLength(Slice(bytes, 0, 2)) == 1 by {
      var head: seq<Byte> := [0xC3, 0xA9];
      assert Slice(bytes, 0, 2) == head && head[1..][1..] == [];
    }
  }
}
