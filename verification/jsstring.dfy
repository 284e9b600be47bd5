/** JavaScript strings and the few String.prototype operations the formatter
    driver relies on. A JS string is a sequence of UTF-16 code units; it may
    hold lone surrogates, which Dafny's `char` cannot, so units are integers. */
module JsString {

  /** A UTF-16 code unit. */
  type Unit = u: int | 0 <= u < 0x1_0000

  /** A JavaScript string value. */
  type String = seq<Unit>

  datatype Option<T> = None | Some(value: T)

  predicate IsHighSurrogate(u: Unit) { 0xD800 <= u < 0xDC00 }

  predicate IsLowSurrogate(u: Unit) { 0xDC00 <= u < 0xE000 }

  /** JS truthiness of an optional string: `undefined` and `""` are falsy. */
  predicate Truthy(s: Option<String>) { s.Some? && s.value != [] }

  function Min(a: int, b: int): int { if a <= b then a else b }

  function Max(a: int, b: int): int { if a <= b then b else a }

  function Clamp(x: int, lo: int, hi: int): int
    requires lo <= hi
  {
    if x < lo then lo else if hi < x then hi else x
  }

  /** `s.substr(start, length)`: a negative start counts from the end, the
      length is clipped to what is left. */
  function Substr(s: String, start: int, length: int): (r: String)
    ensures start >= 0 && length >= 0 && start + length <= |s| ==> r == s[start..start + length]
    ensures |r| <= |s|
  {
    var from := if start < 0 then Max(|s| + start, 0) else Min(start, |s|);
    var count := Clamp(length, 0, |s| - from);
    s[from..from + count]
  }

  /** `s.substring(a, b)`: both arguments are clamped to [0, |s|] and
      swapped when the first is the larger one; the second is an END index. */
  function Substring(s: String, a: int, b: int): (r: String)
    ensures 0 <= a <= b <= |s| ==> r == s[a..b]
    ensures 0 <= b <= a <= |s| ==> r == s[b..a]
    ensures |r| <= |s|
  {
    var x := Clamp(a, 0, |s|);
    var y := Clamp(b, 0, |s|);
    s[Min(x, y)..Max(x, y)]
  }

  /** `haystack.includes(needle)`: a substring test. The empty string and
      the haystack itself are always included; nothing longer is. */
  predicate Includes(haystack: String, needle: String)
    ensures needle == [] ==> Includes(haystack, needle)
    ensures needle == haystack ==> Includes(haystack, needle)
    ensures Includes(haystack, needle) ==> |needle| <= |haystack|
  {
    assert needle == [] || needle == haystack ==> OccursAt(haystack, needle, 0);
    exists i | 0 <= i <= |haystack| - |needle| :: OccursAt(haystack, needle, i)
  }

  predicate OccursAt(haystack: String, needle: String, i: int)
  {
    0 <= i <= |haystack| - |needle| && haystack[i..i + |needle|] == needle
  }

  /** The code units `String.prototype.trim` removes: WhiteSpace and
      LineTerminator of ECMA-262 (TAB, VT, FF, SP, NBSP, ZWNBSP, the Zs
      category, LF, CR, LS, PS). */
  predicate IsWhitespace(u: Unit)
  {
    u == 0x09 || u == 0x0A || u == 0x0B || u == 0x0C || u == 0x0D || u == 0x20 ||
    u == 0xA0 || u == 0x1680 || (0x2000 <= u <= 0x200A) || u == 0x2028 ||
    u == 0x2029 || u == 0x202F || u == 0x205F || u == 0x3000 || u == 0xFEFF
  }

  predicate AllWhitespace(s: String)
  {
    forall k | 0 <= k < |s| :: IsWhitespace(s[k])
  }

  /** Drops leading whitespace: the result is a suffix of `s`, everything
      dropped is whitespace, and the result does not start with whitespace. */
  function TrimStart(s: String): (r: String)
    ensures |r| <= |s| && r == s[|s| - |r|..]
    ensures AllWhitespace(s[..|s| - |r|])
    ensures r != [] ==> !IsWhitespace(r[0])
  {
    if s != [] && IsWhitespace(s[0]) then
      var r := TrimStart(s[1..]);
      assert s[..|s| - |r|] == [s[0]] + s[1..][..|s| - 1 - |r|];
      assert s[1..][|s| - 1 - |r|..] == s[|s| - |r|..];
      r
    else s
  }

  /** Drops trailing whitespace: the result is a prefix of `s`, everything
      dropped is whitespace, and the result does not end with whitespace. */
  function TrimEnd(s: String): (r: String)
    ensures |r| <= |s| && r == s[..|r|]
    ensures AllWhitespace(s[|r|..])
    ensures r != [] ==> !IsWhitespace(r[|r| - 1])
  {
    if s != [] && IsWhitespace(s[|s| - 1]) then TrimEnd(s[..|s| - 1]) else s
  }

  /** `s.trim()`: no whitespace is left at either end. */
  function Trim(s: String): (r: String)
    ensures |r| <= |s|
    ensures r != [] ==> !IsWhitespace(r[0]) && !IsWhitespace(r[|r| - 1])
  {
    var t := TrimStart(s);
    var r := TrimEnd(t);
    assert r != [] ==> r[0] == t[0];
    r
  }

  /** What `trim` keeps: a contiguous piece of `s` with only whitespace cut
      on either side, no whitespace at either end, and empty exactly when
      `s` is all whitespace. */
  lemma TrimSpec(s: String)
    ensures exists i, j ::
      0 <= i <= j <= |s| && Trim(s) == s[i..j] && AllWhitespace(s[..i]) && AllWhitespace(s[j..])
    ensures Trim(s) == [] <==> AllWhitespace(s)
  {
    var t := TrimStart(s);
    var r := TrimEnd(t);
    var i := |s| - |t|;
    var j := i + |r|;
    assert r == s[i..j] by {
      assert t == s[i..] && r == t[..|r|];
      assert s[i..][..|r|] == s[i..j];
    }
    assert AllWhitespace(s[j..]) by {
      assert s[j..] == t[|r|..];
    }
    TrimEmptyIffBlank(s);
  }

  lemma TrimEmptyIffBlank(s: String)
    ensures Trim(s) == [] <==> AllWhitespace(s)
  {
    var t := TrimStart(s);
    var i := |s| - |t|;
    if t == [] {
      assert s[..i] == s;
    } else {
      assert t[0] == s[i];
    }
  }
}
