/** The string operations the services rely on: `String.trim`, the blank test used
    to pick a query, ASCII case folding for the name filter, and the decimal and
    list renderings that Java string concatenation produces for ids. */
module Text {

  /** `String.trim` strips every leading and trailing character whose code is at
      most U+0020. */
  predicate IsTrimmed(c: char) {
    c <= ' '
  }

  predicate AllTrimmed(s: string) {
    forall i :: 0 <= i < |s| ==> IsTrimmed(s[i])
  }

  /** Neither end of `s` holds a character that `trim` would strip. */
  predicate Edged(s: string) {
    s == [] || (!IsTrimmed(s[0]) && !IsTrimmed(s[|s| - 1]))
  }

  function TrimStart(s: string): (r: string)
    ensures |r| <= |s| && r == s[|s| - |r|..]
    ensures AllTrimmed(s[..|s| - |r|])
    ensures r == [] || !IsTrimmed(r[0])
  {
    if s != [] && IsTrimmed(s[0]) then TrimStart(s[1..]) else s
  }

  function TrimEnd(s: string): (r: string)
    ensures |r| <= |s| && r == s[..|r|]
    ensures AllTrimmed(s[|r|..])
    ensures r == [] || !IsTrimmed(r[|r| - 1])
  {
    if s != [] && IsTrimmed(s[|s| - 1]) then TrimEnd(s[..|s| - 1]) else s
  }

  /** Java's `String.trim`. */
  function Trim(s: string): (r: string)
    ensures Edged(r)
    ensures r == [] <==> AllTrimmed(s)
  {
    var t := TrimStart(s);
    var r := TrimEnd(t);
    var k := |s| - |t|;
    assert r == [] ==> AllTrimmed(s) by {
      if r == [] {
        assert t == [] by {
          if t != [] {
            assert false;
          }
        }
        assert s == s[..k];
      }
    }
    assert r != [] ==> !IsTrimmed(r[0]) && s[k] == r[0] by {
      if r != [] { assert r[0] == t[0] == s[k]; }
    }
    r
  }

  lemma {:induction false} TrimStartPadded(pre: string, r: string)
    requires AllTrimmed(pre)
    requires r == [] || !IsTrimmed(r[0])
    ensures TrimStart(pre + r) == r
    decreases |pre|
  {
    if pre == [] {
      assert pre + r == r;
    } else {
      assert (pre + r)[1..] == pre[1..] + r;
      TrimStartPadded(pre[1..], r);
    }
  }

  lemma {:induction false} TrimEndPadded(r: string, post: string)
    requires AllTrimmed(post)
    requires r == [] || !IsTrimmed(r[|r| - 1])
    ensures TrimEnd(r + post) == r
    decreases |post|
  {
    if post == [] {
      assert r + post == r;
    } else {
      var post' := post[..|post| - 1];
      assert (r + post)[..|r + post| - 1] == r + post';
      TrimEndPadded(r, post');
    }
  }

  /** `Trim` is characterised without reference to how it scans: a string made of
      strippable padding around an edged core trims to exactly that core. */
  lemma TrimPadded(pre: string, r: string, post: string)
    requires AllTrimmed(pre) && AllTrimmed(post) && Edged(r)
    ensures Trim(pre + r + post) == r
  {
    if r == [] {
      assert pre + r + post == pre + post;
      assert AllTrimmed(pre + post);
    } else {
      assert pre + r + post == pre + (r + post);
      TrimStartPadded(pre, r + post);
      TrimEndPadded(r, post);
    }
  }

  /** Trimming twice is trimming once. */
  lemma TrimIdempotent(s: string)
    ensures Trim(Trim(s)) == Trim(s)
  {
    var r := Trim(s);
    assert [] + r + [] == r;
    TrimPadded([], r, []);
  }

  /** `Character.isWhitespace`: the Unicode space, line and paragraph separators
      other than the no-break spaces, plus the ASCII and information-separator
      controls U+0009-U+000D and U+001C-U+001F. */
  predicate IsJavaWhitespace(c: char) {
    var k := c as int;
    || (0x09 <= k <= 0x0D)
    || (0x1C <= k <= 0x20)
    || k == 0x1680
    || (0x2000 <= k <= 0x200A && k != 0x2007)
    || k == 0x2028 || k == 0x2029 || k == 0x205F || k == 0x3000
  }

  /** `StringUtils.isBlank` for a non-null string: empty or whitespace only. */
  predicate IsBlank(s: string) {
    forall i :: 0 <= i < |s| ==> IsJavaWhitespace(s[i])
  }

  /** A trimmed string is blank exactly when it is empty, unless it is made of
      whitespace that `trim` does not strip (characters above U+0020). */
  lemma TrimmedBlank(s: string)
    requires forall i :: 0 <= i < |s| ==> s[i] as int <= 0x7F
    ensures IsBlank(Trim(s)) <==> Trim(s) == []
  {
    var t := TrimStart(s);
    var r := TrimEnd(t);
    assert r == Trim(s);
    if r != [] {
      var k := |s| - |t|;
      assert r[0] == t[0] == s[k];
      assert ' ' < s[k] && s[k] as int <= 0x7F;
      assert !IsJavaWhitespace(r[0]);
    }
  }

  /** ASCII lower-casing, the case folding the name filter applies. */
  function Lower(c: char): (d: char)
    ensures 'A' <= c <= 'Z' ==> 'a' <= d <= 'z' && d as int - c as int == 32
    ensures !('A' <= c <= 'Z') ==> d == c
  {
    if 'A' <= c <= 'Z' then (c as int + 32) as char else c
  }

  function LowerAll(s: string): (r: string)
    ensures |r| == |s| && forall i :: 0 <= i < |s| ==> r[i] == Lower(s[i])
  {
    seq(|s|, i requires 0 <= i < |s| => Lower(s[i]))
  }

  /** `q` occurs in `s` starting at index `i`. */
  predicate OccursAt(q: string, s: string, i: int) {
    0 <= i && i + |q| <= |s| && s[i..i + |q|] == q
  }

  /** `s` contains `q` as a contiguous substring. */
  predicate Contains(s: string, q: string) {
    exists i | 0 <= i <= |s| - |q| :: OccursAt(q, s, i)
  }

  /** The predicate of `findByNameContainingIgnoreCase`. */
  predicate ContainsIgnoreCase(s: string, q: string) {
    Contains(LowerAll(s), LowerAll(q))
  }

  lemma ContainsIgnoreCaseExample()
    ensures ContainsIgnoreCase("Alice Smith", "smith")
    ensures !ContainsIgnoreCase("bob", "smith")
  {
    assert OccursAt(LowerAll("smith"), LowerAll("Alice Smith"), 6);
  }

  function DigitChar(d: nat): (c: char)
    requires d < 10
    ensures '0' <= c <= '9' && c as int - '0' as int == d
  {
    (('0' as int) + d) as char
  }

  predicate IsDigit(c: char) {
    '0' <= c <= '9'
  }

  /** The decimal rendering of a non-negative number, as `Long.toString` gives it. */
  function NatToString(n: nat): (r: string)
    ensures |r| >= 1
    ensures forall i :: 0 <= i < |r| ==> IsDigit(r[i])
    ensures n >= 10 ==> |r| >= 2
  {
    if n < 10 then [DigitChar(n)] else NatToString(n / 10) + [DigitChar(n % 10)]
  }

  /** Different numbers render differently. */
  lemma {:induction false} NatToStringInjective(m: nat, n: nat)
    requires NatToString(m) == NatToString(n)
    ensures m == n
  {
    var s, t := NatToString(m), NatToString(n);
    if m < 10 && n < 10 {
      assert s[0] == t[0];
    } else if m < 10 || n < 10 {
      assert false;
    } else {
      assert s[|s| - 1] == t[|t| - 1];
      assert m % 10 == n % 10;
      assert s[..|s| - 1] == NatToString(m / 10);
      assert t[..|t| - 1] == NatToString(n / 10);
      NatToStringInjective(m / 10, n / 10);
    }
  }

  /** The rendering of a `Long` in string concatenation: a minus sign for negatives. */
  function IntToString(x: int): (r: string)
    ensures x >= 0 ==> r == NatToString(x)
    ensures x < 0 ==> r == "-" + NatToString(-x)
  {
    if x < 0 then "-" + NatToString(-x) else NatToString(x)
  }

  lemma IntToStringInjective(x: int, y: int)
    requires IntToString(x) == IntToString(y)
    ensures x == y
  {
    var s, t := IntToString(x), IntToString(y);
    assert (s[0] == '-') == (x < 0) && (t[0] == '-') == (y < 0);
    if x < 0 {
      assert s[1..] == NatToString(-x) && t[1..] == NatToString(-y);
      NatToStringInjective(-x, -y);
    } else {
      NatToStringInjective(x, y);
    }
  }

  function JoinIds(ids: seq<int>): (r: string)
    ensures ids == [] <==> r == []
  {
    if ids == [] then ""
    else if |ids| == 1 then IntToString(ids[0])
    else IntToString(ids[0]) + ", " + JoinIds(ids[1..])
  }

  /** `List<Long>.toString`: the elements in order, separated by ", ", in brackets. */
  function IdsToString(ids: seq<int>): (r: string)
    ensures |r| >= 2 && r[0] == '[' && r[|r| - 1] == ']'
    ensures r == "[]" <==> ids == []
  {
    "[" + JoinIds(ids) + "]"
  }

  lemma IdsToStringExamples()
    ensures IdsToString([99]) == "[99]"
    ensures IdsToString([10, 20]) == "[10, 20]"
  {
    assert NatToString(9) == "9";
    assert NatToString(99) == "99";
    assert NatToString(1) == "1" && NatToString(2) == "2";
    assert NatToString(10) == "10" && NatToString(20) == "20";
  }
}
