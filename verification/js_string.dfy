/**
 * The parts of ECMAScript's `String.prototype` that the browsing UI relies on:
 * `trim`, `toLowerCase`, `includes`, and the UTF-16 code-unit order that the
 * default `Array.prototype.sort` comparator uses.
 *
 * A Dafny `char` is a Unicode scalar value; a JavaScript string is a sequence of
 * UTF-16 code units. `CodeUnits` gives the UTF-16 view wherever the two differ.
 */
module JsString {
  import opened Seqs

  /** ECMAScript WhiteSpace and LineTerminator code points, the set `trim` removes. */
  predicate IsWhitespace(c: char) {
    c == '\t' || c == '\n' || c == '\r' || c == ' '
    || c == 0x0B as char || c == 0x0C as char
    || c == 0xA0 as char || c == 0x1680 as char
    || (0x2000 as char <= c <= 0x200A as char)
    || c == 0x2028 as char || c == 0x2029 as char
    || c == 0x202F as char || c == 0x205F as char
    || c == 0x3000 as char || c == 0xFEFF as char
  }

  ghost predicate AllWhitespace(s: string) {
    forall i :: 0 <= i < |s| ==> IsWhitespace(s[i])
  }

  /** No whitespace at either end: what `trim` leaves. */
  ghost predicate IsTrimmed(s: string) {
    s == [] || (!IsWhitespace(s[0]) && !IsWhitespace(s[|s| - 1]))
  }

  /** Number of whitespace characters at the start of `s`. */
  function LeadingWhitespace(s: string): (k: nat)
    ensures k <= |s|
    ensures forall i :: 0 <= i < k ==> IsWhitespace(s[i])
    ensures k == |s| || !IsWhitespace(s[k])
  {
    if s == [] || !IsWhitespace(s[0]) then 0 else 1 + LeadingWhitespace(s[1..])
  }

  /** Number of whitespace characters at the end of `s`. */
  function TrailingWhitespace(s: string): (k: nat)
    ensures k <= |s|
    ensures forall i :: |s| - k <= i < |s| ==> IsWhitespace(s[i])
    ensures k == |s| || !IsWhitespace(s[|s| - k - 1])
  {
    if s == [] || !IsWhitespace(s[|s| - 1]) then 0
    else 1 + TrailingWhitespace(s[..|s| - 1])
  }

  /**
   * `String.prototype.trim`: the longest infix of `s` that neither starts nor
   * ends with whitespace, after removing only whitespace on both sides.
   */
  function Trim(s: string): (r: string)
    ensures IsTrimmed(r)
    ensures exists i, j :: 0 <= i <= j <= |s| && r == s[i..j]
                        && AllWhitespace(s[..i]) && AllWhitespace(s[j..])
  {
    var i := LeadingWhitespace(s);
    var t := s[i..];
    var j := i + (|t| - TrailingWhitespace(t));
    assert t[..|t| - TrailingWhitespace(t)] == s[i..j];
    assert AllWhitespace(s[j..]) by {
      forall k | 0 <= k < |s| - j ensures IsWhitespace(s[j..][k]) {
        assert s[j..][k] == t[|t| - TrailingWhitespace(t) + k];
      }
    }
    s[i..j]
  }

  /** A string that is already trimmed is its own trim. */
  lemma TrimOfTrimmed(s: string)
    requires IsTrimmed(s)
    ensures Trim(s) == s
  {
    assert LeadingWhitespace(s) == 0;
    if s != [] {
      assert TrailingWhitespace(s) == 0;
    }
  }

  /** `trim` is idempotent. */
  lemma TrimIdempotent(s: string)
    ensures Trim(Trim(s)) == Trim(s)
  {
    TrimOfTrimmed(Trim(s));
  }

  /** `toLowerCase` on one character; only the ASCII letters are mapped. */
  function LowerChar(c: char): (d: char)
    ensures 'A' <= c <= 'Z' ==> d as int == c as int + 32
    ensures !('A' <= c <= 'Z') ==> d == c
  {
    if 'A' <= c <= 'Z' then (c as int + 32) as char else c
  }

  /** `String.prototype.toLowerCase`, character by character. */
  function ToLowerCase(s: string): (r: string)
    ensures |r| == |s|
    ensures forall i :: 0 <= i < |s| ==> r[i] == LowerChar(s[i])
  {
    seq(|s|, i requires 0 <= i < |s| => LowerChar(s[i]))
  }

  /** After lowercasing no upper-case ASCII letter is left. */
  lemma ToLowerCaseLeavesNoUpper(s: string)
    ensures forall i :: 0 <= i < |s| ==> !('A' <= ToLowerCase(s)[i] <= 'Z')
  {
  }

  /** Lowercasing twice is lowercasing once. */
  lemma ToLowerCaseIdempotent(s: string)
    ensures ToLowerCase(ToLowerCase(s)) == ToLowerCase(s)
  {
  }

  /** Lowercasing neither adds nor removes whitespace, so it keeps a trimmed string trimmed. */
  lemma ToLowerCaseKeepsTrimmed(s: string)
    requires IsTrimmed(s)
    ensures IsTrimmed(ToLowerCase(s))
  {
  }

  /** `sub` occurs in `s` starting at index `k`. */
  ghost predicate OccursAt(s: string, sub: string, k: int) {
    0 <= k && k + |sub| <= |s| && s[k..k + |sub|] == sub
  }

  /**
   * `String.prototype.includes(sub)`: some index of `s` starts an occurrence of
   * `sub`; the empty string occurs everywhere.
   */
  function Includes(s: string, sub: string): (b: bool)
    ensures b <==> exists k :: OccursAt(s, sub, k)
    decreases |s|
  {
    if |sub| > |s| then
      assert forall k :: !OccursAt(s, sub, k);
      false
    else if s[..|sub|] == sub then
      assert OccursAt(s, sub, 0);
      true
    else
      var b := Includes(s[1..], sub);
      assert forall k :: OccursAt(s[1..], sub, k) ==> OccursAt(s, sub, k + 1) by {
        forall k | OccursAt(s[1..], sub, k) ensures OccursAt(s, sub, k + 1) {
          assert s[k + 1..k + 1 + |sub|] == s[1..][k..k + |sub|];
        }
      }
      assert forall k :: OccursAt(s, sub, k) && k > 0 ==> OccursAt(s[1..], sub, k - 1) by {
        forall k | OccursAt(s, sub, k) && k > 0 ensures OccursAt(s[1..], sub, k - 1) {
          var shifted, here := s[1..][k - 1..k - 1 + |sub|], s[k..k + |sub|];
          assert forall m :: 0 <= m < |sub| ==> shifted[m] == here[m];
          assert shifted == here;
        }
      }
      b
  }

  /** The UTF-16 encoding of one Unicode scalar value. */
  function Utf16(c: char): (u: seq<int>)
    ensures 1 <= |u| <= 2
    ensures forall i :: 0 <= i < |u| ==> 0 <= u[i] < 0x10000
    ensures |u| == 1 <==> (c as int) < 0x10000
  {
    var n := c as int;
    if n < 0x10000 then [n]
    else [0xD800 + (n - 0x10000) / 0x400, 0xDC00 + (n - 0x10000) % 0x400]
  }

  /** A string as the sequence of UTF-16 code units JavaScript sees. */
  function CodeUnits(s: string): (u: seq<int>)
    ensures |s| <= |u| <= 2 * |s|
  {
    if s == [] then [] else Utf16(s[0]) + CodeUnits(s[1..])
  }

  /** Lexicographic order on code-unit sequences; a prefix comes first. */
  predicate LexLe(a: seq<int>, b: seq<int>) {
    a == [] || (b != [] && (a[0] < b[0] || (a[0] == b[0] && LexLe(a[1..], b[1..]))))
  }

  lemma {:induction false} LexLeTotal(a: seq<int>, b: seq<int>)
    ensures LexLe(a, b) || LexLe(b, a)
  {
    if a != [] && b != [] && a[0] == b[0] {
      LexLeTotal(a[1..], b[1..]);
    }
  }

  lemma {:induction false} LexLeTransitive(a: seq<int>, b: seq<int>, c: seq<int>)
    requires LexLe(a, b) && LexLe(b, c)
    ensures LexLe(a, c)
  {
    if a != [] && b != [] && c != [] && a[0] == b[0] && b[0] == c[0] {
      LexLeTransitive(a[1..], b[1..], c[1..]);
    }
  }

  lemma {:induction false} LexLeAntisymmetric(a: seq<int>, b: seq<int>)
    requires LexLe(a, b) && LexLe(b, a)
    ensures a == b
  {
    if a != [] {
      LexLeAntisymmetric(a[1..], b[1..]);
    }
  }

  /**
   * The order of the default `Array.prototype.sort` comparator on strings:
   * `a` sorts no later than `b` unless `b`'s code units are lexicographically
   * smaller.
   */
  predicate CodeUnitLe(a: string, b: string) {
    LexLe(CodeUnits(a), CodeUnits(b))
  }

  /** The default sort order is a valid comparator order. */
  lemma CodeUnitLeTotalPreorder()
    ensures TotalPreorder(CodeUnitLe)
  {
    forall a, b ensures CodeUnitLe(a, b) || CodeUnitLe(b, a) {
      LexLeTotal(CodeUnits(a), CodeUnits(b));
    }
    forall a, b, c | CodeUnitLe(a, b) && CodeUnitLe(b, c) ensures CodeUnitLe(a, c) {
      LexLeTransitive(CodeUnits(a), CodeUnits(b), CodeUnits(c));
    }
  }
}
