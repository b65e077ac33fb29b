/** Option, the one wrapper the model needs for JavaScript's `null`/`undefined`. */
module Wrappers {
  datatype Option<+T> = None | Some(value: T)

  /** A JavaScript string value is falsy when it is absent or empty. */
  predicate Truthy(s: Option<string>) {
    s.Some? && s.value != ""
  }
}

/**
 * The JavaScript string operations the application relies on: `\s` and
 * `trim`, ASCII `toLowerCase`, `includes`, `startsWith`, the relational
 * `<` on strings, and the `^\S+@\S+$` pattern used by two forms.
 */
module Text {

  /** JavaScript's WhiteSpace and LineTerminator code points: what `\s` matches and `trim` removes. */
  predicate IsSpace(c: char) {
    ('\t' <= c <= '\r') || c == ' ' || (c >= '\U{A0}' && IsWideSpace(c))
  }

  /** The whitespace code points outside ASCII. */
  predicate IsWideSpace(c: char) {
    || c == '\U{A0}' || c == '\U{1680}' || ('\U{2000}' <= c <= '\U{200A}')
    || c == '\U{2028}' || c == '\U{2029}' || c == '\U{202F}' || c == '\U{205F}'
    || c == '\U{3000}' || c == '\U{FEFF}'
  }

  predicate AllSpace(s: string) {
    forall k :: 0 <= k < |s| ==> IsSpace(s[k])
  }

  predicate NoSpace(s: string) {
    forall k :: 0 <= k < |s| ==> !IsSpace(s[k])
  }

  /** How many whitespace characters `s` starts with. */
  function LeadingSpace(s: string): (n: nat)
    ensures n <= |s|
    ensures forall k :: 0 <= k < n ==> IsSpace(s[k])
    ensures n < |s| ==> !IsSpace(s[n])
  {
    if s != [] && IsSpace(s[0]) then 1 + LeadingSpace(s[1..]) else 0
  }

  /** How many whitespace characters `s` ends with. */
  function TrailingSpace(s: string): (n: nat)
    ensures n <= |s|
    ensures forall k :: |s| - n <= k < |s| ==> IsSpace(s[k])
    ensures n < |s| ==> !IsSpace(s[|s| - n - 1])
  {
    if s != [] && IsSpace(s[|s| - 1]) then 1 + TrailingSpace(s[..|s| - 1]) else 0
  }

  /** `trimStart`: drops the leading whitespace and nothing else. */
  function TrimStart(s: string): (r: string)
    ensures r != [] ==> !IsSpace(r[0])
  {
    s[LeadingSpace(s)..]
  }

  /** `trimEnd`: drops the trailing whitespace and nothing else. */
  function TrimEnd(s: string): (r: string)
    ensures r != [] ==> !IsSpace(r[|r| - 1])
  {
    s[..|s| - TrailingSpace(s)]
  }

  /** `trim`: the slice of `s` between its leading and its trailing whitespace. */
  function Trim(s: string): (r: string)
    ensures exists i, j :: 0 <= i <= j <= |s| && r == s[i..j] && AllSpace(s[..i]) && AllSpace(s[j..])
    ensures r != [] ==> !IsSpace(r[0]) && !IsSpace(r[|r| - 1])
  {
    var i := LeadingSpace(s);
    var t := s[i..];
    var n := TrailingSpace(t);
    var j := i + |t| - n;
    assert AllSpace(s[..i]) by {
      forall k | 0 <= k < i ensures IsSpace(s[..i][k]) { }
    }
    assert AllSpace(s[j..]) by {
      forall k | 0 <= k < |s| - j ensures IsSpace(s[j..][k]) {
        assert s[j..][k] == t[|t| - n + k];
      }
    }
    assert t[..|t| - n] == s[i..j];
    TrimEnd(TrimStart(s))
  }

  /**
   * The trim is pinned down by its ends: between whitespace-only margins,
   * from a non-whitespace character to a non-whitespace character.
   */
  lemma TrimBetween(s: string, i: nat, j: nat)
    requires i < j <= |s|
    requires AllSpace(s[..i]) && AllSpace(s[j..])
    requires !IsSpace(s[i]) && !IsSpace(s[j - 1])
    ensures Trim(s) == s[i..j]
  {
    assert LeadingSpace(s) == i;
    var t := s[i..];
    var m := TrailingSpace(t);
    assert m == |s| - j;
    assert t[..|t| - m] == s[i..j];
  }

  /** How many characters of `s` are not whitespace. */
  function CountNonSpace(s: string): nat
  {
    if s == [] then 0 else (if IsSpace(s[0]) then 0 else 1) + CountNonSpace(s[1..])
  }

  lemma {:induction false} CountNonSpaceAppend(a: string, b: string)
    ensures CountNonSpace(a + b) == CountNonSpace(a) + CountNonSpace(b)
  {
    if a != [] {
      assert (a + b)[1..] == a[1..] + b;
      CountNonSpaceAppend(a[1..], b);
    } else {
      assert a + b == b;
    }
  }

  lemma {:induction false} CountNonSpaceOfSpaces(s: string)
    requires AllSpace(s)
    ensures CountNonSpace(s) == 0
  {
    if s != [] {
      CountNonSpaceOfSpaces(s[1..]);
    }
  }

  lemma {:induction false} CountNonSpaceAtMostLength(s: string)
    ensures CountNonSpace(s) <= |s|
  {
    if s != [] {
      CountNonSpaceAtMostLength(s[1..]);
    }
  }

  lemma TrimStartKeepsNonSpace(s: string)
    ensures CountNonSpace(TrimStart(s)) == CountNonSpace(s)
  {
    var i := LeadingSpace(s);
    assert s == s[..i] + s[i..];
    CountNonSpaceAppend(s[..i], s[i..]);
    assert AllSpace(s[..i]) by {
      forall k | 0 <= k < i ensures IsSpace(s[..i][k]) { }
    }
    CountNonSpaceOfSpaces(s[..i]);
  }

  lemma TrimEndKeepsNonSpace(s: string)
    ensures CountNonSpace(TrimEnd(s)) == CountNonSpace(s)
  {
    var j := |s| - TrailingSpace(s);
    assert s == s[..j] + s[j..];
    CountNonSpaceAppend(s[..j], s[j..]);
    assert AllSpace(s[j..]) by {
      forall k | 0 <= k < |s| - j ensures IsSpace(s[j..][k]) { }
    }
    CountNonSpaceOfSpaces(s[j..]);
  }

  /** Trimming removes whitespace only: the non-whitespace characters all survive. */
  lemma TrimKeepsNonSpace(s: string)
    ensures CountNonSpace(Trim(s)) == CountNonSpace(s)
  {
    TrimStartKeepsNonSpace(s);
    TrimEndKeepsNonSpace(TrimStart(s));
  }

  /**
   * The trimmed text is shorter than two characters exactly when the text
   * holds fewer than two non-whitespace characters, and it is empty exactly
   * when the text holds none.
   */
  lemma {:induction false} TrimmedLength(s: string)
    ensures |Trim(s)| == 0 <==> CountNonSpace(s) == 0
    ensures |Trim(s)| < 2 <==> CountNonSpace(s) < 2
    ensures CountNonSpace(s) <= |Trim(s)|
  {
    var r := Trim(s);
    TrimKeepsNonSpace(s);
    CountNonSpaceAtMostLength(r);
    if |r| >= 2 {
      // the first and the last character of a trimmed text are not whitespace
      assert r == [r[0]] + r[1..|r| - 1] + [r[|r| - 1]];
      CountNonSpaceAppend([r[0]] + r[1..|r| - 1], [r[|r| - 1]]);
      CountNonSpaceAppend([r[0]], r[1..|r| - 1]);
    } else if |r| == 1 {
      assert r[1..] == [];
    }
  }

  /** ASCII `toLowerCase`. */
  function LowerChar(c: char): char {
    if 'A' <= c <= 'Z' then (c as int + 32) as char else c
  }

  function Lower(s: string): (r: string)
    ensures |r| == |s|
  {
    if s == [] then [] else [LowerChar(s[0])] + Lower(s[1..])
  }

  /** Lowering twice changes nothing more: case-insensitive keys are stable. */
  lemma {:induction false} LowerIdempotent(s: string)
    ensures Lower(Lower(s)) == Lower(s)
  {
    if s != [] {
      LowerIdempotent(s[1..]);
      assert Lower(s)[1..] == Lower(s[1..]);
    }
  }

  /** `s.startsWith(p)`. */
  predicate StartsWith(s: string, p: string) {
    |p| <= |s| && s[..|p|] == p
  }

  /** `needle` sits in `hay` at index `i`. */
  predicate OccursAt(hay: string, needle: string, i: nat) {
    i + |needle| <= |hay| && forall k :: 0 <= k < |needle| ==> hay[i + k] == needle[k]
  }

  /** `hay.includes(needle)`: true when `needle` occurs at some index of `hay` (always, for the empty needle). */
  function Includes(hay: string, needle: string): (r: bool)
    ensures r <==> exists i: nat :: OccursAt(hay, needle, i)
    decreases |hay|
  {
    if StartsWith(hay, needle) then
      assert forall k :: 0 <= k < |needle| ==> hay[0 + k] == hay[..|needle|][k];
      assert OccursAt(hay, needle, 0);
      true
    else if hay == [] then
      false
    else
      var r := Includes(hay[1..], needle);
      assert forall i: nat :: OccursAt(hay[1..], needle, i) ==> OccursAt(hay, needle, i + 1) by {
        forall i: nat | OccursAt(hay[1..], needle, i) ensures OccursAt(hay, needle, i + 1) {
          forall k | 0 <= k < |needle| ensures hay[i + 1 + k] == needle[k] {
            assert hay[1..][i + k] == needle[k];
          }
        }
      }
      assert forall i: nat :: OccursAt(hay, needle, i) ==> i > 0 && OccursAt(hay[1..], needle, i - 1) by {
        forall i: nat | OccursAt(hay, needle, i) ensures i > 0 && OccursAt(hay[1..], needle, i - 1) {
          if i == 0 {
            assert false;
          }
        }
      }
      r
  }

  /**
   * JavaScript's `a < b` on strings: lexicographic by character, a proper
   * prefix coming first.
   */
  predicate StrLess(a: string, b: string) {
    if a == [] then b != []
    else if b == [] then false
    else if a[0] != b[0] then a[0] < b[0]
    else StrLess(a[1..], b[1..])
  }

  lemma {:induction false} StrLessIrreflexive(a: string)
    ensures !StrLess(a, a)
  {
    if a != [] {
      StrLessIrreflexive(a[1..]);
    }
  }

  lemma {:induction false} StrLessAsymmetric(a: string, b: string)
    requires StrLess(a, b)
    ensures !StrLess(b, a)
  {
    if a != [] && b != [] && a[0] == b[0] {
      StrLessAsymmetric(a[1..], b[1..]);
    }
  }

  lemma {:induction false} StrLessTransitive(a: string, b: string, c: string)
    requires StrLess(a, b) && StrLess(b, c)
    ensures StrLess(a, c)
  {
    if a != [] && b != [] && c != [] && a[0] == b[0] && b[0] == c[0] {
      StrLessTransitive(a[1..], b[1..], c[1..]);
    }
  }

  lemma {:induction false} StrLessTotal(a: string, b: string)
    requires a != b
    ensures StrLess(a, b) || StrLess(b, a)
  {
    if a != [] && b != [] && a[0] == b[0] {
      assert a == [a[0]] + a[1..] && b == [b[0]] + b[1..];
      StrLessTotal(a[1..], b[1..]);
    }
  }

  /**
   * The pattern `^\S+@\S+$` as a single scan: no whitespace anywhere, and an
   * `@` somewhere other than the first or the last position.
   */
  predicate MatchesEmailPattern(s: string) {
    |s| >= 3 && NoSpace(s) && '@' in s[1..|s| - 1]
  }

  /**
   * The scan accepts exactly the strings the regular expression accepts:
   * a non-empty whitespace-free run, an `@`, and another such run.
   */
  lemma EmailPatternMeaning(s: string)
    ensures MatchesEmailPattern(s) <==>
      exists i :: 0 < i < |s| - 1 && s[i] == '@' && NoSpace(s[..i]) && NoSpace(s[i + 1..])
  {
    if MatchesEmailPattern(s) {
      var k :| 0 <= k < |s| - 2 && s[1..|s| - 1][k] == '@';
      var i := k + 1;
      assert s[i] == '@';
      assert NoSpace(s[..i]) && NoSpace(s[i + 1..]);
    }
    if exists i :: 0 < i < |s| - 1 && s[i] == '@' && NoSpace(s[..i]) && NoSpace(s[i + 1..]) {
      var i :| 0 < i < |s| - 1 && s[i] == '@' && NoSpace(s[..i]) && NoSpace(s[i + 1..]);
      forall k | 0 <= k < |s| ensures !IsSpace(s[k]) {
        if k < i {
          assert s[k] == s[..i][k];
        } else if k > i {
          assert s[k] == s[i + 1..][k - i - 1];
        }
      }
      assert s[1..|s| - 1][i - 1] == '@';
    }
  }
}
