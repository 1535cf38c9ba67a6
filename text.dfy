/**
 * The JavaScript string operations the application relies on: `trim`,
 * `toUpperCase`/`toLowerCase` (ASCII letters only), `includes` and
 * `startsWith`, and which optional strings JavaScript treats as true.
 */
module Text {
  import opened Wrappers

  /** The characters `String.prototype.trim` removes: JavaScript's WhiteSpace and LineTerminator. */
  predicate IsSpace(c: char) {
    || c == ' ' || c == '\t' || c == '\n' || c == '\r'
    || c == '\U{000B}' || c == '\U{000C}' || c == '\U{00A0}' || c == '\U{1680}'
    || ('\U{2000}' <= c <= '\U{200A}')
    || c == '\U{2028}' || c == '\U{2029}' || c == '\U{202F}' || c == '\U{205F}'
    || c == '\U{3000}' || c == '\U{FEFF}'
  }

  /** The characters a regular-expression `.` does not match. */
  predicate IsLineTerminator(c: char) {
    c == '\n' || c == '\r' || c == '\U{2028}' || c == '\U{2029}'
  }

  /** A string made of whitespace only. */
  predicate AllSpace(s: string) {
    forall k :: 0 <= k < |s| ==> IsSpace(s[k])
  }

  /** A string with no removable whitespace at either end. */
  predicate IsTrimmed(s: string) {
    s == [] || (!IsSpace(s[0]) && !IsSpace(s[|s| - 1]))
  }

  /** The number of whitespace characters at the start of `s`. */
  function LeadingSpace(s: string): (n: nat)
    ensures n <= |s|
  {
    if s != [] && IsSpace(s[0]) then LeadingSpace(s[1..]) + 1 else 0
  }

  /** The number of whitespace characters at the end of `s`. */
  function TrailingSpace(s: string): (n: nat)
    ensures n <= |s|
  {
    if s != [] && IsSpace(s[|s| - 1]) then TrailingSpace(s[..|s| - 1]) + 1 else 0
  }

  /** The leading count covers whitespace only and stops at the first other character. */
  lemma {:induction false} LeadingSpaceExact(s: string)
    ensures AllSpace(s[..LeadingSpace(s)])
    ensures LeadingSpace(s) < |s| ==> !IsSpace(s[LeadingSpace(s)])
  {
    if s != [] && IsSpace(s[0]) {
      var m := LeadingSpace(s[1..]);
      LeadingSpaceExact(s[1..]);
      assert s[..m + 1] == [s[0]] + s[1..][..m];
    }
  }

  /** The trailing count covers whitespace only and stops at the last other character. */
  lemma {:induction false} TrailingSpaceExact(s: string)
    ensures AllSpace(s[|s| - TrailingSpace(s)..])
    ensures TrailingSpace(s) < |s| ==> !IsSpace(s[|s| - TrailingSpace(s) - 1])
  {
    if s != [] && IsSpace(s[|s| - 1]) {
      var m := TrailingSpace(s[..|s| - 1]);
      TrailingSpaceExact(s[..|s| - 1]);
      assert s[|s| - (m + 1)..] == s[..|s| - 1][|s| - 1 - m..] + [s[|s| - 1]];
    }
  }

  /** `trimStart`: drops the leading whitespace and nothing else. */
  function TrimStart(s: string): string {
    s[LeadingSpace(s)..]
  }

  /** `trimEnd`: drops the trailing whitespace and nothing else. */
  function TrimEnd(s: string): string {
    s[..|s| - TrailingSpace(s)]
  }

  /** `String.prototype.trim`. */
  function Trim(s: string): string {
    TrimEnd(TrimStart(s))
  }

  /** The result of `trim` has no whitespace at either end. */
  lemma TrimTrimmed(s: string)
    ensures IsTrimmed(Trim(s))
  {
    var t := TrimStart(s);
    LeadingSpaceExact(s);
    TrailingSpaceExact(t);
    if Trim(s) != [] {
      assert Trim(s)[0] == t[0];
    }
  }

  /** A string that is already trimmed is left as it is. */
  lemma {:induction false} TrimOfTrimmed(s: string)
    requires IsTrimmed(s)
    ensures Trim(s) == s
  {
  }

  /** Whitespace on both sides of a trimmed string is exactly what `trim` removes. */
  lemma {:induction false} TrimPadded(front: string, x: string, back: string)
    requires AllSpace(front)
    requires AllSpace(back)
    requires x != [] && IsTrimmed(x)
    ensures Trim(front + x + back) == x
  {
    TrimStartPadded(front, x + back);
    assert front + x + back == front + (x + back);
    TrimEndPadded(x, back);
  }

  lemma {:induction false} TrimStartPadded(front: string, rest: string)
    requires AllSpace(front)
    requires rest != [] && !IsSpace(rest[0])
    ensures TrimStart(front + rest) == rest
  {
    if front != [] {
      assert (front + rest)[1..] == front[1..] + rest;
      TrimStartPadded(front[1..], rest);
    }
  }

  lemma {:induction false} TrimEndPadded(rest: string, back: string)
    requires AllSpace(back)
    requires rest != [] && !IsSpace(rest[|rest| - 1])
    ensures TrimEnd(rest + back) == rest
  {
    if back != [] {
      assert (rest + back)[..|rest + back| - 1] == rest + back[..|back| - 1];
      TrimEndPadded(rest, back[..|back| - 1]);
    } else {
      assert rest + back == rest;
    }
  }

  /** ASCII `toUpperCase` of one character. */
  function UpperChar(c: char): char {
    if 'a' <= c <= 'z' then (c as int - 32) as char else c
  }

  /** ASCII `toLowerCase` of one character. */
  function LowerChar(c: char): char {
    if 'A' <= c <= 'Z' then (c as int + 32) as char else c
  }

  /** `toUpperCase`, restricted to ASCII letters. */
  function Upper(s: string): (r: string)
    ensures |r| == |s|
  {
    if s == [] then [] else [UpperChar(s[0])] + Upper(s[1..])
  }

  /** `toLowerCase`, restricted to ASCII letters. */
  function Lower(s: string): (r: string)
    ensures |r| == |s|
  {
    if s == [] then [] else [LowerChar(s[0])] + Lower(s[1..])
  }

  lemma {:induction false} UpperAt(s: string, k: nat)
    requires k < |s|
    ensures Upper(s)[k] == UpperChar(s[k])
  {
    if k > 0 {
      UpperAt(s[1..], k - 1);
    }
  }

  lemma {:induction false} LowerAt(s: string, k: nat)
    requires k < |s|
    ensures Lower(s)[k] == LowerChar(s[k])
  {
    if k > 0 {
      LowerAt(s[1..], k - 1);
    }
  }

  /** A letter absent from `s` in both cases is absent from its lower-cased form. */
  lemma LowerAvoids(s: string, lower: char, upper: char)
    requires 'a' <= lower <= 'z' && upper as int == lower as int - 32
    requires forall k :: 0 <= k < |s| ==> s[k] != lower && s[k] != upper
    ensures forall k :: 0 <= k < |Lower(s)| ==> Lower(s)[k] != lower
  {
    forall k | 0 <= k < |s|
      ensures Lower(s)[k] != lower
    {
      LowerAt(s, k);
    }
  }

  /** Lower-casing a concatenation lower-cases each part. */
  lemma {:induction false} LowerAppend(a: string, b: string)
    ensures Lower(a + b) == Lower(a) + Lower(b)
  {
    if a != [] {
      assert (a + b)[0] == a[0];
      assert (a + b)[1..] == a[1..] + b;
      LowerAppend(a[1..], b);
      assert [LowerChar(a[0])] + (Lower(a[1..]) + Lower(b)) == ([LowerChar(a[0])] + Lower(a[1..])) + Lower(b);
    } else {
      assert a + b == b;
    }
  }

  /** Upper-casing is idempotent and keeps a trimmed string trimmed. */
  lemma {:induction false} UpperStable(s: string)
    ensures Upper(Upper(s)) == Upper(s)
    ensures IsTrimmed(s) ==> IsTrimmed(Upper(s))
  {
    if s != [] {
      UpperStable(s[1..]);
      assert Upper(s)[1..] == Upper(s[1..]);
      UpperAt(s, |s| - 1);
    }
  }

  /** An optional string JavaScript treats as true: present (not `null` or `undefined`) and not empty. */
  predicate Truthy(field: Option<string>) {
    field.Some? && field.value != ""
  }

  /** `s.startsWith(p)`. */
  predicate StartsWith(s: string, p: string) {
    |p| <= |s| && s[..|p|] == p
  }

  /** `t` occurs in `s` starting at index `i`. */
  predicate OccursAt(s: string, t: string, i: nat) {
    i + |t| <= |s| && s[i..i + |t|] == t
  }

  /** `s.includes(t)`: some index of `s` starts an occurrence of `t` (the empty string occurs everywhere). */
  function Contains(s: string, t: string): (r: bool)
    ensures r <==> exists i: nat :: OccursAt(s, t, i)
    decreases |s|
  {
    if StartsWith(s, t) then
      assert OccursAt(s, t, 0);
      true
    else if s == [] then
      false
    else
      var r := Contains(s[1..], t);
      assert r ==> exists i: nat :: OccursAt(s, t, i) by {
        if r {
          var j: nat :| OccursAt(s[1..], t, j);
          assert s[1..][j..j + |t|] == s[j + 1..j + 1 + |t|];
          assert OccursAt(s, t, j + 1);
        }
      }
      assert (exists i: nat :: OccursAt(s, t, i)) ==> r by {
        if exists i: nat :: OccursAt(s, t, i) {
          var i: nat :| OccursAt(s, t, i);
          assert i != 0;
          assert s[1..][i - 1..i - 1 + |t|] == s[i..i + |t|];
          assert OccursAt(s[1..], t, i - 1);
        }
      }
      r
  }

  /** A pattern whose first character never appears in `s` is not contained in it. */
  lemma NotContainsFirst(s: string, t: string)
    requires t != [] && forall k :: 0 <= k < |s| ==> s[k] != t[0]
    ensures !Contains(s, t)
  {
    forall i: nat | i + |t| <= |s|
      ensures !OccursAt(s, t, i)
    {
      assert s[i..i + |t|][0] == s[i];
    }
  }
}
