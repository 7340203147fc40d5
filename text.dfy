/** The few string operations of Python that the link checker relies on:
    the `in` operator on strings, `''.join(...)` and `str(int)`. */
module Text {

  /** `t` occurs in `s` at position `i`. */
  predicate OccursAt(s: string, t: string, i: int) {
    0 <= i <= |s| - |t| && s[i..i + |t|] == t
  }

  /** Python's `t in s` for two strings: `t` occurs somewhere in `s`
      (the empty string occurs in every string). */
  predicate Contains(s: string, t: string) {
    exists i | 0 <= i <= |s| - |t| :: OccursAt(s, t, i)
  }

  /** `t` is a prefix of `s`. */
  predicate StartsWith(s: string, t: string) {
    |t| <= |s| && s[..|t|] == t
  }

  /** The same test as a scan: `t` is a prefix of `s`, or occurs in `s`
      without its first character. */
  predicate ScanFor(s: string, t: string)
    decreases |s|
  {
    StartsWith(s, t) || (|s| > 0 && ScanFor(s[1..], t))
  }

  /** The scan finds exactly the occurrences. */
  lemma {:induction false} ScanForIsContains(s: string, t: string)
    ensures ScanFor(s, t) <==> Contains(s, t)
    decreases |s|
  {
    if StartsWith(s, t) {
      assert OccursAt(s, t, 0);
    } else if |s| > 0 {
      ScanForIsContains(s[1..], t);
      if Contains(s[1..], t) {
        var i :| 0 <= i <= |s[1..]| - |t| && OccursAt(s[1..], t, i);
        assert s[i + 1..i + 1 + |t|] == s[1..][i..i + |t|];
        assert OccursAt(s, t, i + 1);
      }
      if Contains(s, t) {
        var i :| 0 <= i <= |s| - |t| && OccursAt(s, t, i);
        assert i != 0;
        assert s[1..][i - 1..i - 1 + |t|] == s[i..i + |t|];
        assert OccursAt(s[1..], t, i - 1);
      }
    }
  }

  /** `t` is not in `s` when one of its characters is nowhere in `s`. */
  lemma AbsentChar(s: string, t: string, j: nat)
    requires j < |t|
    requires forall i | 0 <= i < |s| :: s[i] != t[j]
    ensures !Contains(s, t)
  {
    forall i | 0 <= i <= |s| - |t| ensures !OccursAt(s, t, i) {
      assert s[i + j] != t[j];
    }
  }

  /** `t` is not in `s` when two adjacent characters of `t` are nowhere
      adjacent in `s`. */
  lemma AbsentPair(s: string, t: string, j: nat)
    requires j + 1 < |t|
    requires forall i | 0 <= i < |s| - 1 :: s[i] != t[j] || s[i + 1] != t[j + 1]
    ensures !Contains(s, t)
  {
    forall i | 0 <= i <= |s| - |t| ensures !OccursAt(s, t, i) {
      assert s[i + j] != t[j] || s[i + j + 1] != t[j + 1];
    }
  }

  /** An occurrence inside a part is an occurrence in any string built around it. */
  lemma ContainsWithin(pre: string, mid: string, post: string, t: string)
    requires Contains(mid, t)
    ensures Contains(pre + mid + post, t)
  {
    var i :| 0 <= i <= |mid| - |t| && OccursAt(mid, t, i);
    var s := pre + mid + post;
    assert s[|pre| + i..|pre| + i + |t|] == mid[i..i + |t|];
    assert OccursAt(s, t, |pre| + i);
  }

  /** Python's `''.join(parts)`. */
  function Join(parts: seq<string>): (r: string)
    ensures |parts| == 1 ==> r == parts[0]
    decreases |parts|
  {
    if parts == [] then "" else Join(parts[..|parts| - 1]) + parts[|parts| - 1]
  }

  /** Every part of a join occurs in it, so whatever occurs in a part occurs in the join. */
  lemma {:induction false} JoinKeepsPart(parts: seq<string>, k: nat, t: string)
    requires k < |parts| && Contains(parts[k], t)
    ensures Contains(Join(parts), t)
    decreases |parts|
  {
    var init := parts[..|parts| - 1];
    if k == |parts| - 1 {
      ContainsWithin(Join(init), parts[k], "", t);
      assert Join(init) + parts[k] + "" == Join(parts);
    } else {
      assert init[k] == parts[k];
      JoinKeepsPart(init, k, t);
      ContainsWithin("", Join(init), parts[|parts| - 1], t);
      assert "" + Join(init) + parts[|parts| - 1] == Join(parts);
    }
  }

  predicate IsDigit(c: char) {
    '0' <= c <= '9'
  }

  /** The value of a non-empty run of decimal digits. */
  function DigitsValue(d: string): nat
    requires forall k | 0 <= k < |d| :: IsDigit(d[k])
    decreases |d|
  {
    if d == [] then 0
    else
      var c := d[|d| - 1];
      assert IsDigit(c);
      10 * DigitsValue(d[..|d| - 1]) + (c as int - '0' as int)
  }

  /** Python's `str(n)` for a natural number: decimal digits without leading zeros. */
  function NatToString(n: nat): (r: string)
    ensures |r| >= 1 && (forall k | 0 <= k < |r| :: IsDigit(r[k]))
    ensures DigitsValue(r) == n
    ensures |r| > 1 ==> r[0] != '0'
    decreases n
  {
    var last := ['0' + (n % 10) as char];
    if n < 10 then last
    else
      var init := NatToString(n / 10);
      assert (init + last)[..|init + last| - 1] == init;
      init + last
  }

  /** Python's `str(i)` for an integer: a minus sign before the digits of `-i` when negative. */
  function IntToString(i: int): (r: string)
    ensures |r| >= 1
    ensures i >= 0 ==> r == NatToString(i)
    ensures i < 0 ==> r[0] == '-' && r[1..] == NatToString(-i)
  {
    if i < 0 then "-" + NatToString(-i) else NatToString(i)
  }
}
