/**
 * The Foundation string operations the remote's codecs are built on
 * (`hasPrefix`, `contains`, `range(of:)`, `replacingOccurrences(of:with:)`)
 * and the two helpers of String+Extensions.swift, `truncated(to:)` and
 * `flattened()`. Strings are sequences of `char`.
 */
module Strings {
  import opened Wrappers

  /** `s.hasPrefix(p)`. */
  predicate HasPrefix(s: string, p: string) {
    p <= s
  }

  /** `s.contains(p)`: `p` occurs in `s` at some index. */
  predicate Contains(s: string, p: string)
    decreases |s|
  {
    p <= s || (s != [] && Contains(s[1..], p))
  }

  /** The index of the leftmost occurrence of `p` in `s`, as `s.range(of: p)` finds it. */
  function FindFirst(s: string, p: string): (r: Option<nat>)
    decreases |s|
    ensures r.Some? ==> r.value + |p| <= |s| && p <= s[r.value..]
    ensures r.Some? ==> forall i :: 0 <= i < r.value ==> !(p <= s[i..])
    ensures r.None? <==> !Contains(s, p)
  {
    if p <= s then Some(0)
    else if s == [] then None
    else
      match FindFirst(s[1..], p)
      case None => None
      case Some(i) =>
        assert forall k :: 1 <= k <= |s| ==> s[k..] == s[1..][k - 1..];
        Some(i + 1)
  }

  /**
   * `s.replacingOccurrences(of: p, with: r)`: a left-to-right scan that
   * replaces every non-overlapping occurrence of `p`.
   */
  function ReplaceAll(s: string, p: string, r: string): string
    requires p != []
    decreases |s|
  {
    if p <= s then r + ReplaceAll(s[|p|..], p, r)
    else if s == [] then []
    else [s[0]] + ReplaceAll(s[1..], p, r)
  }

  /** A string that does not contain the pattern is returned unchanged. */
  lemma {:induction false} ReplaceAllAbsent(s: string, p: string, r: string)
    requires p != [] && !Contains(s, p)
    ensures ReplaceAll(s, p, r) == s
  {
    if s != [] {
      ReplaceAllAbsent(s[1..], p, r);
      assert [s[0]] + s[1..] == s;
    }
  }

  /** A leading occurrence of the pattern is replaced and the scan goes on after it. */
  lemma ReplaceAllLeading(s: string, p: string, r: string)
    requires p != []
    ensures ReplaceAll(p + s, p, r) == r + ReplaceAll(s, p, r)
  {
    assert (p + s)[|p|..] == s;
  }

  /** A leading character where the pattern does not start is kept and the scan goes on after it. */
  lemma ReplaceAllSkip(c: char, s: string, p: string, r: string)
    requires p != [] && !(p <= [c] + s)
    ensures ReplaceAll([c] + s, p, r) == [c] + ReplaceAll(s, p, r)
  {
    assert ([c] + s)[1..] == s;
  }

  /** Removing occurrences never lengthens a string, and shortens it whenever there is one. */
  lemma {:induction false} RemoveAllShortens(s: string, p: string)
    requires p != []
    ensures |ReplaceAll(s, p, "")| <= |s|
    ensures Contains(s, p) ==> |ReplaceAll(s, p, "")| < |s|
  {
    if p <= s {
      RemoveAllShortens(s[|p|..], p);
    } else if s != [] {
      RemoveAllShortens(s[1..], p);
    }
  }

  /** Removing every occurrence of `p` leaves `s` as it is exactly when `p` does not occur in `s`. */
  lemma RemoveAllIdentity(s: string, p: string)
    requires p != []
    ensures ReplaceAll(s, p, "") == s <==> !Contains(s, p)
  {
    RemoveAllShortens(s, p);
    if !Contains(s, p) {
      ReplaceAllAbsent(s, p, "");
    }
  }

  /** A pattern holding a character that `s` lacks does not occur in `s`. */
  lemma {:induction false} MissingCharNotContained(s: string, p: string, c: char)
    requires c in p && c !in s
    ensures !Contains(s, p)
  {
    if s != [] {
      MissingCharNotContained(s[1..], p, c);
    }
  }

  /** `s` with every character of `drop` removed, order kept: the reference for `flattened()`. */
  function Without(s: string, drop: set<char>): (r: string)
    ensures forall c :: c in r <==> c in s && c !in drop
  {
    if s == [] then []
    else if s[0] in drop then Without(s[1..], drop)
    else [s[0]] + Without(s[1..], drop)
  }

  /** Replacing a single character by nothing removes exactly that character. */
  lemma {:induction false} RemoveCharIsWithout(s: string, c: char)
    ensures ReplaceAll(s, [c], "") == Without(s, {c})
  {
    if s != [] {
      RemoveCharIsWithout(s[1..], c);
      assert [c] <= s <==> s[0] == c;
    }
  }

  /** Removing two sets of characters one after the other removes their union. */
  lemma {:induction false} WithoutTwice(s: string, a: set<char>, b: set<char>)
    ensures Without(Without(s, a), b) == Without(s, a + b)
  {
    if s != [] {
      WithoutTwice(s[1..], a, b);
    }
  }

  /**
   * Replacing a single character by another string that lacks it leaves
   * no occurrence of the character, and keeps every other character.
   */
  lemma {:induction false} ReplaceCharRemovesIt(s: string, c: char, r: string)
    requires c !in r
    ensures c !in ReplaceAll(s, [c], r)
    ensures forall x :: x in s && x != c ==> x in ReplaceAll(s, [c], r)
  {
    if s != [] {
      ReplaceCharRemovesIt(s[1..], c, r);
      assert [c] <= s <==> s[0] == c;
    }
  }

  /** The default length of `truncated(to:)`. */
  const DefaultTruncation: nat := 100

  /** `s.truncated(to: n)`: the first `n` characters, and "..." when something was cut. */
  function Truncated(s: string, n: nat): (r: string)
    ensures |s| <= n ==> r == s
    ensures |s| > n ==> |r| == n + 3 && r[..n] == s[..n] && r[n..] == "..."
  {
    (if |s| <= n then s else s[..n]) + (if |s| > n then "..." else "")
  }

  /** `s.truncated()`, with the default length. */
  function TruncatedDefault(s: string): (r: string)
    ensures |s| <= DefaultTruncation ==> r == s
    ensures |s| > DefaultTruncation ==> |r| == DefaultTruncation + 3 && r[DefaultTruncation..] == "..."
  {
    Truncated(s, DefaultTruncation)
  }

  /** `s.flattened()`: newlines are removed, then spaces. */
  function Flattened(s: string): string {
    ReplaceAll(ReplaceAll(s, "\n", ""), " ", "")
  }

  /** `flattened()` drops exactly the newlines and spaces and keeps everything else in order. */
  lemma FlattenedIsWithout(s: string)
    ensures Flattened(s) == Without(s, {'\n', ' '})
  {
    RemoveCharIsWithout(s, '\n');
    RemoveCharIsWithout(Without(s, {'\n'}), ' ');
    WithoutTwice(s, {'\n'}, {' '});
    assert {'\n'} + {' '} == {'\n', ' '};
  }

  /** Removing the same characters a second time changes nothing. */
  lemma {:induction false} WithoutIdempotent(s: string, drop: set<char>)
    ensures Without(Without(s, drop), drop) == Without(s, drop)
  {
    if s != [] {
      WithoutIdempotent(s[1..], drop);
    }
  }

  /** `flattened()` is idempotent. */
  lemma FlattenedIdempotent(s: string)
    ensures Flattened(Flattened(s)) == Flattened(s)
  {
    FlattenedIsWithout(s);
    FlattenedIsWithout(Flattened(s));
    WithoutIdempotent(s, {'\n', ' '});
  }

  /** A prefix that lacks the first character of `p` cannot hold the start of an occurrence of `p`. */
  lemma {:induction false} ContainsAfterPrefix(q: string, s: string, p: string)
    requires p != [] && p[0] !in q
    ensures Contains(q + s, p) <==> Contains(s, p)
  {
    if q != [] {
      assert (q + s)[1..] == q[1..] + s;
      ContainsAfterPrefix(q[1..], s, p);
    } else {
      assert q + s == s;
    }
  }
  /** An occurrence at index `k` is an occurrence. */
  lemma {:induction false} ContainsAt(s: string, p: string, k: nat)
    requires k <= |s| && p <= s[k..]
    ensures Contains(s, p)
  {
    if k > 0 {
      assert s[1..][k - 1..] == s[k..];
      ContainsAt(s[1..], p, k - 1);
    }
  }

  /** An occurrence at `k` with none before it is the one `range(of:)` finds. */
  lemma FindFirstAt(s: string, p: string, k: nat)
    requires k <= |s| && p <= s[k..]
    requires forall i :: 0 <= i < k ==> !(p <= s[i..])
    ensures FindFirst(s, p) == Some(k)
  {
    ContainsAt(s, p, k);
  }

  /** No occurrence of `p` in `q + s` starts inside `q`. */
  predicate NoneStartsIn(q: string, s: string, p: string) {
    forall i :: 0 <= i < |q| ==> !(p <= (q + s)[i..])
  }

  /**
   * If `q` lacks the character at position `k` of `p`, an occurrence can
   * only start in the last `k` characters of `q`; so none starts in `q`
   * when none of those is the first character of `p`.
   */
  lemma MissingCharNoStart(q: string, s: string, p: string, k: nat)
    requires k < |p| && p[k] !in q
    requires forall i :: 0 <= i < |q| && |q| <= i + k ==> q[i] != p[0]
    ensures NoneStartsIn(q, s, p)
  {
    forall i | 0 <= i < |q|
      ensures !(p <= (q + s)[i..])
    {
      if i + k < |q| {
        assert (q + s)[i + k] == q[i + k];
      } else {
        assert (q + s)[i] == q[i];
      }
    }
  }

  /** Occurrences starting in `q1 + q2` start in `q1` or in `q2`. */
  lemma NoneStartsInConcat(q1: string, q2: string, s: string, p: string)
    requires NoneStartsIn(q1, q2 + s, p) && NoneStartsIn(q2, s, p)
    ensures NoneStartsIn(q1 + q2, s, p)
  {
    assert q1 + q2 + s == q1 + (q2 + s);
    forall i | |q1| <= i < |q1 + q2|
      ensures !(p <= (q1 + q2 + s)[i..])
    {
      assert (q1 + q2 + s)[i..] == (q2 + s)[i - |q1|..];
    }
  }

  /** Regrouping concatenations to the right. */
  lemma Regroup3(a: string, b: string, c: string)
    ensures a + b + c == a + (b + c)
  {
  }

  lemma Regroup4(a: string, b: string, c: string, d: string)
    ensures a + b + c + d == a + (b + (c + d))
  {
  }

  lemma Regroup5(a: string, b: string, c: string, d: string, e: string)
    ensures a + b + c + d + e == a + (b + (c + (d + e)))
  {
  }

  lemma Regroup6(a: string, b: string, c: string, d: string, e: string, f: string)
    ensures a + b + c + d + e + f == a + (b + (c + (d + (e + f))))
  {
  }
}
