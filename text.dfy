/** A value that may be absent: `null` in Kotlin, `undefined` in TypeScript. */
module Options {

  datatype Option<+T> = None | Some(value: T) {

    /** The value, or `default` when there is none (the `?:` and `||` fallbacks). */
    function GetOr(default: T): T
    {
      match this
      case Some(v) => v
      case None => default
    }
  }
}

/**
 * The string operations the Kotlin and TypeScript code relies on, with
 * strings as sequences of characters.
 */
module Text {
  import opened Options

  /** Kotlin's `s.startsWith(prefix)` and JavaScript's `s.startsWith(prefix)`. */
  predicate StartsWith(s: string, prefix: string)
  {
    |prefix| <= |s| && s[..|prefix|] == prefix
  }

  /** `pat` occurs in `s` at position `i`. */
  predicate OccursAt(s: string, pat: string, i: nat)
  {
    i + |pat| <= |s| && s[i..i + |pat|] == pat
  }

  /** `pat` occurs somewhere in `s`. */
  predicate Contains(s: string, pat: string)
  {
    exists i: nat :: i <= |s| && OccursAt(s, pat, i)
  }

  /** The first position at or after `from` where `pat` occurs in `s`. */
  function IndexOfFrom(s: string, pat: string, from: nat): (r: Option<nat>)
    requires |pat| > 0
    ensures r.Some? ==> from <= r.value && OccursAt(s, pat, r.value)
    ensures r.Some? ==> forall j: nat :: from <= j < r.value ==> !OccursAt(s, pat, j)
    ensures r.None? ==> forall j: nat :: from <= j ==> !OccursAt(s, pat, j)
    decreases |s| - from
  {
    if from + |pat| > |s| then None
    else if s[from..from + |pat|] == pat then Some(from)
    else IndexOfFrom(s, pat, from + 1)
  }

  /** The first position where `pat` occurs in `s` (Kotlin `indexOf`). */
  function IndexOf(s: string, pat: string): (r: Option<nat>)
    requires |pat| > 0
    ensures r.None? <==> !Contains(s, pat)
    ensures r.Some? ==> OccursAt(s, pat, r.value)
    ensures r.Some? ==> forall j: nat :: j < r.value ==> !OccursAt(s, pat, j)
  {
    IndexOfFrom(s, pat, 0)
  }

  /**
   * Kotlin's `s.split(delim)[1]`: the piece between the first and the second
   * occurrence of `delim`, or up to the end when there is no second one.
   * `None` stands for the IndexOutOfBoundsException thrown when `delim` does
   * not occur at all (the split then has a single piece).
   */
  function SplitField1(s: string, delim: string): (r: Option<string>)
    requires |delim| > 0
    ensures r.None? <==> !Contains(s, delim)
    ensures r.Some? ==> !Contains(r.value, delim)
  {
    match IndexOf(s, delim)
    case None => None
    case Some(i) => Some(FieldUpTo(s[i + |delim|..], delim))
  }

  /**
   * Where `split(delim)[1]` lies: right after the first occurrence of
   * `delim`, running to the end of `s` or to the next occurrence.
   */
  lemma SplitField1Position(s: string, delim: string)
    requires |delim| > 0 && Contains(s, delim)
    ensures var r := SplitField1(s, delim).value;
      var start := IndexOf(s, delim).value + |delim|;
      && start + |r| <= |s|
      && s[start..start + |r|] == r
      && (start + |r| == |s| || OccursAt(s, delim, start + |r|))
  {
    var start := IndexOf(s, delim).value + |delim|;
    assert SplitField1(s, delim) == Some(FieldUpTo(s[start..], delim));
    FieldAfter(s, delim, start);
  }

  /** The field that starts at `start` lies inside `s` and ends at its end or at the next `delim`. */
  lemma FieldAfter(s: string, delim: string, start: nat)
    requires |delim| > 0 && start <= |s|
    ensures var f := FieldUpTo(s[start..], delim);
      && start + |f| <= |s|
      && s[start..start + |f|] == f
      && !Contains(f, delim)
      && (start + |f| == |s| || OccursAt(s, delim, start + |f|))
  {
    var f := FieldUpTo(s[start..], delim);
    assert s[start..start + |f|] == s[start..][..|f|];
    if start + |f| < |s| {
      assert s[start + |f|..start + |f| + |delim|] == s[start..][|f|..|f| + |delim|];
    }
  }

  /** The text of `rest` up to the first occurrence of `delim`, or all of it when there is none. */
  function FieldUpTo(rest: string, delim: string): (r: string)
    requires |delim| > 0
    ensures |r| <= |rest| && rest[..|r|] == r && !Contains(r, delim)
    ensures |r| == |rest| || OccursAt(rest, delim, |r|)
  {
    match IndexOf(rest, delim)
    case None => rest
    case Some(j) =>
      NoOccurrenceInPrefix(rest, delim, j);
      rest[..j]
  }

  /** A prefix of `s` that ends before the first occurrence of `pat` does not contain it. */
  lemma NoOccurrenceInPrefix(s: string, pat: string, k: nat)
    requires |pat| > 0 && k <= |s|
    requires forall j: nat :: j < k ==> !OccursAt(s, pat, j)
    ensures !Contains(s[..k], pat)
  {
    forall j: nat | OccursAt(s[..k], pat, j)
      ensures false
    {
      assert s[j..j + |pat|] == s[..k][j..j + |pat|];
      assert OccursAt(s, pat, j);
    }
  }

  /** The decimal digit for `d`. */
  function DigitChar(d: nat): char
    requires d < 10
  {
    "0123456789"[d]
  }

  /** The value of a decimal digit character. */
  function DigitValue(c: char): nat
  {
    if '0' <= c <= '9' then (c as int - '0' as int) else 0
  }

  predicate IsDigit(c: char)
  {
    '0' <= c <= '9'
  }

  predicate AllDigits(s: string)
  {
    forall i :: 0 <= i < |s| ==> IsDigit(s[i])
  }

  /**
   * The decimal form of a non-negative integer, as JavaScript's template
   * literal `${n}` writes an integral number.
   */
  function NatToString(n: nat): (r: string)
    ensures |r| > 0 && AllDigits(r)
  {
    if n < 10 then [DigitChar(n)]
    else NatToString(n / 10) + [DigitChar(n % 10)]
  }

  /** Reads a string of decimal digits back as a number. */
  function ParseNat(s: string): nat
  {
    if s == [] then 0
    else ParseNat(s[..|s| - 1]) * 10 + DigitValue(s[|s| - 1])
  }

  /** Decimal printing can be undone, so it never maps two numbers to one string. */
  lemma {:induction false} ParseNatToString(n: nat)
    ensures ParseNat(NatToString(n)) == n
  {
    var s := NatToString(n);
    if n < 10 {
      assert s[..|s| - 1] == [];
    } else {
      assert s[..|s| - 1] == NatToString(n / 10);
      ParseNatToString(n / 10);
    }
  }

  lemma NatToStringInjective(m: nat, n: nat)
    requires NatToString(m) == NatToString(n)
    ensures m == n
  {
    ParseNatToString(m);
    ParseNatToString(n);
  }

  /**
   * Two digit strings, each followed by something starting with a non-digit,
   * can only be equal as wholes when the digit strings are equal.
   */
  lemma DigitPrefixUnique(a: string, x: string, b: string, y: string)
    requires AllDigits(a) && AllDigits(b)
    requires |x| > 0 && !IsDigit(x[0]) && |y| > 0 && !IsDigit(y[0])
    requires a + x == b + y
    ensures a == b && x == y
  {
    var k := if |a| < |b| then |a| else |b|;
    assert IsDigit((a + x)[k]) == (k < |a|);
    assert IsDigit((b + y)[k]) == (k < |b|);
    assert a == (a + x)[..|a|] == (b + y)[..|b|] == b;
    assert x == (a + x)[|a|..] == (b + y)[|b|..] == y;
  }

  /** Dropping a common prefix from two equal strings leaves equal strings. */
  lemma CancelPrefix(p: string, x: string, y: string)
    requires p + x == p + y
    ensures x == y
  {
    assert x == (p + x)[|p|..];
    assert y == (p + y)[|p|..];
  }

  /** Strings with a common prefix are equal exactly when their rests are. */
  lemma SamePrefixIff(p: string, x: string, y: string)
    ensures p + x == p + y <==> x == y
  {
    if p + x == p + y {
      CancelPrefix(p, x, y);
    }
  }
}
