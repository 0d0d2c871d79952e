/**
 * The Python string built-ins the job logic relies on (str.split, int(),
 * str.isdigit(), and the case-insensitive "contains" of the ORM's icontains
 * lookup), defined over Dafny strings. Digits are ASCII digits only.
 */
module Text {
  import opened Wrappers

  /** Number of occurrences of c in s. */
  function Count(s: string, c: char): nat
  {
    if |s| == 0 then 0 else (if s[0] == c then 1 else 0) + Count(s[1..], c)
  }

  /** Glues pieces back together with sep between them: the inverse of Split. */
  function Join(parts: seq<string>, sep: char): string
    requires |parts| > 0
  {
    if |parts| == 1 then parts[0] else parts[0] + [sep] + Join(parts[1..], sep)
  }

  /**
   * str.split(sep) with a one-character separator: every occurrence cuts,
   * so n separators give n + 1 pieces, empty ones included.
   */
  function Split(s: string, sep: char): (parts: seq<string>)
    ensures |parts| == Count(s, sep) + 1
    ensures forall i :: 0 <= i < |parts| ==> sep !in parts[i]
    ensures Join(parts, sep) == s
  {
    if |s| == 0 then [""]
    else
      var rest := Split(s[1..], sep);
      if s[0] == sep then
        assert s == [sep] + s[1..];
        [""] + rest
      else
        var parts := [[s[0]] + rest[0]] + rest[1..];
        assert parts[1..] == rest[1..];
        assert s == [s[0]] + s[1..];
        parts
  }

  /** A string without the separator splits into itself alone. */
  lemma {:induction false} SplitNoSep(a: string, sep: char)
    requires sep !in a
    ensures Split(a, sep) == [a]
  {
    if |a| > 0 {
      SplitNoSep(a[1..], sep);
      assert [a[0]] + a[1..] == a;
    }
  }

  /** Cutting at the first separator. */
  lemma {:induction false} SplitAtFirst(a: string, b: string, sep: char)
    requires sep !in a
    ensures Split(a + [sep] + b, sep) == [a] + Split(b, sep)
  {
    if |a| == 0 {
      assert (a + [sep] + b)[1..] == b;
    } else {
      SplitAtFirst(a[1..], b, sep);
      assert (a + [sep] + b)[1..] == a[1..] + [sep] + b;
      assert [a[0]] + a[1..] == a;
    }
  }

  /** Split undoes Join when no piece holds the separator. */
  lemma {:induction false} SplitJoin(parts: seq<string>, sep: char)
    requires |parts| > 0
    requires forall i :: 0 <= i < |parts| ==> sep !in parts[i]
    ensures Split(Join(parts, sep), sep) == parts
  {
    if |parts| == 1 {
      SplitNoSep(parts[0], sep);
    } else {
      SplitJoin(parts[1..], sep);
      SplitAtFirst(parts[0], Join(parts[1..], sep), sep);
    }
  }

  /** The two-piece case: "a~b" splits into a and b. */
  lemma SplitPair(a: string, b: string, sep: char)
    requires sep !in a && sep !in b
    ensures Split(a + [sep] + b, sep) == [a, b]
  {
    SplitNoSep(b, sep);
    SplitAtFirst(a, b, sep);
  }

  predicate IsDigit(c: char)
  {
    '0' <= c <= '9'
  }

  /** str.isdigit(): non-empty and every character a digit, so no sign and no separator. */
  predicate IsDigits(s: string)
    ensures IsDigits(s) ==> '-' !in s && '~' !in s && ',' !in s
  {
    |s| > 0 && forall i :: 0 <= i < |s| ==> IsDigit(s[i])
  }

  /** The number a digit string denotes in base ten. */
  function DigitsValue(s: string): nat
    requires forall i :: 0 <= i < |s| ==> IsDigit(s[i])
  {
    if |s| == 0 then 0 else DigitsValue(s[..|s| - 1]) * 10 + DigitValue(s[|s| - 1])
  }

  function DigitValue(c: char): nat
    requires IsDigit(c)
  {
    c as int - '0' as int
  }

  /**
   * int(s): an optional leading minus sign followed by one or more digits;
   * anything else raises ValueError, here None.
   */
  function ParseInt(s: string): (r: Option<int>)
    ensures r.Some? ==> |s| > 0 && forall i :: 0 <= i < |s| ==> IsDigit(s[i]) || (i == 0 && s[i] == '-')
    ensures r.Some? && r.value < 0 ==> s[0] == '-'
    ensures r.Some? <==> IsDigits(s) || (|s| > 0 && s[0] == '-' && IsDigits(s[1..]))
  {
    if |s| > 0 && s[0] == '-' && IsDigits(s[1..]) then
      assert forall i :: 1 <= i < |s| ==> s[i] == s[1..][i - 1];
      Some(-(DigitsValue(s[1..]) as int))
    else if IsDigits(s) then Some(DigitsValue(s))
    else None
  }

  /** The decimal spelling of a natural number, most significant digit first. */
  function Decimal(n: nat): (s: string)
    ensures IsDigits(s)
  {
    if n < 10 then [('0' as int + n) as char]
    else Decimal(n / 10) + [('0' as int + n % 10) as char]
  }

  /** int() reads back what Decimal writes, and a leading minus negates it. */
  lemma {:induction false} ParseDecimal(n: nat)
    ensures ParseInt(Decimal(n)) == Some(n)
    ensures n > 0 ==> ParseInt("-" + Decimal(n)) == Some(-(n as int))
  {
    DecimalValue(n);
    assert ("-" + Decimal(n))[1..] == Decimal(n);
  }

  lemma {:induction false} DecimalValue(n: nat)
    ensures DigitsValue(Decimal(n)) == n && Decimal(n)[0] != '-'
  {
    if n >= 10 {
      DecimalValue(n / 10);
      var s := Decimal(n);
      assert s[..|s| - 1] == Decimal(n / 10);
    }
  }

  /** A string that int() accepts holds no tilde and no comma. */
  lemma ParsedChars(s: string)
    requires ParseInt(s).Some?
    ensures '~' !in s && ',' !in s
  {
  }

  function LowerChar(c: char): char
  {
    if 'A' <= c <= 'Z' then (c as int - 'A' as int + 'a' as int) as char else c
  }

  /** ASCII lower-casing, the folding the icontains lookup applies to both sides. */
  function Lower(s: string): (r: string)
    ensures |r| == |s|
    ensures forall i :: 0 <= i < |s| ==> r[i] == LowerChar(s[i])
  {
    seq(|s|, i requires 0 <= i < |s| => LowerChar(s[i]))
  }

  /** t occurs in s starting at position i. */
  predicate OccursAt(s: string, t: string, i: int)
  {
    0 <= i <= |s| - |t| && s[i..i + |t|] == t
  }

  /** Python's `t in s` for strings: t occurs in s as a contiguous piece. */
  predicate Contains(s: string, t: string)
  {
    exists i :: 0 <= i <= |s| - |t| && OccursAt(s, t, i)
  }

  /** A character of t that s lacks rules t out as a piece of s. */
  lemma MissingCharNotContained(s: string, t: string, c: char)
    requires c in t && c !in s
    ensures !Contains(s, t)
  {
  }

  /** Lower-casing a character twice is lower-casing it once. */
  lemma LowerIdempotent(s: string)
    ensures Lower(Lower(s)) == Lower(s)
  {
    assert forall i :: 0 <= i < |s| ==> Lower(Lower(s))[i] == Lower(s)[i];
  }

  /** An occurrence of t in s is an occurrence of lower-cased t in lower-cased s. */
  lemma LowerKeepsOccurrence(s: string, t: string, i: int)
    requires OccursAt(s, t, i)
    ensures OccursAt(Lower(s), Lower(t), i)
  {
    forall k | 0 <= k < |t| ensures Lower(s)[i + k] == Lower(t)[k] {
      assert s[i..i + |t|][k] == t[k];
    }
    assert Lower(s)[i..i + |t|] == Lower(t);
  }

  /** Lower-casing both sides keeps every occurrence, the empty one included. */
  lemma LowerKeepsContains(s: string, t: string)
    ensures t == "" || Contains(s, t) ==> Contains(Lower(s), Lower(t))
  {
    if t == "" {
      assert OccursAt(Lower(s), Lower(t), 0);
    } else if Contains(s, t) {
      var i :| 0 <= i <= |s| - |t| && OccursAt(s, t, i);
      LowerKeepsOccurrence(s, t, i);
    }
  }

  /**
   * The icontains lookup: substring match after lower-casing both sides.
   * The empty term matches every value, an exact occurrence always matches,
   * and a term longer than the value never does.
   */
  predicate ContainsIgnoringCase(s: string, t: string)
    ensures t == "" ==> ContainsIgnoringCase(s, t)
    ensures Contains(s, t) ==> ContainsIgnoringCase(s, t)
    ensures ContainsIgnoringCase(s, t) ==> |t| <= |s|
  {
    LowerKeepsContains(s, t);
    Contains(Lower(s), Lower(t))
  }

  /** The case of the search term makes no difference, nor does the case of the value searched. */
  lemma CaseIgnored(s: string, t: string)
    ensures ContainsIgnoringCase(s, t) <==> ContainsIgnoringCase(s, Lower(t))
    ensures ContainsIgnoringCase(s, t) <==> ContainsIgnoringCase(Lower(s), t)
  {
    LowerIdempotent(t);
    LowerIdempotent(s);
  }
}
