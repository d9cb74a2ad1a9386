/**
 * The string operations the batch command strategies rely on: Guava's
 * Splitter.on(char).splitToList, String.indexOf(char) and Long.parseLong,
 * each with a partner (Join, FormatLong) and the round trips between them.
 */
module Text {
  import opened Common

  const MinLong: int := -0x8000_0000_0000_0000
  const MaxLong: int := 0x7FFF_FFFF_FFFF_FFFF

  /** String.indexOf(c): the first position of c, or -1 when c does not occur. */
  function IndexOf(s: string, c: char): (i: int)
    ensures -1 <= i < |s|
    ensures i == -1 <==> c !in s
    ensures 0 <= i ==> s[i] == c && c !in s[..i]
  {
    if |s| == 0 then -1
    else if s[0] == c then 0
    else
      var j := IndexOf(s[1..], c);
      if j == -1 then -1
      else
        assert s[..j + 1] == [s[0]] + s[1..][..j];
        j + 1
  }

  /** Splitter.on(sep).splitToList(s): every piece, empty ones included, in order. */
  function Split(s: string, sep: char): (parts: seq<string>)
    ensures |parts| >= 1
    ensures forall k :: 0 <= k < |parts| ==> sep !in parts[k]
    decreases |s|
  {
    var i := IndexOf(s, sep);
    if i == -1 then [s] else [s[..i]] + Split(s[i + 1..], sep)
  }

  /** The inverse of Split: the pieces glued back together with sep. */
  function Join(parts: seq<string>, sep: char): string
    requires |parts| >= 1
  {
    if |parts| == 1 then parts[0] else parts[0] + [sep] + Join(parts[1..], sep)
  }

  /** Splitting loses nothing: joining the pieces gives back the input. */
  lemma {:induction false} JoinSplit(s: string, sep: char)
    ensures Join(Split(s, sep), sep) == s
    decreases |s|
  {
    var i := IndexOf(s, sep);
    if i != -1 {
      var a, b := s[..i], s[i + 1..];
      assert s == a + [sep] + b;
      SplitAt(a, sep, b);
      JoinSplit(b, sep);
      JoinCons(a, Split(b, sep), sep);
    }
  }

  /** Joining a head onto at least one more piece puts one separator between them. */
  lemma JoinCons(head: string, rest: seq<string>, sep: char)
    requires |rest| >= 1
    ensures Join([head] + rest, sep) == head + [sep] + Join(rest, sep)
  {
    assert ([head] + rest)[1..] == rest;
  }

  /** The first separator of a + [sep] + b sits right after a separator-free a. */
  lemma {:induction false} IndexOfAfterPrefix(a: string, sep: char, b: string)
    requires sep !in a
    ensures IndexOf(a + [sep] + b, sep) == |a|
  {
    if a != [] {
      assert (a + [sep] + b)[1..] == a[1..] + [sep] + b;
      IndexOfAfterPrefix(a[1..], sep, b);
    }
  }

  /** Splitting a separator-free a, a separator and b gives a, then the pieces of b. */
  lemma SplitAt(a: string, sep: char, b: string)
    requires sep !in a
    ensures Split(a + [sep] + b, sep) == [a] + Split(b, sep)
  {
    var s := a + [sep] + b;
    IndexOfAfterPrefix(a, sep, b);
    assert s[..|a|] == a;
    assert s[|a| + 1..] == b;
  }

  /** Pieces free of the separator are recovered exactly by splitting their join. */
  lemma {:induction false} SplitJoin(parts: seq<string>, sep: char)
    requires |parts| >= 1
    requires forall k :: 0 <= k < |parts| ==> sep !in parts[k]
    ensures Split(Join(parts, sep), sep) == parts
  {
    if |parts| > 1 {
      var rest := parts[1..];
      assert parts == [parts[0]] + rest;
      JoinCons(parts[0], rest, sep);
      assert sep !in parts[0];
      SplitAt(parts[0], sep, Join(rest, sep));
      SplitJoin(rest, sep);
    } else {
      assert sep !in parts[0];
    }
  }

  predicate IsDigit(c: char) {
    '0' <= c <= '9'
  }

  predicate AllDigits(s: string) {
    forall k :: 0 <= k < |s| ==> IsDigit(s[k])
  }

  /** The number a run of decimal digits denotes, read most significant first. */
  function DigitsValue(s: string): nat
    requires AllDigits(s)
  {
    if s == [] then 0 else DigitsValue(s[..|s| - 1]) * 10 + (s[|s| - 1] - '0') as int
  }

  /** What Long.parseLong accepts, before the range check: an optional sign and at least one digit. */
  predicate LongSyntax(s: string) {
    || (|s| >= 1 && AllDigits(s))
    || (|s| >= 2 && (s[0] == '-' || s[0] == '+') && AllDigits(s[1..]))
  }

  /** The value a well-formed numeral denotes: its sign applied to its digits. */
  function SignedValue(s: string): int
    requires LongSyntax(s)
  {
    if s[0] == '-' then -(DigitsValue(s[1..]) as int)
    else if s[0] == '+' then DigitsValue(s[1..])
    else DigitsValue(s)
  }

  /**
   * Long.parseLong(s): None stands for the NumberFormatException it throws
   * on an empty string, a lone sign, a non-digit or a value outside 64 bits.
   * As in the JDK, an optional sign is read first, then the digits are
   * accumulated negatively against a limit (MinLong for a negative numeral,
   * -MaxLong otherwise), and the sign is applied at the end.
   */
  function ParseLong(s: string): (r: Option<int>)
    ensures r.Some? <==> LongSyntax(s) && MinLong <= SignedValue(s) <= MaxLong
    ensures r.Some? ==> r.value == SignedValue(s)
    ensures r.Some? && AllDigits(s) ==> r.value == DigitsValue(s)
  {
    if |s| == 0 then None
    else
      var negative := s[0] == '-';
      var signed := s[0] == '-' || s[0] == '+';
      var limit := if negative then MinLong else -MaxLong;
      if signed && |s| == 1 then None
      else
        var start := if signed then 1 else 0;
        AccumulateDigitsValue(s, start, start, limit, 0);
        match AccumulateDigits(s, start, limit, 0)
        case None => None
        case Some(result) => Some(if negative then result else -result)
  }

  /**
   * The digit loop of Long.parseLong from position i on, with result the
   * negated value read so far. multmin is limit / 10 as Java's truncating
   * division computes it.
   */
  function AccumulateDigits(s: string, i: nat, limit: int, result: int): Option<int>
    requires i <= |s| && limit < 0
    decreases |s| - i
  {
    if i == |s| then Some(result)
    else if !IsDigit(s[i]) then None
    else
      var digit := (s[i] - '0') as int;
      var multmin := -((-limit) / 10);
      if result < multmin then None
      else if result * 10 < limit + digit then None
      else AccumulateDigits(s, i + 1, limit, result * 10 - digit)
  }

  /**
   * The digit loop succeeds exactly when the remaining characters are digits
   * and the whole run of digits stays within -limit, and it then yields that
   * run's value, negated.
   */
  lemma {:induction false} AccumulateDigitsValue(s: string, start: nat, i: nat, limit: int, result: int)
    requires start <= i <= |s| && limit < 0
    requires AllDigits(s[start..i]) && result == -(DigitsValue(s[start..i]) as int) && result >= limit
    ensures AccumulateDigits(s, i, limit, result)
            == if AllDigits(s[start..]) && -(DigitsValue(s[start..]) as int) >= limit then Some(-(DigitsValue(s[start..]) as int)) else None
    decreases |s| - i
  {
    if i == |s| {
      assert s[start..i] == s[start..];
    } else if !IsDigit(s[i]) {
      assert s[start..][i - start] == s[i];
    } else {
      var digit := (s[i] - '0') as int;
      var next := s[start..i + 1];
      assert next[..|next| - 1] == s[start..i];
      assert AllDigits(next);
      assert DigitsValue(next) == DigitsValue(s[start..i]) * 10 + digit;
      if -(DigitsValue(next) as int) >= limit {
        AccumulateDigitsValue(s, start, i + 1, limit, result * 10 - digit);
      } else if AllDigits(s[start..]) {
        assert s[start..][..i + 1 - start] == next;
        PrefixValueAtMost(s[start..], i + 1 - start);
      }
    }
  }

  /** A run of digits denotes at least as much as any of its prefixes. */
  lemma {:induction false} PrefixValueAtMost(t: string, k: nat)
    requires k <= |t| && AllDigits(t)
    ensures AllDigits(t[..k]) && DigitsValue(t[..k]) <= DigitsValue(t)
    decreases |t| - k
  {
    if k < |t| {
      var init := t[..|t| - 1];
      assert AllDigits(init);
      PrefixValueAtMost(init, k);
      assert init[..k] == t[..k];
      assert DigitsValue(t) == DigitsValue(init) * 10 + (t[|t| - 1] - '0') as int;
    } else {
      assert t[..k] == t;
    }
  }

  /** The decimal digits of n, without leading zeros. */
  function FormatNat(n: nat): (s: string)
    ensures |s| >= 1 && AllDigits(s)
    ensures DigitsValue(s) == n
    ensures |s| > 1 ==> s[0] != '0'
  {
    if n < 10 then [('0' as int + n) as char]
    else
      var prefix := FormatNat(n / 10);
      var s := prefix + [('0' as int + n % 10) as char];
      assert s[..|s| - 1] == prefix;
      s
  }

  /** Long.toString(n): a minus sign for negative values, then the digits. */
  function FormatLong(n: int): string {
    if n < 0 then "-" + FormatNat(-n) else FormatNat(n)
  }

  /** Every 64-bit value survives formatting and parsing. */
  lemma FormatThenParse(n: int)
    requires MinLong <= n <= MaxLong
    ensures ParseLong(FormatLong(n)) == Some(n)
  {
    var s := FormatLong(n);
    if n < 0 {
      assert s[1..] == FormatNat(-n);
    }
  }
}
