/** The few pieces of JavaScript value semantics the bot's handlers rely on:
    optional (undefined/null) properties, the truthiness test behind `a || b`,
    `Number.prototype.toString()` on non-negative integers, `String.prototype.slice(-k)`,
    `includes`, `startsWith`, ASCII `toLowerCase` and `Array.prototype.join`. */
module Js {

  datatype Option<+T> = None | Some(value: T)

  datatype Result<+T, +E> = Ok(value: T) | Err(error: E)

  // ---------------------------------------------------------------------------
  // Truthiness of optional strings

  /** An optional string property is truthy when it is present and not "". */
  predicate Truthy(o: Option<string>) {
    o.Some? && o.value != ""
  }

  /** `a || b` where both operands are optional strings. */
  function Or(a: Option<string>, b: Option<string>): (r: Option<string>)
    ensures r == a || r == b
  {
    if Truthy(a) then a else b
  }

  /** `a || fallback` where the fallback is a string literal. */
  function OrElse(a: Option<string>, fallback: string): (r: string)
    ensures fallback != "" ==> r != ""
  {
    if Truthy(a) then a.value else fallback
  }

  // ---------------------------------------------------------------------------
  // Decimal digits

  predicate IsDigit(c: char) {
    '0' <= c <= '9'
  }

  predicate AllDigits(s: string) {
    forall i :: 0 <= i < |s| ==> IsDigit(s[i])
  }

  function DigitChar(d: nat): (c: char)
    requires d < 10
    ensures IsDigit(c)
  {
    "0123456789"[d]
  }

  function DigitValue(c: char): (d: nat)
    requires IsDigit(c)
    ensures d < 10
  {
    (c as int - '0' as int) as nat
  }

  lemma DigitCharValue(d: nat)
    requires d < 10
    ensures DigitValue(DigitChar(d)) == d
  {
  }

  function Pow10(k: nat): (p: nat)
    ensures p >= 1
  {
    if k == 0 then 1 else 10 * Pow10(k - 1)
  }

  /** `n.toString()` for a non-negative integer: shortest decimal form, no leading zeros. */
  function Decimal(n: nat): (s: string)
    ensures |s| >= 1 && AllDigits(s)
    ensures s[0] == '0' ==> n == 0
  {
    if n < 10 then [DigitChar(n)] else Decimal(n / 10) + [DigitChar(n % 10)]
  }

  /** The value of a string of decimal digits (the inverse of Decimal and LowDigits). */
  function DecimalValue(s: string): nat
    requires AllDigits(s)
  {
    if s == [] then 0 else 10 * DecimalValue(s[..|s| - 1]) + DigitValue(s[|s| - 1])
  }

  lemma {:induction false} DecimalRoundTrip(n: nat)
    ensures DecimalValue(Decimal(n)) == n
  {
    var s := Decimal(n);
    if n < 10 {
      DigitCharValue(n);
    } else {
      assert s[..|s| - 1] == Decimal(n / 10);
      DecimalRoundTrip(n / 10);
      DigitCharValue(n % 10);
    }
  }

  /** The k low-order decimal digits of n, zero-padded to exactly k characters. */
  function LowDigits(n: nat, k: nat): (s: string)
    ensures |s| == k && AllDigits(s)
  {
    if k == 0 then [] else LowDigits(n / 10, k - 1) + [DigitChar(n % 10)]
  }

  lemma MulAtLeast(m: nat, d: nat)
    requires d >= 1
    ensures m * d >= m
  {
  }

  lemma MulSub(m: nat, a: nat, b: nat)
    requires a >= b
    ensures m * a - m * b == m * (a - b)
  {
  }

  /** Euclidean division is unique. */
  lemma DivModUnique(n: nat, m: nat, q: nat, r: nat)
    requires m > 0 && r < m && n == m * q + r
    ensures n / m == q && n % m == r
  {
    var q', r' := n / m, n % m;
    assert m * q' + r' == m * q + r;
    if q' < q {
      MulSub(m, q, q');
      MulAtLeast(m, q - q');
      assert false;
    } else if q' > q {
      MulSub(m, q', q);
      MulAtLeast(m, q' - q);
      assert false;
    }
  }

  /** Splitting off the last digit commutes with taking the remainder modulo a power of ten. */
  lemma ModSplit(n: nat, p: nat)
    requires p >= 1
    ensures n % (10 * p) == 10 * ((n / 10) % p) + n % 10
  {
    var a, b := n / 10, n % 10;
    var q, r := a / p, a % p;
    assert n == 10 * a + b;
    assert a == p * q + r;
    assert n == (10 * p) * q + (10 * r + b);
    assert 10 * r + b < 10 * p by {
      assert r <= p - 1;
      assert 10 * r <= 10 * p - 10;
    }
    DivModUnique(n, 10 * p, q, 10 * r + b);
  }

  lemma {:induction false} LowDigitsValue(n: nat, k: nat)
    ensures DecimalValue(LowDigits(n, k)) == n % Pow10(k)
  {
    if k > 0 {
      var s := LowDigits(n, k);
      assert s[..|s| - 1] == LowDigits(n / 10, k - 1);
      LowDigitsValue(n / 10, k - 1);
      DigitCharValue(n % 10);
      ModSplit(n, Pow10(k - 1));
    }
  }

  /** LowDigits(n, k) depends on n only through n modulo 10^k. */
  lemma {:induction false} LowDigitsCongruent(n: nat, m: nat, k: nat)
    requires n % Pow10(k) == m % Pow10(k)
    ensures LowDigits(n, k) == LowDigits(m, k)
  {
    if k > 0 {
      var p := Pow10(k - 1);
      ModSplit(n, p);
      ModSplit(m, p);
      var x := n % (10 * p);
      DivModUnique(x, 10, (n / 10) % p, n % 10);
      DivModUnique(x, 10, (m / 10) % p, m % 10);
      LowDigitsCongruent(n / 10, m / 10, k - 1);
    }
  }

  /** Two k-digit suffixes agree exactly when the numbers agree modulo 10^k. */
  lemma LowDigitsAgree(n: nat, m: nat, k: nat)
    ensures LowDigits(n, k) == LowDigits(m, k) <==> n % Pow10(k) == m % Pow10(k)
  {
    if LowDigits(n, k) == LowDigits(m, k) {
      LowDigitsValue(n, k);
      LowDigitsValue(m, k);
    }
    if n % Pow10(k) == m % Pow10(k) {
      LowDigitsCongruent(n, m, k);
    }
  }

  // ---------------------------------------------------------------------------
  // String helpers

  /** `s.slice(-k)` for k > 0: the last k characters, or all of s when it is shorter. */
  function SliceLast(s: string, k: nat): (r: string)
    ensures |r| == if |s| <= k then |s| else k
    ensures r == s[|s| - |r|..]
  {
    if |s| <= k then s else s[|s| - k..]
  }

  /** The decimal form of n has at least k digits once n >= 10^(k-1), and its last k
      characters are then the k low-order digits of n. */
  lemma {:induction false} DecimalSuffix(n: nat, k: nat)
    requires k >= 1 && n >= Pow10(k - 1)
    ensures |Decimal(n)| >= k
    ensures Decimal(n)[|Decimal(n)| - k..] == LowDigits(n, k)
  {
    var last := DigitChar(n % 10);
    var low := LowDigits(n / 10, k - 1);
    assert LowDigits(n, k) == low + [last];
    if n < 10 {
      assert k == 1;
      assert Decimal(n) == [last];
    } else {
      var s := Decimal(n / 10);
      assert Decimal(n) == s + [last];
      if k >= 2 {
        var p := Pow10(k - 2);
        assert n / 10 >= p by {
          assert n >= 10 * p;
          assert n == 10 * (n / 10) + n % 10;
        }
        DecimalSuffix(n / 10, k - 1);
      }
      assert s[|s| - (k - 1)..] == low;
      SuffixOfSnoc(s, last, k);
    }
  }

  lemma ConcatAssoc(a: string, b: string, c: string, d: string)
    ensures a + (b + c + d) == a + b + c + d
  {
  }

  /** The last k elements of s + [c] are the last k - 1 of s followed by c. */
  lemma SuffixOfSnoc<T>(s: seq<T>, c: T, k: nat)
    requires 1 <= k <= |s| + 1
    ensures (s + [c])[|s| + 1 - k..] == s[|s| - (k - 1)..] + [c]
  {
  }

  predicate StartsWith(s: string, prefix: string) {
    |prefix| <= |s| && s[..|prefix|] == prefix
  }

  /** Strings whose first characters differ do not start with one another. */
  lemma HeadsDiffer(s: string, prefix: string)
    requires s != [] && prefix != [] && s[0] != prefix[0]
    ensures !StartsWith(s, prefix)
  {
    if |prefix| <= |s| {
      assert s[..|prefix|][0] == s[0];
    }
  }

  /** `s.includes(sub)`. */
  predicate Contains(s: string, sub: string)
    decreases |s|
  {
    StartsWith(s, sub) || (|s| > 0 && Contains(s[1..], sub))
  }

  /** A string that contains a longer keyword contains each of its prefixes. */
  lemma {:induction false} ContainsPrefixOf(s: string, word: string, prefix: string)
    requires StartsWith(word, prefix) && Contains(s, word)
    ensures Contains(s, prefix)
    decreases |s|
  {
    if StartsWith(s, word) {
      assert s[..|prefix|] == word[..|prefix|];
    } else {
      ContainsPrefixOf(s[1..], word, prefix);
    }
  }

  /** A string that is found inside `s` is found inside any string that ends with `s`. */
  lemma {:induction false} ContainsInSuffix(pre: string, s: string, sub: string)
    requires Contains(s, sub)
    ensures Contains(pre + s, sub)
    decreases |pre|
  {
    if pre != [] {
      assert (pre + s)[1..] == pre[1..] + s;
      ContainsInSuffix(pre[1..], s, sub);
    } else {
      assert pre + s == s;
    }
  }

  /** A string is found inside any concatenation that has it in the middle. */
  lemma ContainsMiddle(pre: string, sub: string, post: string)
    ensures Contains(pre + sub + post, sub)
  {
    assert StartsWith(sub + post, sub) by {
      assert (sub + post)[..|sub|] == sub;
    }
    ContainsInSuffix(pre, sub + post, sub);
    assert pre + sub + post == pre + (sub + post);
  }

  /** A string in which the first character of `sub` never occurs does not contain `sub`. */
  lemma {:induction false} NotContainsWithoutHead(s: string, sub: string)
    requires sub != [] && sub[0] !in s
    ensures !Contains(s, sub)
    decreases |s|
  {
    if |s| > 0 {
      assert forall c :: c in s[1..] ==> c in s;
      NotContainsWithoutHead(s[1..], sub);
    }
  }

  /** An occurrence of `sub` in `pre + s` lies in `s` when `pre` never holds the first
      character of `sub`. */
  lemma {:induction false} ContainsSkip(pre: string, s: string, sub: string)
    requires sub != [] && sub[0] !in pre && Contains(pre + s, sub)
    ensures Contains(s, sub)
    decreases |pre|
  {
    if pre == [] {
      assert pre + s == s;
    } else {
      assert (pre + s)[0] == pre[0];
      assert (pre + s)[1..] == pre[1..] + s;
      assert forall c :: c in pre[1..] ==> c in pre;
      ContainsSkip(pre[1..], s, sub);
    }
  }

  // ---------------------------------------------------------------------------
  // ASCII case mapping

  function LowerChar(c: char): char {
    if 'A' <= c <= 'Z' then (c as int + 32) as char else c
  }

  function UpperChar(c: char): char {
    if 'a' <= c <= 'z' then (c as int - 32) as char else c
  }

  /** `s.toLowerCase()` restricted to ASCII letters. */
  function Lower(s: string): (r: string)
    ensures |r| == |s| && forall i :: 0 <= i < |s| ==> r[i] == LowerChar(s[i])
  {
    seq(|s|, i requires 0 <= i < |s| => LowerChar(s[i]))
  }

  /** `s.toUpperCase()` restricted to ASCII letters. */
  function Upper(s: string): (r: string)
    ensures |r| == |s| && forall i :: 0 <= i < |s| ==> r[i] == UpperChar(s[i])
  {
    seq(|s|, i requires 0 <= i < |s| => UpperChar(s[i]))
  }

  /** Lower-casing forgets whether a letter was upper- or lower-case. */
  lemma LowerOfUpper(s: string)
    ensures Lower(Upper(s)) == Lower(s)
  {
    forall i | 0 <= i < |s|
      ensures Lower(Upper(s))[i] == Lower(s)[i]
    {
      var c := s[i];
      if 'a' <= c <= 'z' {
        assert LowerChar(UpperChar(c)) == c;
      }
    }
  }

  // ---------------------------------------------------------------------------
  // Array.prototype.join

  /** `xs.join(sep)`. */
  function Join(xs: seq<string>, sep: string): string {
    if |xs| == 0 then "" else if |xs| == 1 then xs[0] else xs[0] + sep + Join(xs[1..], sep)
  }

  /** Appending one more element to a non-empty list appends the separator and the element. */
  lemma {:induction false} JoinSnoc(xs: seq<string>, x: string, sep: string)
    requires xs != []
    ensures Join(xs + [x], sep) == Join(xs, sep) + sep + x
  {
    if |xs| == 1 {
      assert xs + [x] == [xs[0], x];
      assert Join([x], sep) == x;
    } else {
      assert (xs + [x])[1..] == xs[1..] + [x];
      JoinSnoc(xs[1..], x, sep);
    }
  }

  /** `s.split(sep)` for a one-character separator. */
  function SplitOn(s: string, sep: char): (r: seq<string>)
    ensures |r| >= 1
    decreases |s|
  {
    if s == [] then [""]
    else if s[0] == sep then [""] + SplitOn(s[1..], sep)
    else
      var rest := SplitOn(s[1..], sep);
      [[s[0]] + rest[0]] + rest[1..]
  }

  /** A piece free of the separator, followed by the separator, splits off as one piece. */
  lemma {:induction false} SplitOnPiece(x: string, sep: char, rest: string)
    requires sep !in x
    ensures SplitOn(x + [sep] + rest, sep) == [x] + SplitOn(rest, sep)
    decreases |x|
  {
    if x == [] {
      assert x + [sep] + rest == [sep] + rest;
      assert ([sep] + rest)[1..] == rest;
    } else {
      assert (x + [sep] + rest)[1..] == x[1..] + [sep] + rest;
      SplitOnPiece(x[1..], sep, rest);
      assert [x[0]] + x[1..] == x;
    }
  }

  /** A string free of the separator splits into itself. */
  lemma {:induction false} SplitOnWhole(x: string, sep: char)
    requires sep !in x
    ensures SplitOn(x, sep) == [x]
    decreases |x|
  {
    if x != [] {
      SplitOnWhole(x[1..], sep);
      assert [x[0]] + x[1..] == x;
    }
  }

  /** Splitting undoes joining, as long as no piece contains the separator. */
  lemma {:induction false} SplitJoin(xs: seq<string>, sep: char)
    requires xs != []
    requires forall i :: 0 <= i < |xs| ==> sep !in xs[i]
    ensures SplitOn(Join(xs, [sep]), sep) == xs
  {
    if |xs| == 1 {
      SplitOnWhole(xs[0], sep);
    } else {
      SplitJoin(xs[1..], sep);
      SplitOnPiece(xs[0], sep, Join(xs[1..], [sep]));
      assert [xs[0]] + xs[1..] == xs;
    }
  }

  /** Splitting recovers the first n pieces of a join as long as those pieces are free of
      the separator, whatever the later pieces hold. */
  lemma {:induction false} SplitJoinPrefix(xs: seq<string>, n: nat, sep: char)
    requires n < |xs|
    requires forall i :: 0 <= i < n ==> sep !in xs[i]
    ensures |SplitOn(Join(xs, [sep]), sep)| > n
    ensures SplitOn(Join(xs, [sep]), sep)[..n] == xs[..n]
  {
    if n > 0 {
      SplitJoinPrefix(xs[1..], n - 1, sep);
      SplitOnPiece(xs[0], sep, Join(xs[1..], [sep]));
      assert xs[..n] == [xs[0]] + xs[1..][..n - 1];
    }
  }

  /** Joining pieces free of a character with a separator free of it gives a string free of it. */
  lemma {:induction false} JoinAvoids(xs: seq<string>, sep: string, c: char)
    requires c !in sep
    requires forall i :: 0 <= i < |xs| ==> c !in xs[i]
    ensures c !in Join(xs, sep)
  {
    if |xs| > 1 {
      JoinAvoids(xs[1..], sep, c);
    }
  }
}
