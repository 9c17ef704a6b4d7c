/** Strings as the Go sources use them: defaulting, trimming, decimal numbers,
    ordering, and the two ways a separator makes a concatenation unambiguous. */
module Text {

  datatype Option<+T> = None | Some(value: T)

  datatype Result<+T, +E> = Ok(value: T) | Err(error: E)

  /** firstNonEmpty of two values. */
  function OrElse(value: string, fallback: string): string {
    if value != "" then value else fallback
  }

  /** unicode.IsSpace. */
  predicate IsSpace(c: char) {
    c in " \t\n\r\U{000B}\U{000C}\U{0085}\U{00A0}\U{1680}\U{2028}\U{2029}\U{202F}\U{205F}\U{3000}"
    || '\U{2000}' <= c <= '\U{200A}'
  }

  /** strings.TrimSpace. */
  function TrimSpace(s: string): (t: string) {
    if s != "" && IsSpace(s[0]) then TrimSpace(s[1..])
    else if s != "" && IsSpace(s[|s| - 1]) then TrimSpace(s[..|s| - 1])
    else s
  }

  // ----- decimal numbers ("%d") -----

  function Digits(n: nat): string {
    if n < 10 then [('0' as int + n) as char] else Digits(n / 10) + [('0' as int + n % 10) as char]
  }

  function Itoa(n: int): string {
    if n < 0 then "-" + Digits(-n) else Digits(n)
  }

  /** The number a digit string denotes; the inverse of Digits. */
  function DigitsValue(s: string): int {
    if s == "" then 0 else DigitsValue(s[..|s| - 1]) * 10 + s[|s| - 1] as int - '0' as int
  }

  predicate IsDigit(c: char) {
    '0' <= c <= '9'
  }

  lemma {:induction false} DigitsRoundTrip(n: nat)
    ensures DigitsValue(Digits(n)) == n
    ensures Digits(n) != "" && forall c <- Digits(n) :: IsDigit(c)
  {
    if n >= 10 {
      DigitsRoundTrip(n / 10);
      var s := Digits(n);
      assert s[..|s| - 1] == Digits(n / 10);
    }
  }

  lemma ItoaInjective(m: int, n: int)
    requires Itoa(m) == Itoa(n)
    ensures m == n
  {
    DigitsRoundTrip(if m < 0 then -m else m);
    DigitsRoundTrip(if n < 0 then -n else n);
    assert Itoa(m)[0] == '-' <==> m < 0 by { if m >= 0 { assert Digits(m)[0] in Digits(m); } }
    assert Itoa(n)[0] == '-' <==> n < 0 by { if n >= 0 { assert Digits(n)[0] in Digits(n); } }
    if m < 0 {
      assert Itoa(m)[1..] == Digits(-m) && Itoa(n)[1..] == Digits(-n);
    }
  }

  lemma ItoaPlain(n: int)
    ensures Itoa(n) != "" && forall c <- Itoa(n) :: IsDigit(c) || c == '-'
  {
    DigitsRoundTrip(if n < 0 then -n else n);
  }

  // ----- parts of a text -----

  /** The text m stands at position p of s. */
  predicate Occurs(s: string, m: string, p: int) {
    0 <= p && p + |m| <= |s| && s[p..p + |m|] == m
  }

  /** strings.Contains. */
  predicate Contains(s: string, m: string) {
    exists p: nat | p <= |s| :: Occurs(s, m, p)
  }

  /** strings.HasSuffix. */
  predicate HasSuffix(s: string, t: string) {
    |t| <= |s| && s[|s| - |t|..] == t
  }

  // ----- separators -----

  /** A separator absent from both tails splits at its last occurrence. */
  lemma SplitAtLast(a1: string, b1: string, a2: string, b2: string, c: char)
    requires a1 + [c] + b1 == a2 + [c] + b2
    requires c !in b1 && c !in b2
    ensures a1 == a2 && b1 == b2
  {
    var s := a1 + [c] + b1;
    assert s[|a1|] == c && s[|a2|] == c;
    assert forall k :: |a1| < k < |s| ==> s[k] == b1[k - |a1| - 1] && s[k] in b1;
    assert forall k :: |a2| < k < |s| ==> s[k] == b2[k - |a2| - 1] && s[k] in b2;
    assert |a1| == |a2|;
    assert s[..|a1|] == a1 && s[..|a2|] == a2;
    assert s[|a1| + 1..] == b1 && s[|a2| + 1..] == b2;
  }

  /** A separator absent from both heads splits at its first occurrence. */
  lemma SplitAtFirst(a1: string, b1: string, a2: string, b2: string, c: char)
    requires a1 + [c] + b1 == a2 + [c] + b2
    requires c !in a1 && c !in a2
    ensures a1 == a2 && b1 == b2
  {
    var s := a1 + [c] + b1;
    assert s[|a1|] == c && s[|a2|] == c;
    assert forall k :: 0 <= k < |a1| ==> s[k] == a1[k] && s[k] in a1;
    assert forall k :: 0 <= k < |a2| ==> s[k] == a2[k] && s[k] in a2;
    assert |a1| == |a2|;
    assert s[..|a1|] == a1 && s[..|a2|] == a2;
    assert s[|a1| + 1..] == b1 && s[|a2| + 1..] == b2;
  }

  // ----- sorting (sort.Strings over a map's keys) -----

  predicate StrLess(a: string, b: string) {
    b != "" && (a == "" || a[0] < b[0] || (a[0] == b[0] && StrLess(a[1..], b[1..])))
  }

  lemma {:induction false} StrLessTotal(a: string, b: string)
    ensures StrLess(a, b) || a == b || StrLess(b, a)
    ensures !(StrLess(a, b) && StrLess(b, a))
  {
    if a != "" && b != "" {
      StrLessTotal(a[1..], b[1..]);
      assert a[1..] == b[1..] && a[0] == b[0] ==> a == [a[0]] + a[1..] && b == [a[0]] + a[1..];
    }
  }

  lemma {:induction false} StrLessTransitive(a: string, b: string, c: string)
    requires StrLess(a, b) && StrLess(b, c)
    ensures StrLess(a, c)
  {
    if a != "" && a[0] == b[0] == c[0] {
      StrLessTransitive(a[1..], b[1..], c[1..]);
    }
  }

  ghost predicate IsLeast(m: string, keys: set<string>) {
    m in keys && forall k <- keys :: k == m || StrLess(m, k)
  }

  ghost function Least(keys: set<string>): (m: string)
    requires keys != {}
    ensures IsLeast(m, keys)
  {
    var k :| k in keys;
    if keys == {k} then k
    else
      var r := Least(keys - {k});
      StrLessTotal(k, r);
      if StrLess(k, r) then
        assert forall x <- keys :: x == k || StrLess(k, x) by {
          forall x <- keys ensures x == k || StrLess(k, x) {
            if x != k && x != r { StrLessTransitive(k, r, x); }
          }
        }
        k
      else r
  }

  lemma LeastUnique(m: string, keys: set<string>)
    requires IsLeast(m, keys)
    ensures m == Least(keys)
  {
    StrLessTotal(m, Least(keys));
  }

  /** The keys in increasing order. */
  ghost function SortedKeys(keys: set<string>): seq<string> {
    if keys == {} then [] else var m := Least(keys); [m] + SortedKeys(keys - {m})
  }

  lemma {:induction false} SortedKeysSorted(keys: set<string>)
    ensures |SortedKeys(keys)| == |keys|
    ensures forall k :: k in SortedKeys(keys) <==> k in keys
    ensures var s := SortedKeys(keys); forall i, j :: 0 <= i < j < |s| ==> StrLess(s[i], s[j])
  {
    if keys != {} {
      var m := Least(keys);
      SortedKeysSorted(keys - {m});
      var t := SortedKeys(keys - {m});
      assert forall i :: 0 <= i < |t| ==> t[i] in keys - {m};
    }
  }

  lemma SortedKeysDistinct(keys: set<string>)
    ensures var s := SortedKeys(keys); forall i, j :: 0 <= i < j < |s| ==> s[i] != s[j]
  {
    SortedKeysSorted(keys);
    var s := SortedKeys(keys);
    forall i, j | 0 <= i < j < |s| ensures s[i] != s[j] { StrLessTotal(s[i], s[j]); }
  }

  method Minimum(keys: set<string>) returns (m: string)
    requires keys != {}
    ensures m == Least(keys)
  {
    m :| m in keys;
    var rest := keys - {m};
    while rest != {}
      invariant rest <= keys
      invariant IsLeast(m, keys - rest)
    {
      var k :| k in rest;
      StrLessTotal(k, m);
      if StrLess(k, m) {
        forall x <- keys - rest ensures x == m || StrLess(k, x) {
          if x != m { StrLessTransitive(k, m, x); }
        }
        m := k;
      }
      rest := rest - {k};
    }
    LeastUnique(m, keys);
  }

  /** sort.Strings on the keys of a map: the result does not depend on the order
      in which the keys were met. */
  method SortStrings(keys: set<string>) returns (sorted: seq<string>)
    ensures sorted == SortedKeys(keys)
  {
    sorted := [];
    var rest := keys;
    while rest != {}
      invariant SortedKeys(keys) == sorted + SortedKeys(rest)
    {
      var m := Minimum(rest);
      ghost var tail := SortedKeys(rest - {m});
      assert sorted + ([m] + tail) == (sorted + [m]) + tail;
      sorted, rest := sorted + [m], rest - {m};
    }
  }
}
