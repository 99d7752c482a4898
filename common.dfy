/**
 * Shared vocabulary: an optional value, iteration orders of Java hash
 * collections, and the two pieces of java.lang.String behaviour the pipeline
 * relies on (String.valueOf of an int and String.compareTo).
 */
module Common {

  datatype Option<T> = None | Some(value: T)

  /** `order` lists every element of `s` exactly once. A HashSet or a
      HashMap's key set is iterated in some such order, which Java leaves
      unspecified; the model takes it as an input. */
  ghost predicate Enumerates<T(!new)>(order: seq<T>, s: set<T>)
  {
    && (forall i, j :: 0 <= i < j < |order| ==> order[i] != order[j])
    && (forall x :: x in order <==> x in s)
  }

  /** The set of elements of a sequence. */
  function Elements<T(!new)>(xs: seq<T>): (s: set<T>)
    ensures forall x :: x in s <==> x in xs
  {
    set x | x in xs
  }

  /** Dropping the last element of an enumeration enumerates the rest of the set. */
  lemma EnumeratesInit<T(!new)>(order: seq<T>, s: set<T>)
    requires Enumerates(order, s) && order != []
    ensures Enumerates(order[..|order| - 1], s - {order[|order| - 1]})
  {
    var init, x := order[..|order| - 1], order[|order| - 1];
    forall y ensures y in init <==> y in s - {x} {
      if y in s - {x} {
        var k :| 0 <= k < |order| && order[k] == y;
        assert init[k] == y;
      }
    }
  }

  /** An enumeration of a set is as long as the set is large. */
  lemma {:induction false} EnumerationLength<T(!new)>(order: seq<T>, s: set<T>)
    requires Enumerates(order, s)
    ensures |order| == |s|
    decreases |order|
  {
    if order != [] {
      EnumeratesInit(order, s);
      EnumerationLength(order[..|order| - 1], s - {order[|order| - 1]});
    } else {
      assert s == {};
    }
  }

  // ---------------------------------------------------------------------
  // String.valueOf(int)

  function DigitChar(d: nat): (c: char)
    requires d < 10
  {
    ('0' as int + d) as char
  }

  /** Decimal digits of a natural number, most significant first. */
  function Digits(n: nat): (s: string)
    ensures 1 <= |s|
    ensures n < 10 <==> |s| == 1
    ensures '0' <= s[0] <= '9'
    decreases n
  {
    if n < 10 then [DigitChar(n)] else Digits(n / 10) + [DigitChar(n % 10)]
  }

  /** String.valueOf(n) for an int: a minus sign for negatives, no leading zeros. */
  function DecimalString(n: int): (s: string)
    ensures 1 <= |s|
    ensures n < 0 <==> s[0] == '-'
  {
    if n < 0 then "-" + Digits(-n) else Digits(n)
  }

  /** The only int whose decimal text equals "1" is 1. */
  lemma DecimalStringIsOne(n: int)
    ensures DecimalString(n) == "1" <==> n == 1
  {
    if 0 <= n < 10 {
      assert DecimalString(n) == [DigitChar(n)];
    }
  }

  /** Distinct naturals have distinct digit strings. */
  lemma {:induction false} DigitsInjective(m: nat, n: nat)
    requires Digits(m) == Digits(n)
    ensures m == n
    decreases m
  {
    if m >= 10 && n >= 10 {
      var dm, dn := Digits(m), Digits(n);
      assert dm[..|dm| - 1] == Digits(m / 10) && dn[..|dn| - 1] == Digits(n / 10);
      assert DigitChar(m % 10) == dm[|dm| - 1];
      DigitsInjective(m / 10, n / 10);
    } else if m < 10 && n < 10 {
      assert DigitChar(m) == Digits(m)[0];
    }
  }

  /** Distinct ints have distinct decimal texts, so the text is a faithful
      map key for a character id. */
  lemma DecimalStringInjective(m: int, n: int)
    requires DecimalString(m) == DecimalString(n)
    ensures m == n
  {
    if m < 0 {
      assert DecimalString(m)[1..] == Digits(-m) && DecimalString(n)[1..] == Digits(-n);
      DigitsInjective(-m, -n);
    } else {
      DigitsInjective(m, n);
    }
  }

  // ---------------------------------------------------------------------
  // String.compareTo

  /** `a.compareTo(b) <= 0`: lexicographic by character, a proper prefix first. */
  predicate StrLe(a: string, b: string)
    decreases |a|
  {
    if a == [] then true
    else if b == [] then false
    else if a[0] != b[0] then a[0] < b[0]
    else StrLe(a[1..], b[1..])
  }

  /** `a.compareTo(b) < 0`. */
  predicate StrLt(a: string, b: string)
  {
    StrLe(a, b) && a != b
  }

  lemma {:induction false} StrLeReflexive(a: string)
    ensures StrLe(a, a)
    decreases |a|
  {
    if a != [] {
      StrLeReflexive(a[1..]);
    }
  }

  lemma {:induction false} StrLeTotal(a: string, b: string)
    ensures StrLe(a, b) || StrLe(b, a)
    decreases |a|
  {
    if a != [] && b != [] && a[0] == b[0] {
      StrLeTotal(a[1..], b[1..]);
    }
  }

  lemma {:induction false} StrLeAntisymmetric(a: string, b: string)
    requires StrLe(a, b) && StrLe(b, a)
    ensures a == b
    decreases |a|
  {
    if a != [] && b != [] {
      StrLeAntisymmetric(a[1..], b[1..]);
      assert a == [a[0]] + a[1..] && b == [b[0]] + b[1..];
    }
  }

  lemma {:induction false} StrLeTransitive(a: string, b: string, c: string)
    requires StrLe(a, b) && StrLe(b, c)
    ensures StrLe(a, c)
    decreases |a|
  {
    if a != [] && b != [] && c != [] && a[0] == b[0] && b[0] == c[0] {
      StrLeTransitive(a[1..], b[1..], c[1..]);
    }
  }
}
