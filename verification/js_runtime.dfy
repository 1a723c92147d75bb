/** The pieces of JavaScript's runtime behaviour that the handlers depend on:
    optional values (`undefined`), truthiness of strings, `Array.prototype.find`
    and `findIndex`, `toLowerCase`, `String()` and `Number()` on record ids, and
    the default `sort()` and `join()` on arrays of strings. */
module JsRuntime {

  /** A value that may be `undefined`/`null`. */
  datatype Option<+T> = None | Some(value: T)

  /** `!!s` for a string field that may be missing: both a missing value and "" are falsy. */
  predicate Truthy(s: Option<string>)
    ensures Truthy(s) ==> s.Some? && |s.value| >= 1
    ensures s == Some("") ==> !Truthy(s)
  {
    s.Some? && s.value != ""
  }

  // ---------------------------------------------------------------------------
  // find / findIndex

  /** `s.findIndex(p)`: the first index whose element satisfies `p`, or -1. */
  function FindIndex<T>(s: seq<T>, p: T -> bool): (k: int)
    ensures -1 <= k < |s|
    ensures k == -1 <==> forall j :: 0 <= j < |s| ==> !p(s[j])
    ensures 0 <= k ==> p(s[k]) && forall j :: 0 <= j < k ==> !p(s[j])
  {
    if s == [] then -1
    else if p(s[0]) then 0
    else
      var k := FindIndex(s[1..], p);
      if k == -1 then -1 else k + 1
  }

  // ---------------------------------------------------------------------------
  // length

  /** `s.length`: the number of UTF-16 code units, so a character outside the
      Basic Multilingual Plane (an emoji, say) counts twice. */
  function Utf16Length(s: string): (n: nat)
    ensures |s| <= n <= 2 * |s|
    ensures (forall i :: 0 <= i < |s| ==> s[i] as int < 0x1_0000) ==> n == |s|
    ensures |s| == 1 ==> n == (if s[0] as int < 0x1_0000 then 1 else 2)
  {
    if s == [] then 0
    else (if s[0] as int < 0x1_0000 then 1 else 2) + Utf16Length(s[1..])
  }

  /** Code units add up over concatenation, so a string's length is the sum
      of its characters' counts: one below U+10000, two above. */
  lemma {:induction false} Utf16LengthAppend(s: string, t: string)
    ensures Utf16Length(s + t) == Utf16Length(s) + Utf16Length(t)
  {
    if s == [] {
      assert s + t == t;
    } else {
      assert (s + t)[1..] == s[1..] + t;
      Utf16LengthAppend(s[1..], t);
    }
  }

  // ---------------------------------------------------------------------------
  // toLowerCase

  function LowerChar(c: char): char {
    if 'A' <= c <= 'Z' then (c as int + 32) as char else c
  }

  /** `s.toLowerCase()`, folding the ASCII letters only. */
  function Lower(s: string): (r: string)
    ensures |r| == |s|
    ensures forall i :: 0 <= i < |r| ==> !('A' <= r[i] <= 'Z')
    ensures forall i :: 0 <= i < |r| ==> r[i] == LowerChar(s[i])
  {
    seq(|s|, i requires 0 <= i < |s| => LowerChar(s[i]))
  }

  // ---------------------------------------------------------------------------
  // String(n) and Number(s) on integer ids

  predicate IsDigit(c: char) {
    '0' <= c <= '9'
  }

  predicate AllDigits(s: string) {
    forall i :: 0 <= i < |s| ==> IsDigit(s[i])
  }

  function DigitChar(d: nat): (c: char)
    requires d < 10
    ensures IsDigit(c)
  {
    ('0' as int + d) as char
  }

  function DigitValue(c: char): nat
    requires IsDigit(c)
  {
    c as int - '0' as int
  }

  /** Decimal rendering of a natural number, most significant digit first. */
  function NatToString(n: nat): (s: string)
    ensures |s| >= 1 && AllDigits(s)
  {
    if n < 10 then [DigitChar(n)] else NatToString(n / 10) + [DigitChar(n % 10)]
  }

  /** `String(n)` for an integer. */
  function IntToString(n: int): (s: string)
    ensures n >= 0 ==> |s| >= 1 && AllDigits(s)
    ensures n < 0 ==> |s| >= 2 && s[0] == '-' && AllDigits(s[1..])
  {
    if n < 0 then "-" + NatToString(-n) else NatToString(n)
  }

  /** The value of a non-empty string of decimal digits. */
  function DigitsValue(s: string): nat
    requires |s| >= 1 && AllDigits(s)
  {
    if |s| == 1 then DigitValue(s[0])
    else DigitsValue(s[..|s| - 1]) * 10 + DigitValue(s[|s| - 1])
  }

  /** `Number(s)` on an id string: "" is 0, an optional minus sign followed by
      decimal digits is that integer, anything else is NaN (None). */
  function ParseNumber(s: string): (r: Option<int>)
    ensures s == "" ==> r == Some(0)
    ensures |s| >= 1 && AllDigits(s) ==> r == Some(DigitsValue(s))
    ensures r.Some? && r.value < 0 ==> s[0] == '-'
    ensures r.None? <==> s != "" && !AllDigits(s) && !(|s| >= 2 && s[0] == '-' && AllDigits(s[1..]))
  {
    if s == "" then Some(0)
    else if s[0] == '-' && |s| >= 2 && AllDigits(s[1..]) then Some(-(DigitsValue(s[1..]) as int))
    else if AllDigits(s) then Some(DigitsValue(s))
    else None
  }

  lemma {:induction false} DigitsValueOfNatToString(n: nat)
    ensures DigitsValue(NatToString(n)) == n
  {
    if n >= 10 {
      var s := NatToString(n / 10) + [DigitChar(n % 10)];
      assert s[..|s| - 1] == NatToString(n / 10);
      DigitsValueOfNatToString(n / 10);
    }
  }

  /** `Number(String(n)) === n`: an id written by `String()` reads back as the same number. */
  lemma ParseNumberOfIntToString(n: int)
    ensures ParseNumber(IntToString(n)) == Some(n)
  {
    var s := IntToString(n);
    if n < 0 {
      assert s[1..] == NatToString(-n);
      DigitsValueOfNatToString(-n);
    } else {
      assert IsDigit(s[0]);
      DigitsValueOfNatToString(n);
    }
  }

  // ---------------------------------------------------------------------------
  // sort() and join() on arrays of strings

  /** The order `Array.prototype.sort()` uses without a comparator: strings
      compared character by character, a proper prefix first. */
  predicate LessEq(a: string, b: string)
    ensures a <= b ==> LessEq(a, b)
    decreases |a|
  {
    a == [] || (b != [] && (a[0] < b[0] || (a[0] == b[0] && LessEq(a[1..], b[1..]))))
  }

  lemma {:induction false} LessEqTotal(a: string, b: string)
    ensures LessEq(a, b) || LessEq(b, a)
    decreases |a|
  {
    if a != [] && b != [] && a[0] == b[0] {
      LessEqTotal(a[1..], b[1..]);
    }
  }

  lemma {:induction false} LessEqAntisymmetric(a: string, b: string)
    requires LessEq(a, b) && LessEq(b, a)
    ensures a == b
    decreases |a|
  {
    if a != [] {
      LessEqAntisymmetric(a[1..], b[1..]);
      assert a == [a[0]] + a[1..] && b == [b[0]] + b[1..];
    }
  }

  lemma {:induction false} LessEqTransitive(a: string, b: string, c: string)
    requires LessEq(a, b) && LessEq(b, c)
    ensures LessEq(a, c)
    decreases |a|
  {
    if a != [] && a[0] == b[0] && b[0] == c[0] {
      LessEqTransitive(a[1..], b[1..], c[1..]);
    }
  }

  predicate Sorted(s: seq<string>) {
    forall i, j :: 0 <= i < j < |s| ==> LessEq(s[i], s[j])
  }

  function Insert(x: string, s: seq<string>): (r: seq<string>)
    ensures |r| == |s| + 1
  {
    if s == [] then [x]
    else if LessEq(x, s[0]) then [x] + s
    else [s[0]] + Insert(x, s[1..])
  }

  /** `a.slice().sort()`. Any correct sorting algorithm gives this same result
      (SortedUnique), so the choice of insertion sort is immaterial. */
  function Sort(s: seq<string>): (r: seq<string>)
    ensures |r| == |s|
  {
    if s == [] then [] else Insert(s[0], Sort(s[1..]))
  }

  /** Putting in front an element no greater than the rest keeps a sequence sorted. */
  lemma SortedCons(y: string, t: seq<string>)
    requires Sorted(t)
    requires forall e :: e in t ==> LessEq(y, e)
    ensures Sorted([y] + t)
  {
  }

  /** The tail of a sorted sequence is sorted. */
  lemma SortedTail(s: seq<string>)
    requires Sorted(s) && s != []
    ensures Sorted(s[1..])
  {
    forall p, q | 0 <= p < q < |s| - 1 ensures LessEq(s[1..][p], s[1..][q]) {
      assert s[1..][p] == s[p + 1] && s[1..][q] == s[q + 1];
    }
  }

  /** The head of a sorted sequence is no greater than anything after it. */
  lemma SortedHeadFirst(s: seq<string>)
    requires Sorted(s) && s != []
    ensures forall e :: e in s[1..] ==> LessEq(s[0], e)
  {
    forall e | e in s[1..] ensures LessEq(s[0], e) {
      var m :| 0 <= m < |s| - 1 && s[1..][m] == e;
      assert s[m + 1] == e;
    }
  }

  /** Insertion adds exactly one occurrence of the element. */
  lemma {:induction false} InsertMultiset(x: string, s: seq<string>)
    ensures multiset(Insert(x, s)) == multiset(s) + multiset{x}
  {
    if s != [] && !LessEq(x, s[0]) {
      InsertMultiset(x, s[1..]);
      assert s == [s[0]] + s[1..];
    }
  }

  lemma {:induction false} InsertSorted(x: string, s: seq<string>)
    requires Sorted(s)
    ensures Sorted(Insert(x, s))
    ensures multiset(Insert(x, s)) == multiset(s) + multiset{x}
  {
    InsertMultiset(x, s);
    if s == [] {
    } else if LessEq(x, s[0]) {
      forall e | e in s ensures LessEq(x, e) {
        var m :| 0 <= m < |s| && s[m] == e;
        if m > 0 {
          LessEqTransitive(x, s[0], e);
        }
      }
      SortedCons(x, s);
    } else {
      var t := s[1..];
      SortedTail(s);
      SortedHeadFirst(s);
      InsertSorted(x, t);
      var it := Insert(x, t);
      LessEqTotal(x, s[0]);
      forall e | e in it ensures LessEq(s[0], e) {
        assert e in multiset(it);
        if e != x {
          assert e in multiset(t);
        }
      }
      SortedCons(s[0], it);
    }
  }

  lemma {:induction false} SortSorted(s: seq<string>)
    ensures Sorted(Sort(s))
    ensures multiset(Sort(s)) == multiset(s)
  {
    if s != [] {
      SortSorted(s[1..]);
      InsertSorted(s[0], Sort(s[1..]));
      assert s == [s[0]] + s[1..];
    }
  }

  /** Removing the head removes one occurrence of it. */
  lemma MultisetTail(s: seq<string>)
    requires s != []
    ensures multiset(s[1..]) == multiset(s) - multiset{s[0]}
  {
    assert s == [s[0]] + s[1..];
  }

  /** Two sorted arrangements of the same strings start alike. */
  lemma SortedHeads(a: seq<string>, b: seq<string>)
    requires Sorted(a) && Sorted(b) && multiset(a) == multiset(b) && a != [] && b != []
    ensures a[0] == b[0]
  {
    assert a[0] in multiset(b);
    var j :| 0 <= j < |b| && b[j] == a[0];
    assert b[0] in multiset(a);
    var i :| 0 <= i < |a| && a[i] == b[0];
    if i > 0 && j > 0 {
      assert LessEq(a[0], a[i]) && LessEq(b[0], b[j]);
      LessEqAntisymmetric(a[0], b[0]);
    }
  }

  /** Two sorted arrangements of the same strings are identical. */
  lemma {:induction false} SortedUnique(a: seq<string>, b: seq<string>)
    requires Sorted(a) && Sorted(b) && multiset(a) == multiset(b)
    ensures a == b
    decreases |a|
  {
    assert |a| == |multiset(a)| == |multiset(b)| == |b|;
    if a != [] {
      SortedHeads(a, b);
      MultisetTail(a);
      MultisetTail(b);
      SortedTail(a);
      SortedTail(b);
      SortedUnique(a[1..], b[1..]);
      assert a == [a[0]] + a[1..] && b == [b[0]] + b[1..];
    }
  }

  /** Sorting forgets the order of its input: permutations sort alike. */
  lemma SortIgnoresOrder(a: seq<string>, b: seq<string>)
    requires multiset(a) == multiset(b)
    ensures Sort(a) == Sort(b)
  {
    SortSorted(a);
    SortSorted(b);
    SortedUnique(Sort(a), Sort(b));
  }

  /** `s.join(sep)`. */
  function Join(s: seq<string>, sep: string): (r: string)
    ensures s == [] ==> r == ""
    ensures |s| == 1 ==> r == s[0]
    ensures |s| >= 2 ==> s[0] + sep <= r
  {
    if s == [] then "" else if |s| == 1 then s[0] else s[0] + sep + Join(s[1..], sep)
  }

  /** Joining one more element appends the separator and that element, so
      the result holds every element, in order, separated by `sep`. */
  lemma {:induction false} JoinAppend(s: seq<string>, x: string, sep: string)
    requires s != []
    ensures Join(s + [x], sep) == Join(s, sep) + sep + x
  {
    if |s| == 1 {
      assert (s + [x])[1..] == [x];
    } else {
      assert (s + [x])[1..] == s[1..] + [x];
      JoinAppend(s[1..], x, sep);
    }
  }
}
