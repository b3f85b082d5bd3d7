/** Go's string order and the sort that directory listings go through. */
module Order {
  predicate Less(a: string, b: string) {
    b != [] && (a == [] || a[0] < b[0] || (a[0] == b[0] && Less(a[1..], b[1..])))
  }

  /** The order spelled out: behind what they have in common, a ends or has the smaller
      character. */
  ghost predicate Precedes(a: string, b: string) {
    exists k :: 0 <= k <= |a| && k < |b| && a[..k] == b[..k] && (k == |a| || a[k] < b[k])
  }

  lemma {:induction false} LessExact(a: string, b: string)
    ensures Less(a, b) <==> Precedes(a, b)
  {
    if a != [] && b != [] && a[0] == b[0] {
      LessExact(a[1..], b[1..]);
      if Precedes(a[1..], b[1..]) {
        var k :| 0 <= k <= |a[1..]| && k < |b[1..]| && a[1..][..k] == b[1..][..k]
            && (k == |a[1..]| || a[1..][k] < b[1..][k]);
        assert a[..k + 1] == [a[0]] + a[1..][..k] && b[..k + 1] == [b[0]] + b[1..][..k];
      }
      if Precedes(a, b) {
        var k :| 0 <= k <= |a| && k < |b| && a[..k] == b[..k] && (k == |a| || a[k] < b[k]);
        assert k > 0;
        assert a[1..][..k - 1] == a[..k][1..] && b[1..][..k - 1] == b[..k][1..];
      }
    } else if b != [] {
      assert a[..0] == b[..0];
    }
  }

  lemma {:induction false} LessTotal(a: string, b: string)
    ensures Less(a, b) || a == b || Less(b, a)
    ensures !(Less(a, b) && Less(b, a))
    ensures !Less(a, a)
  {
    if a != [] && b != [] {
      LessTotal(a[1..], b[1..]);
      assert a == [a[0]] + a[1..] && b == [b[0]] + b[1..];
    }
    if a != [] {
      LessTotal(a[1..], a[1..]);
    }
  }

  lemma {:induction false} LessTransitive(a: string, b: string, c: string)
    requires Less(a, b) && Less(b, c)
    ensures Less(a, c)
  {
    if a != [] && a[0] == b[0] == c[0] {
      LessTransitive(a[1..], b[1..], c[1..]);
    }
  }

  function Insert<T>(x: T, s: seq<T>, key: T -> string): seq<T> {
    if s == [] || Less(key(x), key(s[0])) then [x] + s
    else [s[0]] + Insert(x, s[1..], key)
  }

  function SortBy<T>(s: seq<T>, key: T -> string): seq<T> {
    if s == [] then [] else Insert(s[0], SortBy(s[1..], key), key)
  }

  /** Each name precedes all that come after it. */
  ghost predicate Ascending<T>(s: seq<T>, key: T -> string) {
    forall i, j :: 0 <= i < j < |s| ==> Precedes(key(s[i]), key(s[j]))
  }

  ghost predicate Rising<T>(s: seq<T>, key: T -> string) {
    forall i, j :: 0 <= i < j < |s| ==> Less(key(s[i]), key(s[j]))
  }

  lemma AscendingIff<T>(s: seq<T>, key: T -> string)
    ensures Ascending(s, key) <==> Rising(s, key)
  {
    forall i, j | 0 <= i < j < |s| ensures Less(key(s[i]), key(s[j])) <==> Precedes(key(s[i]), key(s[j])) {
      LessExact(key(s[i]), key(s[j]));
    }
  }

  ghost predicate DistinctKeys<T>(s: seq<T>, key: T -> string) {
    forall i, j :: 0 <= i < j < |s| ==> key(s[i]) != key(s[j])
  }

  lemma {:induction false} InsertContents<T>(x: T, s: seq<T>, key: T -> string)
    ensures multiset(Insert(x, s, key)) == multiset{x} + multiset(s)
  {
    if s != [] && !Less(key(x), key(s[0])) {
      InsertContents(x, s[1..], key);
      assert s == [s[0]] + s[1..];
    }
  }

  lemma {:induction false} InsertRising<T>(x: T, s: seq<T>, key: T -> string)
    requires Rising(s, key) && forall y :: y in s ==> key(y) != key(x)
    ensures Rising(Insert(x, s, key), key)
  {
    if s == [] {
    } else if Less(key(x), key(s[0])) {
      forall j | 0 < j < |s| ensures Less(key(x), key(s[j])) {
        LessTransitive(key(x), key(s[0]), key(s[j]));
      }
    } else {
      InsertRising(x, s[1..], key);
      InsertContents(x, s[1..], key);
      var t := Insert(x, s[1..], key);
      LessTotal(key(x), key(s[0]));
      forall j | 0 <= j < |t| ensures Less(key(s[0]), key(t[j])) {
        assert t[j] in multiset(t);
        assert t[j] == x || t[j] in s[1..];
      }
    }
  }

  lemma {:induction false} SortByRising<T>(s: seq<T>, key: T -> string)
    ensures multiset(SortBy(s, key)) == multiset(s)
    ensures DistinctKeys(s, key) ==> Rising(SortBy(s, key), key)
  {
    if s != [] {
      SortByRising(s[1..], key);
      InsertContents(s[0], SortBy(s[1..], key), key);
      assert s == [s[0]] + s[1..];
      if DistinctKeys(s, key) {
        var t := SortBy(s[1..], key);
        forall y | y in t ensures key(y) != key(s[0]) {
          assert y in multiset(t);
          assert y in s[1..];
        }
        InsertRising(s[0], t, key);
      }
    }
  }

  /** Sorting keeps the elements and puts distinct keys in strictly ascending order. */
  lemma SortByCorrect<T>(s: seq<T>, key: T -> string)
    ensures multiset(SortBy(s, key)) == multiset(s)
    ensures DistinctKeys(s, key) ==> Ascending(SortBy(s, key), key)
  {
    SortByRising(s, key);
    AscendingIff(SortBy(s, key), key);
  }

  /** A set of names has only one strictly ascending enumeration. */
  lemma AscendingUnique(s: seq<string>, t: seq<string>)
    requires Ascending(s, (x: string) => x) && Ascending(t, (x: string) => x)
    requires forall x :: x in s <==> x in t
    ensures s == t
  {
    AscendingIff(s, (x: string) => x);
    AscendingIff(t, (x: string) => x);
    RisingUnique(s, t);
  }

  lemma {:induction false} RisingUnique(s: seq<string>, t: seq<string>)
    requires Rising(s, (x: string) => x) && Rising(t, (x: string) => x)
    requires forall x :: x in s <==> x in t
    ensures s == t
  {
    assert |t| > 0 ==> t[0] in t && t[0] in s;
    if s != [] {
      assert s[0] in t && t != [] && t[0] in s;
      LessTotal(s[0], t[0]);
      LessTotal(s[0], s[0]);
      assert s[0] == t[0];
      forall x ensures x in s[1..] <==> x in t[1..] {
        LessTotal(x, x);
        if x in s[1..] { assert x in t && x != t[0]; }
        if x in t[1..] { assert x in s && x != s[0]; }
      }
      assert Rising(s[1..], (x: string) => x) && Rising(t[1..], (x: string) => x);
      RisingUnique(s[1..], t[1..]);
    }
  }
}
