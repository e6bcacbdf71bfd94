/** The fragment of Python's built-in behaviour that the bot's logic relies
    on: list indexing and slicing, `str.lower`/`str.upper`, `sorted` on a
    string, `str.startswith`, the `in` test on strings, `int(...)` of one
    character, `str(n)`, truthiness of an optional integer and
    `math.ceil(n / 10)`. */
module Builtins {
  import opened Wrappers

  // ---------------------------------------------------------------------
  // Lists

  /** `s[i]`, including Python's negative indices counted from the end. */
  function PyIndex<T>(s: seq<T>, i: int): (r: Result<T>)
    ensures r.Ok? <==> -|s| <= i < |s|
    ensures 0 <= i < |s| ==> r == Ok(s[i])
    ensures -|s| <= i < 0 ==> r == Ok(s[|s| + i])
  {
    if 0 <= i < |s| then Ok(s[i])
    else if -|s| <= i < 0 then Ok(s[|s| + i])
    else Raise(IndexError)
  }

  /** A slice bound as Python normalises it: negative counts from the end,
      then clamped into `[0, len]`. */
  function SliceBound(len: nat, i: int): (b: nat)
    ensures b <= len
    ensures 0 <= i <= len ==> b == i
  {
    if i < 0 then (if len + i < 0 then 0 else len + i)
    else if i > len then len
    else i
  }

  /** `s[i:j]`: never raises, clamps both bounds. */
  function PySlice<T>(s: seq<T>, i: int, j: int): (r: seq<T>)
    ensures 0 <= i <= j <= |s| ==> r == s[i..j]
    ensures 0 <= i <= j ==> r == s[SliceBound(|s|, i)..SliceBound(|s|, j)]
    ensures |r| <= |s|
  {
    var lo := SliceBound(|s|, i);
    var hi := SliceBound(|s|, j);
    if hi <= lo then [] else s[lo..hi]
  }

  // ---------------------------------------------------------------------
  // Characters and strings

  /** `str.lower` on one character, for Latin and basic Cyrillic letters. */
  function LowerChar(c: char): char {
    if 'A' <= c <= 'Z' then (c as int + 32) as char
    else if 'А' <= c <= 'Я' then (c as int + 32) as char
    else if c == 'Ё' then 'ё'
    else c
  }

  /** `str.upper` on one character, for Latin and basic Cyrillic letters. */
  function UpperChar(c: char): char {
    if 'a' <= c <= 'z' then (c as int - 32) as char
    else if 'а' <= c <= 'я' then (c as int - 32) as char
    else if c == 'ё' then 'Ё'
    else c
  }

  function Lower(s: string): (r: string)
    ensures |r| == |s|
    ensures forall i :: 0 <= i < |s| ==> r[i] == LowerChar(s[i])
  {
    seq(|s|, i requires 0 <= i < |s| => LowerChar(s[i]))
  }

  function Upper(s: string): (r: string)
    ensures |r| == |s|
    ensures forall i :: 0 <= i < |s| ==> r[i] == UpperChar(s[i])
  {
    seq(|s|, i requires 0 <= i < |s| => UpperChar(s[i]))
  }

  /** Lowering a character twice changes nothing more. */
  lemma LowerCharIdempotent(c: char)
    ensures LowerChar(LowerChar(c)) == LowerChar(c)
  {
  }

  lemma LowerConcat(a: string, b: string)
    ensures Lower(a + b) == Lower(a) + Lower(b)
  {
  }

  predicate StartsWith(s: string, prefix: string) {
    |prefix| <= |s| && s[..|prefix|] == prefix
  }

  predicate OccursAt(haystack: string, needle: string, i: int) {
    0 <= i <= |haystack| - |needle| && haystack[i..i + |needle|] == needle
  }

  /** Python's `needle in haystack` on strings: a substring test. */
  predicate Contains(haystack: string, needle: string) {
    exists i | 0 <= i <= |haystack| :: OccursAt(haystack, needle, i)
  }

  predicate IsDigit(c: char) {
    '0' <= c <= '9'
  }

  /** `int(c)` for a one-character string. */
  function DigitValue(c: char): (r: Result<nat>)
    ensures r.Ok? <==> IsDigit(c)
    ensures r.Ok? ==> r.value < 10
  {
    if IsDigit(c) then Ok(c as int - '0' as int) else Raise(ValueError)
  }

  /** `str(n)` for a non-negative integer. */
  function NatToString(n: nat): (s: string)
    ensures |s| >= 1
    ensures forall i :: 0 <= i < |s| ==> IsDigit(s[i])
    decreases n
  {
    var d := [('0' as int + n % 10) as char];
    if n < 10 then d else NatToString(n / 10) + d
  }

  /** `str(n)` for any integer. */
  function IntToString(n: int): (s: string)
    ensures |s| >= 1
  {
    if n < 0 then "-" + NatToString(-n) else NatToString(n)
  }

  /** `int(str(d))` gives back a one-digit number. */
  lemma DigitRoundTrip(n: nat)
    requires n < 10
    ensures |NatToString(n)| == 1
    ensures DigitValue(NatToString(n)[0]) == Ok(n)
  {
    assert NatToString(n) == [('0' as int + n) as char];
  }

  // ---------------------------------------------------------------------
  // `"".join(sorted(s))`: insertion sort on the characters of a string

  predicate SortedChars(s: string) {
    forall i, j :: 0 <= i < j < |s| ==> s[i] <= s[j]
  }

  function InsertChar(c: char, s: string): (r: string)
    requires SortedChars(s)
    ensures SortedChars(r)
    ensures multiset(r) == multiset(s) + multiset{c}
    ensures |r| == |s| + 1
    ensures r[0] == c || (|s| > 0 && r[0] == s[0])
  {
    if |s| == 0 then [c]
    else if c <= s[0] then [c] + s
    else
      var rest := InsertChar(c, s[1..]);
      assert s == [s[0]] + s[1..];
      assert s[0] <= rest[0];
      [s[0]] + rest
  }

  function SortString(s: string): (r: string)
    ensures SortedChars(r)
    ensures multiset(r) == multiset(s)
    ensures |r| == |s|
  {
    if |s| == 0 then []
    else
      assert s == s[..|s| - 1] + [s[|s| - 1]];
      InsertChar(s[|s| - 1], SortString(s[..|s| - 1]))
  }

  /** The head of a sorted string is its least character. */
  lemma SortedHeadLeast(a: string, x: char)
    requires SortedChars(a) && x in multiset(a)
    ensures a[0] <= x
  {
    assert x in a;
    var i :| 0 <= i < |a| && a[i] == x;
  }

  /** A string's characters are its head and the characters of its tail. */
  lemma HeadSplit(a: string)
    requires |a| > 0
    ensures multiset(a) == multiset{a[0]} + multiset(a[1..])
    ensures a[0] in multiset(a)
  {
    assert a == [a[0]] + a[1..];
  }

  lemma MultisetCancel(x: char, m: multiset<char>, n: multiset<char>)
    requires multiset{x} + m == multiset{x} + n
    ensures m == n
  {
    assert m == (multiset{x} + m) - multiset{x};
    assert n == (multiset{x} + n) - multiset{x};
  }

  /** Two sorted strings with the same characters start alike, and their
      tails have the same characters too. */
  lemma SortedHeads(a: string, b: string)
    requires SortedChars(a) && SortedChars(b)
    requires multiset(a) == multiset(b) && |a| > 0
    ensures |b| > 0 && a[0] == b[0]
    ensures multiset(a[1..]) == multiset(b[1..])
  {
    assert |a| == |multiset(a)| == |multiset(b)| == |b|;
    HeadSplit(a);
    HeadSplit(b);
    SortedHeadLeast(b, a[0]);
    SortedHeadLeast(a, b[0]);
    MultisetCancel(a[0], multiset(a[1..]), multiset(b[1..]));
  }

  /** A sorted string is determined by its multiset of characters. */
  lemma {:induction false} SortedUnique(a: string, b: string)
    requires SortedChars(a) && SortedChars(b)
    requires multiset(a) == multiset(b)
    ensures a == b
    decreases |a|
  {
    if |a| == 0 {
      assert |b| == |multiset(b)| == |multiset(a)| == 0;
    } else {
      SortedHeads(a, b);
      SortedUnique(a[1..], b[1..]);
      assert a == [a[0]] + a[1..] && b == [b[0]] + b[1..];
    }
  }

  /** Comparing sorted strings is comparing character multisets. */
  lemma SortStringEqIff(a: string, b: string)
    ensures SortString(a) == SortString(b) <==> multiset(a) == multiset(b)
  {
    if multiset(a) == multiset(b) {
      SortedUnique(SortString(a), SortString(b));
    }
  }

  /** A sorted string is its own sort. */
  lemma SortSorted(s: string)
    requires SortedChars(s)
    ensures SortString(s) == s
  {
    SortedUnique(SortString(s), s);
  }

  // ---------------------------------------------------------------------
  // List comprehensions with a condition, and `list.sort(key=...)`

  /** `[x for x in s if keep(x)]`. */
  function Filter<T(==,!new)>(s: seq<T>, keep: T -> bool): (r: seq<T>)
    ensures |r| <= |s|
    ensures forall x :: multiset(r)[x] == (if keep(x) then multiset(s)[x] else 0)
    ensures forall k :: 0 <= k < |r| ==> keep(r[k])
  {
    if |s| == 0 then []
    else
      assert s == s[..|s| - 1] + [s[|s| - 1]];
      Filter(s[..|s| - 1], keep) + (if keep(s[|s| - 1]) then [s[|s| - 1]] else [])
  }

  predicate SortedBy<T>(s: seq<T>, key: T -> int) {
    forall i, j :: 0 <= i < j < |s| ==> key(s[i]) <= key(s[j])
  }

  /** The elements of `s` whose key is `k`, in their order in `s`. */
  function WithKey<T>(s: seq<T>, key: T -> int, k: int): seq<T> {
    if |s| == 0 then []
    else (if key(s[0]) == k then [s[0]] else []) + WithKey(s[1..], key, k)
  }

  /** Inserts `x` after every element whose key is not greater. */
  function InsertBy<T(==)>(x: T, s: seq<T>, key: T -> int): (r: seq<T>)
    requires SortedBy(s, key)
    ensures SortedBy(r, key)
    ensures multiset(r) == multiset(s) + multiset{x}
    ensures |r| == |s| + 1
    ensures r[0] == x || (|s| > 0 && r[0] == s[0])
  {
    if |s| == 0 then [x]
    else if key(x) < key(s[0]) then [x] + s
    else
      var rest := InsertBy(x, s[1..], key);
      assert s == [s[0]] + s[1..];
      assert key(s[0]) <= key(rest[0]);
      [s[0]] + rest
  }

  /** Python's stable `sorted(s, key=key)`, as an insertion sort. */
  function SortBy<T(==)>(s: seq<T>, key: T -> int): (r: seq<T>)
    ensures SortedBy(r, key)
    ensures multiset(r) == multiset(s)
    ensures |r| == |s|
  {
    if |s| == 0 then []
    else
      assert s == s[..|s| - 1] + [s[|s| - 1]];
      InsertBy(s[|s| - 1], SortBy(s[..|s| - 1], key), key)
  }

  lemma WithKeyAppend<T>(a: seq<T>, b: seq<T>, key: T -> int, k: int)
    ensures WithKey(a + b, key, k) == WithKey(a, key, k) + WithKey(b, key, k)
  {
    if |a| > 0 {
      assert (a + b)[0] == a[0] && (a + b)[1..] == a[1..] + b;
      WithKeyAppend(a[1..], b, key, k);
    } else {
      assert a + b == b;
    }
  }

  /** In a sorted list, nothing has a key below the head's. */
  lemma WithKeyBelowHead<T>(s: seq<T>, key: T -> int, k: int)
    requires SortedBy(s, key) && |s| > 0 && k < key(s[0])
    ensures WithKey(s, key, k) == []
    decreases |s|
  {
    if |s| > 1 {
      WithKeyBelowHead(s[1..], key, k);
    }
  }

  /** Inserting before the head: only `x` can carry a key that low. */
  lemma InsertByWithKeyFront<T>(x: T, s: seq<T>, key: T -> int, k: int)
    requires SortedBy(s, key) && |s| > 0 && key(x) < key(s[0])
    ensures WithKey(InsertBy(x, s, key), key, k)
         == WithKey(s, key, k) + (if key(x) == k then [x] else [])
  {
    assert InsertBy(x, s, key) == [x] + s;
    assert ([x] + s)[1..] == s;
    if key(x) == k {
      WithKeyBelowHead(s, key, k);
    }
  }

  lemma ConcatAssoc<T>(a: seq<T>, b: seq<T>, c: seq<T>)
    ensures a + (b + c) == (a + b) + c
  {
  }

  /** Inserting past the head: the head's contribution comes first on both
      sides, and the rest is the insertion into the tail. */
  lemma InsertByWithKeyStep<T>(x: T, s: seq<T>, key: T -> int, k: int)
    requires SortedBy(s, key) && |s| > 0 && key(x) >= key(s[0])
    requires WithKey(InsertBy(x, s[1..], key), key, k)
          == WithKey(s[1..], key, k) + (if key(x) == k then [x] else [])
    ensures WithKey(InsertBy(x, s, key), key, k)
         == WithKey(s, key, k) + (if key(x) == k then [x] else [])
  {
    var rest := InsertBy(x, s[1..], key);
    var head := if key(s[0]) == k then [s[0]] else [];
    var tail := if key(x) == k then [x] else [];
    assert InsertBy(x, s, key) == [s[0]] + rest;
    assert ([s[0]] + rest)[1..] == rest;
    assert WithKey([s[0]] + rest, key, k) == head + WithKey(rest, key, k);
    assert WithKey(s, key, k) == head + WithKey(s[1..], key, k);
    ConcatAssoc(head, WithKey(s[1..], key, k), tail);
  }

  lemma {:induction false} InsertByWithKey<T>(x: T, s: seq<T>, key: T -> int, k: int)
    requires SortedBy(s, key)
    ensures WithKey(InsertBy(x, s, key), key, k)
         == WithKey(s, key, k) + (if key(x) == k then [x] else [])
    decreases |s|
  {
    if |s| == 0 {
    } else if key(x) < key(s[0]) {
      InsertByWithKeyFront(x, s, key, k);
    } else {
      InsertByWithKey(x, s[1..], key, k);
      InsertByWithKeyStep(x, s, key, k);
    }
  }

  /** `SortBy` is stable: the elements sharing one key keep their order. */
  lemma {:induction false} SortByStable<T>(s: seq<T>, key: T -> int, k: int)
    ensures WithKey(SortBy(s, key), key, k) == WithKey(s, key, k)
    decreases |s|
  {
    if |s| > 0 {
      var init, last := s[..|s| - 1], s[|s| - 1];
      assert s == init + [last];
      assert SortBy(s, key) == InsertBy(last, SortBy(init, key), key);
      SortByStable(init, key, k);
      InsertByWithKey(last, SortBy(init, key), key, k);
      WithKeyAppend(init, [last], key, k);
      assert WithKey([last], key, k) == (if key(last) == k then [last] else []) + WithKey([], key, k);
    }
  }

  // ---------------------------------------------------------------------
  // Numbers

  /** Python truthiness of an optional message id: `None` and `0` are false. */
  predicate Truthy(o: Option<int>) {
    o.Some? && o.value != 0
  }

  /** `math.ceil(n / 10)` for a list length `n`. */
  function CeilTenth(n: nat): (h: nat)
    ensures 10 * h >= n
    ensures 10 * (h - 1) < n || (n == 0 && h == 0)
  {
    (n + 9) / 10
  }
}
