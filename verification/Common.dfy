/** Outcomes shared by the operations: the program's optional values and exceptions. */
module Outcomes {
  datatype Option<+T> = None | Some(value: T)

  datatype Result<+T, +E> = Ok(value: T) | Err(error: E)
}

/** JSON documents and their text; the text codec itself is a parameter. */
module Documents {
  import opened Outcomes

  type byte = x: int | 0 <= x < 256

  datatype Json =
    | Null
    | Bool(b: bool)
    | Int(n: int)
    | Str(s: string)
    | Arr(items: seq<Json>)
    | Obj(fields: map<string, Json>)

  /** Encoding a document to bytes and parsing bytes. */
  datatype JsonText = JsonText(dumps: Json -> seq<byte>, loads: seq<byte> -> Option<Json>)

  ghost predicate Faithful(text: JsonText)
  {
    forall j :: text.loads(text.dumps(j)) == Some(j)
  }
}

/** The strict order on text used by every `ORDER BY`, keyset comparison and sorted lock pass. */
module Text {

  predicate Less(a: string, b: string)
  {
    b != [] && (a == [] || a[0] < b[0] || (a[0] == b[0] && Less(a[1..], b[1..])))
  }

  lemma {:induction false} LessIsIrreflexive(a: string)
    ensures !Less(a, a)
  {
    if a != [] {
      LessIsIrreflexive(a[1..]);
    }
  }

  lemma {:induction false} LessIsTransitive(a: string, b: string, c: string)
    requires Less(a, b) && Less(b, c)
    ensures Less(a, c)
  {
    if a != [] && a[0] == b[0] == c[0] {
      LessIsTransitive(a[1..], b[1..], c[1..]);
    }
  }

  lemma {:induction false} LessIsTotal(a: string, b: string)
    ensures a == b || Less(a, b) || Less(b, a)
  {
    if a != [] && b != [] && a[0] == b[0] {
      LessIsTotal(a[1..], b[1..]);
      assert a == [a[0]] + a[1..] && b == [b[0]] + b[1..];
    }
  }

  lemma EqualPrefixesStartAlike(a: string, b: string)
    requires a != "" && b != ""
    ensures forall k: nat :: 0 < k <= |a| && k <= |b| && a[..k] == b[..k] ==> a[0] == b[0]
  {
    forall k: nat | 0 < k <= |a| && k <= |b| && a[..k] == b[..k] ensures a[0] == b[0] {
      assert a[0] == a[..k][0];
    }
  }

  /** One text comes before another when it is a proper prefix, or smaller at the first place where they differ. */
  lemma {:induction false} LessIsLexicographic(a: string, b: string)
    ensures Less(a, b) <==>
      exists k: nat :: k <= |a| && k < |b| && a[..k] == b[..k] && (k == |a| || a[k] < b[k])
  {
    if a == "" {
      assert b != "" ==> a[..0] == b[..0];
    } else if b != "" {
      LessIsLexicographic(a[1..], b[1..]);
      if a[0] == b[0] {
        if Less(a[1..], b[1..]) {
          var k: nat :| k <= |a[1..]| && k < |b[1..]| && a[1..][..k] == b[1..][..k] && (k == |a[1..]| || a[1..][k] < b[1..][k]);
          assert a[..k + 1] == [a[0]] + a[1..][..k] && b[..k + 1] == [b[0]] + b[1..][..k];
        }
        if k: nat :| k <= |a| && k < |b| && a[..k] == b[..k] && (k == |a| || a[k] < b[k]) {
          assert k > 0 ==> a[1..][..k - 1] == a[..k][1..] && b[1..][..k - 1] == b[..k][1..];
        }
      } else {
        EqualPrefixesStartAlike(a, b);
        if a[0] < b[0] {
          assert a[..0] == b[..0];
        }
      }
    }
  }

  /** Decimal rendering, as `str` gives it. */
  function Digits(n: nat): (t: string)
    ensures |t| >= 1
  {
    if n < 10 then ['0' + n as char] else Digits(n / 10) + ['0' + (n % 10) as char]
  }

  function Decimal(n: int): (t: string)
  {
    if n < 0 then "-" + Digits(-n) else Digits(n)
  }

  lemma {:induction false} DigitsHoldDigits(n: nat)
    ensures forall c :: c in Digits(n) ==> '0' <= c <= '9'
  {
    if n >= 10 {
      DigitsHoldDigits(n / 10);
    }
  }

  lemma {:induction false} DigitsTellApart(m: nat, n: nat)
    requires Digits(m) == Digits(n)
    ensures m == n
  {
    var t := Digits(m);
    assert m % 10 == t[|t| - 1] as int - '0' as int == n % 10;
    if m >= 10 && n >= 10 {
      assert Digits(m / 10) == t[..|t| - 1] == Digits(n / 10);
      DigitsTellApart(m / 10, n / 10);
    }
  }

  lemma SignShows(n: int)
    ensures Decimal(n) != "" && (n < 0 <==> Decimal(n)[0] == '-')
  {
    if n >= 0 {
      DigitsHoldDigits(n);
      assert Digits(n)[0] in Digits(n);
    }
  }

  lemma DecimalTellsApart(m: int, n: int)
    requires Decimal(m) == Decimal(n)
    ensures m == n
  {
    SignShows(m);
    SignShows(n);
    if m < 0 {
      assert Digits(-m) == Decimal(m)[1..] == Decimal(n)[1..] == Digits(-n);
      DigitsTellApart(-m, -n);
    } else {
      DigitsTellApart(m, n);
    }
  }

  lemma DecimalHoldsNone(n: int, c: char)
    requires c != '-' && !('0' <= c <= '9')
    ensures c !in Decimal(n)
  {
    DigitsHoldDigits(if n < 0 then -n else n);
  }

  /** Text before the first occurrence of a character, and what follows it, are unique. */
  lemma FirstCut(a: string, b: string, a': string, b': string, at: char)
    requires at !in a && at !in a' && a + [at] + b == a' + [at] + b'
    ensures a == a' && b == b'
  {
    var t := a + [at] + b;
    assert t[|a|] == at && t[|a'|] == at;
    assert forall i :: 0 <= i < |a| ==> t[i] == a[i] != at;
    assert forall i :: 0 <= i < |a'| ==> t[i] == a'[i] != at;
    assert a == t[..|a|] && a' == t[..|a'|] && b == t[|a| + 1..] && b' == t[|a'| + 1..];
  }

  function Join(parts: seq<string>, at: char): (t: string)
  {
    if |parts| == 0 then "" else if |parts| == 1 then parts[0] else parts[0] + [at] + Join(parts[1..], at)
  }

  /** The parts of a text between occurrences of a character. */
  function Split(t: string, at: char): (parts: seq<string>)
    ensures parts != []
  {
    if t == "" then [""]
    else
      var rest := Split(t[1..], at);
      if t[0] == at then [""] + rest else [[t[0]] + rest[0]] + rest[1..]
  }

  lemma {:induction false} SplitWhole(a: string, at: char)
    requires at !in a
    ensures Split(a, at) == [a]
  {
    if a != "" {
      SplitWhole(a[1..], at);
      assert a == [a[0]] + a[1..];
    }
  }

  lemma {:induction false} SplitAtFirst(a: string, at: char, b: string)
    requires at !in a
    ensures Split(a + [at] + b, at) == [a] + Split(b, at)
  {
    if a == "" {
      assert a + [at] + b == [at] + b;
    } else {
      SplitAtFirst(a[1..], at, b);
      assert (a + [at] + b)[1..] == a[1..] + [at] + b;
      assert a == [a[0]] + a[1..];
    }
  }

  /** Splitting gives back the joined parts, when there are some and none holds the character. */
  lemma {:induction false} SplitInvertsJoin(parts: seq<string>, at: char)
    requires parts != [] && forall p :: p in parts ==> at !in p
    ensures Split(Join(parts, at), at) == parts
  {
    if |parts| == 1 {
      SplitWhole(parts[0], at);
    } else {
      SplitAtFirst(parts[0], at, Join(parts[1..], at));
      SplitInvertsJoin(parts[1..], at);
    }
  }

  /** The three order laws, for all texts at once. */
  lemma LessIsStrictTotalOrder()
    ensures forall a :: !Less(a, a)
    ensures forall a, b :: a == b || Less(a, b) || Less(b, a)
    ensures forall a, b, c :: Less(a, b) && Less(b, c) ==> Less(a, c)
  {
    forall a ensures !Less(a, a) { LessIsIrreflexive(a); }
    forall a, b ensures a == b || Less(a, b) || Less(b, a) { LessIsTotal(a, b); }
    forall a, b, c | Less(a, b) && Less(b, c) ensures Less(a, c) { LessIsTransitive(a, b, c); }
  }
}

/** Filtering and sorting, as the SQL statements and Python's `sorted` perform them. */
module Lists {

  function Filter<T>(s: seq<T>, p: T -> bool): (r: seq<T>)
  {
    if s == [] then [] else (if p(s[0]) then [s[0]] else []) + Filter(s[1..], p)
  }

  lemma {:induction false} FilterCounts<T>(s: seq<T>, p: T -> bool, x: T)
    ensures multiset(Filter(s, p))[x] == if p(x) then multiset(s)[x] else 0
  {
    if s != [] {
      FilterCounts(s[1..], p, x);
      assert s == [s[0]] + s[1..];
    }
  }

  lemma FilterMembers<T>(s: seq<T>, p: T -> bool)
    ensures forall x :: x in Filter(s, p) <==> x in s && p(x)
  {
    forall x ensures x in Filter(s, p) <==> x in s && p(x) {
      FilterCounts(s, p, x);
      assert x in Filter(s, p) <==> x in multiset(Filter(s, p));
      assert x in s <==> x in multiset(s);
    }
  }

  lemma {:induction false} FilterAppend<T>(s: seq<T>, t: seq<T>, p: T -> bool)
    ensures Filter(s + t, p) == Filter(s, p) + Filter(t, p)
  {
    if s == [] {
      assert s + t == t;
    } else {
      var head := if p(s[0]) then [s[0]] else [];
      FilterAppend(s[1..], t, p);
      assert (s + t)[0] == s[0] && (s + t)[1..] == s[1..] + t;
      assert head + (Filter(s[1..], p) + Filter(t, p)) == (head + Filter(s[1..], p)) + Filter(t, p);
    }
  }

  lemma {:induction false} FilterAgree<T>(s: seq<T>, p: T -> bool, q: T -> bool)
    requires forall x | x in s :: p(x) == q(x)
    ensures Filter(s, p) == Filter(s, q)
  {
    if s != [] {
      FilterAgree(s[1..], p, q);
    }
  }

  lemma {:induction false} FilterAll<T>(s: seq<T>, p: T -> bool)
    requires forall x | x in s :: p(x)
    ensures Filter(s, p) == s
  {
    if s != [] {
      FilterAll(s[1..], p);
    }
  }

  lemma {:induction false} FilterNone<T>(s: seq<T>, p: T -> bool)
    requires forall x | x in s :: !p(x)
    ensures Filter(s, p) == []
  {
    if s != [] {
      FilterNone(s[1..], p);
    }
  }

  /** Some member of a set, as iterating over it yields one. */
  method Pick<T(==)>(s: set<T>) returns (x: T)
    requires s != {}
    ensures x in s
  {
    x :| x in s;
  }

  function Take<T>(s: seq<T>, n: nat): (r: seq<T>)
  {
    if n <= |s| then s[..n] else s
  }

  ghost predicate TotalPreorder<T(!new)>(leq: (T, T) -> bool)
  {
    && (forall a, b :: leq(a, b) || leq(b, a))
    && (forall a, b, c :: leq(a, b) && leq(b, c) ==> leq(a, c))
  }

  ghost predicate Sorted<T(!new)>(leq: (T, T) -> bool, s: seq<T>)
  {
    forall i, j :: 0 <= i < j < |s| ==> leq(s[i], s[j])
  }

  function Insert<T>(leq: (T, T) -> bool, x: T, s: seq<T>): (r: seq<T>)
  {
    if s == [] || leq(x, s[0]) then [x] + s else [s[0]] + Insert(leq, x, s[1..])
  }

  function Sort<T>(leq: (T, T) -> bool, s: seq<T>): (r: seq<T>)
  {
    if s == [] then [] else Insert(leq, s[0], Sort(leq, s[1..]))
  }

  lemma {:induction false} InsertAddsOne<T>(leq: (T, T) -> bool, x: T, s: seq<T>)
    ensures multiset(Insert(leq, x, s)) == multiset(s) + multiset{x}
  {
    if s != [] {
      assert s == [s[0]] + s[1..];
      if !leq(x, s[0]) {
        InsertAddsOne(leq, x, s[1..]);
      }
    }
  }

  lemma InsertMembers<T>(leq: (T, T) -> bool, x: T, s: seq<T>, y: T)
    requires y in Insert(leq, x, s)
    ensures y == x || y in s
  {
    InsertAddsOne(leq, x, s);
    assert y in multiset(Insert(leq, x, s));
  }

  lemma SortedCons<T(!new)>(leq: (T, T) -> bool, x: T, s: seq<T>)
    requires Sorted(leq, s) && forall y :: y in s ==> leq(x, y)
    ensures Sorted(leq, [x] + s)
  {
  }

  lemma {:induction false} InsertKeepsOrder<T(!new)>(leq: (T, T) -> bool, x: T, s: seq<T>)
    requires TotalPreorder(leq) && Sorted(leq, s)
    ensures Sorted(leq, Insert(leq, x, s))
  {
    if s == [] {
    } else if leq(x, s[0]) {
      forall y | y in s ensures leq(x, y) {
        var k :| 0 <= k < |s| && s[k] == y;
        assert k == 0 || leq(s[0], y);
      }
      SortedCons(leq, x, s);
    } else {
      InsertKeepsOrder(leq, x, s[1..]);
      var rest := Insert(leq, x, s[1..]);
      forall y | y in rest ensures leq(s[0], y) {
        InsertMembers(leq, x, s[1..], y);
      }
      SortedCons(leq, s[0], rest);
    }
  }

  /** Sorting yields an ordered permutation. */
  lemma {:induction false} SortIsOrderedPermutation<T(!new)>(leq: (T, T) -> bool, s: seq<T>)
    requires TotalPreorder(leq)
    ensures Sorted(leq, Sort(leq, s))
    ensures multiset(Sort(leq, s)) == multiset(s)
    ensures |Sort(leq, s)| == |s|
  {
    if s != [] {
      SortIsOrderedPermutation(leq, s[1..]);
      InsertKeepsOrder(leq, s[0], Sort(leq, s[1..]));
      InsertAddsOne(leq, s[0], Sort(leq, s[1..]));
      assert s == [s[0]] + s[1..];
    }
    assert |multiset(Sort(leq, s))| == |multiset(s)|;
  }

  /** The order has no ties among the members. */
  ghost predicate TellsApart<T(!new)>(leq: (T, T) -> bool, s: seq<T>)
  {
    forall x, y | x in s && y in s && leq(x, y) && leq(y, x) :: x == y
  }

  lemma SortedHeadsAgree<T(!new)>(leq: (T, T) -> bool, a: seq<T>, b: seq<T>)
    requires a != [] && b != []
    requires Sorted(leq, a) && Sorted(leq, b) && multiset(a) == multiset(b)
    requires TellsApart(leq, a)
    ensures a[0] == b[0]
  {
    assert b[0] in multiset(a) && a[0] in multiset(b);
    var i :| 0 <= i < |a| && a[i] == b[0];
    var j :| 0 <= j < |b| && b[j] == a[0];
    if i != 0 && j != 0 {
      assert leq(a[0], a[i]) && leq(b[0], b[j]);
    }
  }

  /** An order that tells the members of a list apart admits only one sorted arrangement of it. */
  lemma {:induction false} SortedIsUnique<T(!new)>(leq: (T, T) -> bool, a: seq<T>, b: seq<T>)
    requires Sorted(leq, a) && Sorted(leq, b) && multiset(a) == multiset(b)
    requires TellsApart(leq, a)
    ensures a == b
  {
    hide Sorted, TellsApart;
    SameBagSameSize(a, b);
    if a != [] {
      SortedHeadsAgree(leq, a, b);
      SortedTail(leq, a);
      SortedTail(leq, b);
      SortedIsUnique(leq, a[1..], b[1..]);
      SameHeadSameTail(a, b);
    }
  }

  lemma SameBagSameSize<T>(a: seq<T>, b: seq<T>)
    requires multiset(a) == multiset(b)
    ensures |a| == |b|
  {
    assert |multiset(a)| == |multiset(b)|;
  }

  lemma SameHeadSameTail<T>(a: seq<T>, b: seq<T>)
    requires a != [] && b != [] && a[0] == b[0] && a[1..] == b[1..]
    ensures a == b
  {
    assert a == [a[0]] + a[1..] && b == [b[0]] + b[1..];
  }

  lemma SortedTail<T(!new)>(leq: (T, T) -> bool, s: seq<T>)
    requires s != [] && Sorted(leq, s)
    ensures Sorted(leq, s[1..]) && multiset(s[1..]) == multiset(s) - multiset{s[0]}
    ensures TellsApart(leq, s) ==> TellsApart(leq, s[1..])
  {
    assert s == [s[0]] + s[1..];
    assert forall i :: 0 <= i < |s[1..]| ==> s[1..][i] == s[i + 1];
  }

  lemma {:induction false} FilterKeepsOrder<T(!new)>(leq: (T, T) -> bool, s: seq<T>, p: T -> bool)
    requires Sorted(leq, s)
    ensures Sorted(leq, Filter(s, p))
  {
    if s != [] {
      assert forall i, j :: 0 <= i < j < |s[1..]| ==> s[1..][i] == s[i + 1] && s[1..][j] == s[j + 1];
      FilterKeepsOrder(leq, s[1..], p);
      FilterMembers(s[1..], p);
      forall y | y in Filter(s[1..], p) ensures leq(s[0], y) {
        var j :| 0 <= j < |s[1..]| && s[1..][j] == y;
        assert s[j + 1] == y;
      }
    }
  }

  /** Filtering commutes with sorting when the order tells the members apart. */
  lemma SortOfFilter<T(!new)>(leq: (T, T) -> bool, s: seq<T>, p: T -> bool)
    requires TotalPreorder(leq)
    requires TellsApart(leq, s)
    ensures Sort(leq, Filter(s, p)) == Filter(Sort(leq, s), p)
  {
    var a, b := Sort(leq, Filter(s, p)), Filter(Sort(leq, s), p);
    SortIsOrderedPermutation(leq, s);
    SortIsOrderedPermutation(leq, Filter(s, p));
    FilterKeepsOrder(leq, Sort(leq, s), p);
    forall x ensures multiset(a)[x] == multiset(b)[x] {
      FilterCounts(s, p, x);
      FilterCounts(Sort(leq, s), p, x);
    }
    FilterMembers(s, p);
    forall x | x in a ensures x in s {
      assert x in multiset(a) && multiset(a) == multiset(Filter(s, p));
      assert x in Filter(s, p);
    }
    SortedIsUnique(leq, a, b);
  }

  /** A condition that turns true at position `k` and stays true filters out the suffix from `k`. */
  lemma FilterIsSuffix<T>(s: seq<T>, p: T -> bool, k: nat)
    requires k <= |s|
    requires forall i :: 0 <= i < |s| ==> (p(s[i]) <==> k <= i)
    ensures Filter(s, p) == s[k..]
  {
    assert s == s[..k] + s[k..];
    FilterAppend(s[..k], s[k..], p);
    FilterNone(s[..k], p);
    FilterAll(s[k..], p);
  }
}

/** Small facts about numbers and finite sets. */
module Numbers {

  /** One for a condition that holds. */
  function Bit(b: bool): (n: nat)
  {
    if b then 1 else 0
  }

  lemma ProductAsReal(x: int, y: int)
    ensures (x * y) as real == x as real * y as real
  {
  }

  lemma SubsetSize<T>(a: set<T>, b: set<T>)
    requires a <= b
    ensures |a| <= |b|
  {
    assert b == a + (b - a);
  }

  predicate Distinct<T(==)>(s: seq<T>)
  {
    forall i, j :: 0 <= i < j < |s| ==> s[i] != s[j]
  }

  function Elements<T>(s: seq<T>): (r: set<T>)
  {
    set x | x in s
  }

  /** A list has no repeats exactly when its set has its size. */
  lemma {:induction false} DistinctBySize<T>(s: seq<T>)
    ensures |Elements(s)| <= |s|
    ensures Distinct(s) <==> |Elements(s)| == |s|
  {
    if s != [] {
      var n := |s| - 1;
      DistinctBySize(s[..n]);
      assert s == s[..n] + [s[n]];
      assert Elements(s) == Elements(s[..n]) + {s[n]};
      if s[n] in s[..n] {
        var i :| 0 <= i < n && s[..n][i] == s[n];
        assert s[i] == s[n] && Elements(s) == Elements(s[..n]);
      } else {
        assert s[n] !in Elements(s[..n]);
        assert forall i :: 0 <= i < n ==> s[..n][i] == s[i];
        assert Distinct(s) <==> Distinct(s[..n]);
      }
    }
  }

  lemma RepeatCountsTwice<T>(s: seq<T>, i: nat, j: nat)
    requires i < j < |s| && s[i] == s[j]
    ensures multiset(s)[s[i]] >= 2
  {
    assert s == s[..j] + s[j..];
    assert s[i] in s[..j] && s[j] in s[j..];
  }
}
