/**
  Property keys of a plain JavaScript object.

  `Object.values` lists an object's own properties in the order of its own
  property keys: first every key that is an array index, in ascending numeric
  order, then every other string key in the order the properties were created.
  A plain object `{}` also inherits the properties of `Object.prototype`, so a
  lookup `acc[key]` finds a value for those names even when `acc` has no own
  property of that name.
*/
module ObjectKeys {

  /** No key occurs twice. */
  predicate Distinct<T(==)>(s: seq<T>) {
    forall i, j | 0 <= i < j < |s| :: s[i] != s[j]
  }

  predicate IsDigit(c: char) {
    '0' <= c <= '9'
  }

  predicate AllDigits(s: string) {
    forall i | 0 <= i < |s| :: IsDigit(s[i])
  }

  /** The number a string of decimal digits denotes. */
  function DecimalValue(s: string): nat
    requires AllDigits(s)
  {
    if s == [] then 0
    else DecimalValue(s[..|s| - 1]) * 10 + (s[|s| - 1] as int - '0' as int)
  }

  /** The numeric value used to order array-index keys (0 for any other key). */
  function IndexValue(key: string): nat {
    if AllDigits(key) then DecimalValue(key) else 0
  }

  /** 2^32 - 2, the largest array index. */
  const MaxArrayIndex: nat := 4294967294

  /**
    A key is an array index when it is the canonical decimal form of an integer
    from 0 to 2^32 - 2: digits only, no leading zero except in "0" itself.
  */
  predicate IsArrayIndex(key: string) {
    && |key| > 0
    && AllDigits(key)
    && (key[0] != '0' || |key| == 1)
    && DecimalValue(key) <= MaxArrayIndex
  }

  /** The names a plain object inherits from `Object.prototype`. */
  const InheritedNames: set<string> := {
    "__proto__", "__defineGetter__", "__defineSetter__", "__lookupGetter__",
    "__lookupSetter__", "constructor", "hasOwnProperty", "isPrototypeOf",
    "propertyIsEnumerable", "toLocaleString", "toString", "valueOf"
  }

  /** The array-index keys of `keys`, in their order in `keys`. */
  function IndexKeys(keys: seq<string>): seq<string> {
    if keys == [] then []
    else (if IsArrayIndex(keys[0]) then [keys[0]] else []) + IndexKeys(keys[1..])
  }

  /** The keys of `keys` that are not array indices, in their order in `keys`. */
  function NamedKeys(keys: seq<string>): seq<string> {
    if keys == [] then []
    else (if IsArrayIndex(keys[0]) then [] else [keys[0]]) + NamedKeys(keys[1..])
  }

  /** Keys in non-decreasing numeric order. */
  predicate Ascending(s: seq<string>) {
    forall i, j | 0 <= i < j < |s| :: IndexValue(s[i]) <= IndexValue(s[j])
  }

  function InsertByIndex(key: string, sorted: seq<string>): (r: seq<string>)
    ensures multiset(r) == multiset{key} + multiset(sorted)
  {
    if sorted == [] || IndexValue(key) <= IndexValue(sorted[0]) then [key] + sorted
    else
      assert sorted == [sorted[0]] + sorted[1..];
      [sorted[0]] + InsertByIndex(key, sorted[1..])
  }

  /** A key no larger than the head of an ascending list can go in front. */
  lemma PrependKeepsAscending(key: string, sorted: seq<string>)
    requires Ascending(sorted)
    requires forall j | 0 <= j < |sorted| :: IndexValue(key) <= IndexValue(sorted[j])
    ensures Ascending([key] + sorted)
  {
    var r := [key] + sorted;
    forall i, j | 0 <= i < j < |r| ensures IndexValue(r[i]) <= IndexValue(r[j]) {
      assert r[j] == sorted[j - 1];
      if i > 0 {
        assert r[i] == sorted[i - 1];
      }
    }
  }

  lemma {:induction false} InsertKeepsAscending(key: string, sorted: seq<string>)
    requires Ascending(sorted)
    ensures Ascending(InsertByIndex(key, sorted))
  {
    if sorted == [] || IndexValue(key) <= IndexValue(sorted[0]) {
      PrependKeepsAscending(key, sorted);
    } else {
      var tail := sorted[1..];
      InsertKeepsAscending(key, tail);
      var rest := InsertByIndex(key, tail);
      forall j | 0 <= j < |rest| ensures IndexValue(sorted[0]) <= IndexValue(rest[j]) {
        assert rest[j] in multiset(rest);
        if rest[j] != key {
          assert rest[j] in multiset(tail);
          var k :| 0 <= k < |tail| && tail[k] == rest[j];
          assert sorted[k + 1] == rest[j];
        }
      }
      PrependKeepsAscending(sorted[0], rest);
    }
  }

  /** The keys rearranged into ascending numeric order. */
  function SortByIndex(keys: seq<string>): (r: seq<string>)
    ensures multiset(r) == multiset(keys)
  {
    if keys == [] then []
    else
      assert keys == [keys[0]] + keys[1..];
      InsertByIndex(keys[0], SortByIndex(keys[1..]))
  }

  lemma {:induction false} SortIsAscending(keys: seq<string>)
    ensures Ascending(SortByIndex(keys))
  {
    if keys != [] {
      SortIsAscending(keys[1..]);
      InsertKeepsAscending(keys[0], SortByIndex(keys[1..]));
    }
  }

  /**
    The order `Object.values` visits the own properties of an object whose
    properties were created in the order `inserted`.
  */
  function OwnKeyOrder(inserted: seq<string>): seq<string> {
    SortByIndex(IndexKeys(inserted)) + NamedKeys(inserted)
  }

  lemma {:induction false} SplitPermutes(keys: seq<string>)
    ensures multiset(IndexKeys(keys)) + multiset(NamedKeys(keys)) == multiset(keys)
  {
    if keys != [] {
      SplitPermutes(keys[1..]);
      assert keys == [keys[0]] + keys[1..];
    }
  }

  lemma {:induction false} IndexKeysAreIndices(keys: seq<string>)
    ensures forall x | x in IndexKeys(keys) :: IsArrayIndex(x)
    ensures forall x | x in NamedKeys(keys) :: !IsArrayIndex(x)
  {
    if keys != [] {
      IndexKeysAreIndices(keys[1..]);
    }
  }

  /** `Object.values` visits every own property exactly as often as it was created. */
  lemma OwnKeyOrderPermutes(inserted: seq<string>)
    ensures multiset(OwnKeyOrder(inserted)) == multiset(inserted)
  {
    SplitPermutes(inserted);
  }

  lemma {:induction false} SplitLengths(keys: seq<string>)
    ensures |IndexKeys(keys)| + |NamedKeys(keys)| == |keys|
  {
    if keys != [] {
      SplitLengths(keys[1..]);
    }
  }

  /**
    The shape of the visiting order: the array-index keys first, in ascending
    numeric order, then every other key in creation order.
  */
  lemma OwnKeyOrderShape(inserted: seq<string>)
    ensures var r, n := OwnKeyOrder(inserted), |IndexKeys(inserted)|;
      && |r| == |inserted|
      && n <= |r|
      && (forall i | 0 <= i < n :: IsArrayIndex(r[i]))
      && (forall i | n <= i < |r| :: !IsArrayIndex(r[i]))
      && Ascending(r[..n])
      && r[n..] == NamedKeys(inserted)
  {
    var index := IndexKeys(inserted);
    var named := NamedKeys(inserted);
    var sorted := SortByIndex(index);
    var r := sorted + named;
    assert |sorted| == |multiset(sorted)| == |multiset(index)| == |index|;
    SplitLengths(inserted);
    IndexKeysAreIndices(inserted);
    SortIsAscending(index);
    forall i | 0 <= i < |sorted| ensures IsArrayIndex(r[i]) {
      assert sorted[i] in multiset(index);
    }
    assert r[..|sorted|] == sorted;
    assert r[|sorted|..] == named;
  }

  lemma {:induction false} NoIndexSplit(keys: seq<string>)
    requires forall i | 0 <= i < |keys| :: !IsArrayIndex(keys[i])
    ensures IndexKeys(keys) == [] && NamedKeys(keys) == keys
  {
    if keys != [] {
      NoIndexSplit(keys[1..]);
    }
  }

  /** A key list with no array index is visited in creation order. */
  lemma NoIndexKeepsOrder(inserted: seq<string>)
    requires forall i | 0 <= i < |inserted| :: !IsArrayIndex(inserted[i])
    ensures OwnKeyOrder(inserted) == inserted
  {
    NoIndexSplit(inserted);
  }

  /** Each value in a multiset of distinct keys occurs at most once. */
  lemma {:induction false} DistinctCounts<T>(s: seq<T>, x: T)
    requires Distinct(s)
    ensures multiset(s)[x] <= 1
  {
    if s != [] {
      assert s == [s[0]] + s[1..];
      DistinctCounts(s[1..], x);
      if s[0] == x {
        assert x !in s[1..];
      }
    }
  }

  /** A rearrangement of distinct keys has distinct keys. */
  lemma PermutationKeepsDistinct<T>(a: seq<T>, b: seq<T>)
    requires multiset(a) == multiset(b) && Distinct(a)
    ensures Distinct(b)
  {
    forall i, j | 0 <= i < j < |b| ensures b[i] != b[j] {
      DistinctCounts(a, b[i]);
      assert b == b[..j] + b[j..];
      assert b[i] in multiset(b[..j]);
      assert b[j] in multiset(b[j..]);
    }
  }

  /** `Object.values` never visits a property twice. */
  lemma OwnKeyOrderDistinct(inserted: seq<string>)
    requires Distinct(inserted)
    ensures Distinct(OwnKeyOrder(inserted))
  {
    OwnKeyOrderPermutes(inserted);
    PermutationKeepsDistinct(inserted, OwnKeyOrder(inserted));
  }

  /** Keys strictly ordered by `rank` stay so after leaving out the array indices. */
  lemma {:induction false} NamedKeysKeepRank(keys: seq<string>, rank: string -> int)
    requires forall i, j | 0 <= i < j < |keys| :: rank(keys[i]) < rank(keys[j])
    ensures forall i, j | 0 <= i < j < |NamedKeys(keys)| ::
      rank(NamedKeys(keys)[i]) < rank(NamedKeys(keys)[j])
    ensures forall x | x in NamedKeys(keys) :: x in keys
  {
    if keys != [] {
      NamedKeysKeepRank(keys[1..], rank);
      var rest := NamedKeys(keys[1..]);
      forall x | x in rest ensures rank(keys[0]) < rank(x) {
        var k :| 0 <= k < |keys[1..]| && keys[1..][k] == x;
        assert keys[k + 1] == x;
      }
    }
  }

  /** The keys of `keys` that are not among `names`, in their order in `keys`. */
  function Without(keys: seq<string>, names: set<string>): seq<string> {
    if keys == [] then []
    else
      var last := keys[|keys| - 1];
      Without(keys[..|keys| - 1], names) + (if last in names then [] else [last])
  }

  /** A key is left exactly when it is listed and not among `names`. */
  lemma {:induction false} WithoutMembers(keys: seq<string>, names: set<string>)
    ensures forall x :: x in Without(keys, names) <==> x in keys && x !in names
  {
    if keys != [] {
      var init := keys[..|keys| - 1];
      WithoutMembers(init, names);
      assert keys == init + [keys[|keys| - 1]];
    }
  }

  /** Keys strictly ordered by `rank` stay so after leaving out `names`. */
  lemma {:induction false} WithoutKeepsRank(keys: seq<string>, names: set<string>, rank: string -> int)
    requires forall i, j | 0 <= i < j < |keys| :: rank(keys[i]) < rank(keys[j])
    ensures forall i, j | 0 <= i < j < |Without(keys, names)| ::
      rank(Without(keys, names)[i]) < rank(Without(keys, names)[j])
  {
    if keys != [] {
      var init, last := keys[..|keys| - 1], keys[|keys| - 1];
      WithoutKeepsRank(init, names, rank);
      WithoutMembers(init, names);
      var w := Without(init, names);
      forall x | x in w ensures rank(x) < rank(last) {
        var k :| 0 <= k < |init| && init[k] == x;
        assert keys[k] == x;
      }
      if last !in names {
        var r := w + [last];
        forall i, j | 0 <= i < j < |r| ensures rank(r[i]) < rank(r[j]) {
          assert r[i] == w[i] && r[i] in w;
          if j < |w| {
            assert r[j] == w[j];
          }
        }
      }
    }
  }

  /** Leaving out names that do not occur changes nothing. */
  lemma {:induction false} WithoutNone(keys: seq<string>, names: set<string>)
    requires forall i | 0 <= i < |keys| :: keys[i] !in names
    ensures Without(keys, names) == keys
  {
    if keys != [] {
      WithoutNone(keys[..|keys| - 1], names);
    }
  }
}
