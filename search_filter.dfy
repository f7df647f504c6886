/**
  The search filter of the table:

    if (searchTerm) rows = rows.filter(item =>
      item.name.toLowerCase().includes(searchTerm.toLowerCase()))

  Lower-casing is ASCII only: `A`..`Z` become `a`..`z`, every other character
  is left alone.
*/
module SearchFilter {
  import opened PriceRows

  function LowerChar(c: char): char {
    if 'A' <= c <= 'Z' then (c as int + ('a' as int - 'A' as int)) as char else c
  }

  predicate IsUpper(c: char) {
    'A' <= c <= 'Z'
  }

  /** `s.toLowerCase()` restricted to ASCII letters. */
  function ToLower(s: string): (r: string)
    ensures |r| == |s|
    ensures forall i | 0 <= i < |s| :: !IsUpper(r[i])
    ensures forall i | 0 <= i < |s| :: !IsUpper(s[i]) ==> r[i] == s[i]
    ensures forall i | 0 <= i < |s| :: IsUpper(s[i]) ==> r[i] as int == s[i] as int + 32
  {
    seq(|s|, i requires 0 <= i < |s| => LowerChar(s[i]))
  }

  /** Lower-casing twice is lower-casing once. */
  lemma ToLowerIdempotent(s: string)
    ensures ToLower(ToLower(s)) == ToLower(s)
  {
  }

  /** `s.includes(sub)`: `sub` occurs in `s` at some position. */
  function Includes(s: string, sub: string): bool {
    if sub <= s then true
    else if s == [] then false
    else Includes(s[1..], sub)
  }

  /** `sub` occurs in `s` starting at position `i`. */
  predicate OccursAt(s: string, sub: string, i: nat) {
    i + |sub| <= |s| && s[i..i + |sub|] == sub
  }

  lemma TailSlice(s: string, i: nat, n: nat)
    requires 0 < |s| && i + n < |s|
    ensures s[1..][i..i + n] == s[i + 1..i + 1 + n]
  {
    var t := s[1..];
    forall k | i <= k < i + n
      ensures t[k] == s[k + 1]
    {
    }
    assert t[i..i + n] == s[i + 1..i + 1 + n];
  }

  /** `Includes` holds exactly when `sub` occurs somewhere in `s`. */
  lemma {:induction false} IncludesIff(s: string, sub: string)
    ensures Includes(s, sub) <==> exists i: nat :: OccursAt(s, sub, i)
  {
    if sub <= s {
      assert OccursAt(s, sub, 0);
    } else if s == [] {
      assert forall i: nat :: !OccursAt(s, sub, i);
    } else {
      IncludesIff(s[1..], sub);
      if Includes(s[1..], sub) {
        var i: nat :| OccursAt(s[1..], sub, i);
        TailSlice(s, i, |sub|);
        assert OccursAt(s, sub, i + 1);
      } else {
        forall i: nat ensures !OccursAt(s, sub, i) {
          if i == 0 {
            assert !(sub <= s);
          } else if i + |sub| <= |s| {
            TailSlice(s, i - 1, |sub|);
            assert !OccursAt(s[1..], sub, i - 1);
          }
        }
      }
    }
  }

  /** A string never contains a longer one. */
  lemma {:induction false} IncludesLonger(s: string, sub: string)
    requires |sub| > |s|
    ensures !Includes(s, sub)
  {
    if s != [] {
      IncludesLonger(s[1..], sub);
    }
  }

  /** The filter's test on one row. */
  predicate Matches(row: Row, term: string) {
    Includes(ToLower(row.name), ToLower(term))
  }

  /** `rows.filter(item => Matches(item, term))` */
  function Keep(rows: seq<Row>, term: string): seq<Row> {
    if rows == [] then []
    else
      var last := rows[|rows| - 1];
      Keep(rows[..|rows| - 1], term) + (if Matches(last, term) then [last] else [])
  }

  /** The positions in `rows` of the rows `Keep` retains. */
  function KeptIndices(rows: seq<Row>, term: string): (idx: seq<nat>)
    ensures |idx| == |Keep(rows, term)|
    ensures forall k | 0 <= k < |idx| :: idx[k] < |rows| && rows[idx[k]] == Keep(rows, term)[k]
    ensures forall k, l | 0 <= k < l < |idx| :: idx[k] < idx[l]
  {
    if rows == [] then []
    else
      var init := rows[..|rows| - 1];
      var prev := KeptIndices(init, term);
      assert forall k | 0 <= k < |prev| :: prev[k] < |init|;
      prev + (if Matches(rows[|rows| - 1], term) then [|rows| - 1] else [])
  }

  /** The kept positions are exactly the positions of matching rows. */
  lemma {:induction false} KeptIndicesMatch(rows: seq<Row>, term: string)
    ensures forall i | 0 <= i < |rows| :: Matches(rows[i], term) <==> i in KeptIndices(rows, term)
  {
    if rows != [] {
      var init := rows[..|rows| - 1];
      KeptIndicesMatch(init, term);
      var prev := KeptIndices(init, term);
      assert forall k | 0 <= k < |prev| :: prev[k] < |init|;
      forall i | 0 <= i < |rows|
        ensures Matches(rows[i], term) <==> i in KeptIndices(rows, term)
      {
        if i < |init| {
          assert rows[i] == init[i];
        }
      }
    }
  }

  /** The empty term retains every position. */
  lemma {:induction false} EmptyTermIndices(rows: seq<Row>)
    ensures KeptIndices(rows, "") == seq(|rows|, i requires 0 <= i < |rows| => i)
  {
    if rows != [] {
      var init := rows[..|rows| - 1];
      EmptyTermIndices(init);
      assert ToLower("") == "";
      assert Matches(rows[|rows| - 1], "");
    }
  }

  /**
    The filtered table: the full list for an empty term, otherwise the rows
    whose lower-cased name contains the lower-cased term.
  */
  function FilterRows(rows: seq<Row>, term: string): (r: seq<Row>)
    ensures term == "" ==> r == rows
    ensures forall x :: x in r <==> x in rows && Matches(x, term)
  {
    KeepEmptyTerm(rows);
    KeepMembers(rows, term);
    if term != "" then Keep(rows, term) else rows
  }

  lemma {:induction false} KeepMembers(rows: seq<Row>, term: string)
    ensures forall x :: x in Keep(rows, term) <==> x in rows && Matches(x, term)
  {
    if rows != [] {
      var init := rows[..|rows| - 1];
      KeepMembers(init, term);
      assert rows == init + [rows[|rows| - 1]];
    }
  }

  /** Every name contains the empty string, so an empty term keeps every row. */
  lemma {:induction false} KeepEmptyTerm(rows: seq<Row>)
    ensures Keep(rows, "") == rows
  {
    if rows != [] {
      KeepEmptyTerm(rows[..|rows| - 1]);
      assert ToLower("") == "";
      assert rows == rows[..|rows| - 1] + [rows[|rows| - 1]];
    }
  }

  /** The `if (searchTerm)` guard does not change the result. */
  lemma FilterIsKeep(rows: seq<Row>, term: string)
    ensures FilterRows(rows, term) == Keep(rows, term)
  {
    KeepEmptyTerm(rows);
  }

  /**
    The filtered rows are the matching rows of the full list, in their
    original relative order: a subsequence, each row unchanged.
  */
  lemma FilterIsSubsequence(rows: seq<Row>, term: string)
    ensures var r, idx := FilterRows(rows, term), KeptIndices(rows, term);
      && |idx| == |r|
      && (forall k | 0 <= k < |r| :: idx[k] < |rows| && r[k] == rows[idx[k]])
      && (forall k, l | 0 <= k < l < |r| :: idx[k] < idx[l])
      && (forall i | 0 <= i < |rows| :: Matches(rows[i], term) <==> i in idx)
  {
    FilterIsKeep(rows, term);
    KeptIndicesMatch(rows, term);
  }

  lemma KeepAppend(rows: seq<Row>, x: Row, term: string)
    ensures Keep(rows + [x], term) == Keep(rows, term) + (if Matches(x, term) then [x] else [])
  {
    assert (rows + [x])[..|rows|] == rows;
  }

  lemma {:induction false} KeepIdempotent(rows: seq<Row>, term: string)
    ensures Keep(Keep(rows, term), term) == Keep(rows, term)
  {
    if rows != [] {
      var init, last := rows[..|rows| - 1], rows[|rows| - 1];
      KeepIdempotent(init, term);
      if Matches(last, term) {
        KeepAppend(Keep(init, term), last, term);
      } else {
        assert Keep(rows, term) == Keep(init, term);
      }
    }
  }

  /** Filtering twice with the same term is filtering once. */
  lemma FilterIdempotent(rows: seq<Row>, term: string)
    ensures FilterRows(FilterRows(rows, term), term) == FilterRows(rows, term)
  {
    if term != "" {
      KeepIdempotent(rows, term);
    }
  }

  lemma {:induction false} KeepSameLowerTerm(rows: seq<Row>, t1: string, t2: string)
    requires ToLower(t1) == ToLower(t2)
    ensures Keep(rows, t1) == Keep(rows, t2)
  {
    if rows != [] {
      KeepSameLowerTerm(rows[..|rows| - 1], t1, t2);
    }
  }

  /** Only the lower-cased term matters: "ALPHA", "Alpha" and "alpha" filter alike. */
  lemma FilterIgnoresTermCase(rows: seq<Row>, t1: string, t2: string)
    requires ToLower(t1) == ToLower(t2)
    ensures FilterRows(rows, t1) == FilterRows(rows, t2)
  {
    FilterIsKeep(rows, t1);
    FilterIsKeep(rows, t2);
    KeepSameLowerTerm(rows, t1, t2);
  }

  lemma AlphaContainsA()
    ensures Matches(Row("Alpha", 1, NaN), "a")
  {
    assert ToLower("a") == "a";
    assert ToLower("Alpha")[0..1] == "a";
    assert OccursAt(ToLower("Alpha"), ToLower("a"), 0);
    IncludesIff(ToLower("Alpha"), ToLower("a"));
  }

  lemma BetaContainsA()
    ensures Matches(Row("Beta", 2, NaN), "a")
  {
    assert ToLower("a") == "a";
    assert ToLower("Beta")[3..4] == "a";
    assert OccursAt(ToLower("Beta"), ToLower("a"), 3);
    IncludesIff(ToLower("Beta"), ToLower("a"));
  }

  /** The term "a" keeps "Beta" as well as "Alpha": both names contain an `a`. */
  lemma TermAKeepsAlphaAndBeta()
    ensures var alpha, beta := Row("Alpha", 1, NaN), Row("Beta", 2, NaN);
      FilterRows([alpha, beta], "a") == [alpha, beta]
  {
    var alpha, beta := Row("Alpha", 1, NaN), Row("Beta", 2, NaN);
    AlphaContainsA();
    BetaContainsA();
    KeepAppend([], alpha, "a");
    KeepAppend([alpha], beta, "a");
    assert [alpha] + [beta] == [alpha, beta];
    FilterIsKeep([alpha, beta], "a");
  }
}
