/**
  Grouping the month records by developer: the reduce that fills the
  accumulator object `acc` with one `{developerName, propertyPrice}` entry per
  name and adds each record's price to its entry.

  The accumulator is modelled by a map from name to summed price (the entry's
  `developerName` is always its key) and the list of its keys in the order the
  entries were created.
*/
module DeveloperSummary {
  import opened ObjectKeys
  import opened MonthRecords

  /**
    The accumulator a complete reduce over `months` leaves behind: the entry of
    the last record's name is created with 0 when missing, then the price is
    added to it.
  */
  function SummaryMap(months: seq<MonthRecord>): map<string, int> {
    if months == [] then map[]
    else
      var acc := SummaryMap(months[..|months| - 1]);
      var last := months[|months| - 1];
      var name := last.developerName;
      var entry := if name in acc then acc else acc[name := 0];
      entry[name := entry[name] + last.propertyPrice]
  }

  /** What one more record changes in the derived quantities. */
  lemma AppendRecord(done: seq<MonthRecord>, m: MonthRecord)
    ensures var name := m.developerName;
      && Names(done + [m]) == Names(done) + {name}
      && (forall n :: PriceOf(done + [m], n) == PriceOf(done, n) + (if n == name then m.propertyPrice else 0))
      && FirstOccurrences(done + [m]) ==
           if name in Names(done) then FirstOccurrences(done) else FirstOccurrences(done) + [name]
  {
    assert (done + [m])[..|done|] == done;
  }

  /**
    The accumulator has one entry per developer name, holding the sum of the
    prices of exactly the records with that name.
  */
  lemma {:induction false} SummaryMapSums(months: seq<MonthRecord>)
    ensures SummaryMap(months).Keys == Names(months)
    ensures forall n | n in SummaryMap(months) :: SummaryMap(months)[n] == PriceOf(months, n)
  {
    if months != [] {
      var init := months[..|months| - 1];
      var name := months[|months| - 1].developerName;
      SummaryMapSums(init);
      if name !in Names(init) {
        PriceOfAbsent(init, name);
      }
    }
  }

  /** One more record updates the accumulator as the reduce's callback does. */
  lemma SummaryMapAppend(done: seq<MonthRecord>, m: MonthRecord)
    ensures var acc, name := SummaryMap(done), m.developerName;
      name in acc ==> SummaryMap(done + [m]) == acc[name := acc[name] + m.propertyPrice]
    ensures var acc, name := SummaryMap(done), m.developerName;
      name !in acc ==> SummaryMap(done + [m]) == acc[name := 0][name := acc[name := 0][name] + m.propertyPrice]
  {
    assert (done + [m])[..|done|] == done;
  }

  /** One more record appends its name to the creation order when the name is new. */
  lemma FirstOccurrencesAppend(done: seq<MonthRecord>, m: MonthRecord)
    ensures var name := m.developerName;
      FirstOccurrences(done + [m]) ==
        if name in Names(done) then FirstOccurrences(done) else FirstOccurrences(done) + [name]
  {
    assert (done + [m])[..|done|] == done;
  }

  /**
    One step of the grouping reduce keeps the accumulator equal to the
    accumulator of the records visited so far: an existing entry gets the
    price added, a missing one is created with 0 first.
  */
  lemma AccumulatorStep(done: seq<MonthRecord>, m: MonthRecord, acc: map<string, int>, acc': map<string, int>)
    requires acc == SummaryMap(done)
    requires var name := m.developerName;
      name in acc ==> acc' == acc[name := acc[name] + m.propertyPrice]
    requires var name := m.developerName;
      name !in acc ==> acc' == acc[name := 0][name := acc[name := 0][name] + m.propertyPrice]
    ensures acc' == SummaryMap(done + [m])
  {
    SummaryMapAppend(done, m);
  }

  /** One step of the grouping reduce lists a name when it creates its entry. */
  lemma CreatedStep(done: seq<MonthRecord>, m: MonthRecord, acc: map<string, int>, keys: seq<string>, keys': seq<string>)
    requires acc == SummaryMap(done) && keys == FirstOccurrences(done)
    requires m.developerName in acc ==> keys' == keys
    requires m.developerName !in acc ==> keys' == keys + [m.developerName]
    ensures keys' == FirstOccurrences(done + [m])
  {
    FirstOccurrencesAppend(done, m);
    assert (m.developerName in acc) == (m.developerName in Names(done)) by {
      SummaryMapSums(done);
    }
  }

  /**
    The grouping reduce, one step per record: create the entry with price 0 the
    first time a name is met, then add the record's price to it. This is the
    corrected grouping, on an accumulator that inherits nothing: the instance
    `inherited == {}` of `SummarizeAsWritten` below, where every record
    reaches the accumulator (`ReachingAll`), written without the inherited
    test so that it stands on its own as the reference loop.
  */
  method Summarize(months: seq<MonthRecord>) returns (summary: map<string, int>, created: seq<string>)
    ensures summary == SummaryMap(months)
    ensures summary.Keys == Names(months)
    ensures forall n | n in summary :: summary[n] == PriceOf(months, n)
    ensures created == FirstOccurrences(months)
  {
    summary, created := map[], [];
    var i := 0;
    while i < |months|
      invariant 0 <= i <= |months|
      invariant summary == SummaryMap(months[..i]) && created == FirstOccurrences(months[..i])
    {
      var name, price := months[i].developerName, months[i].propertyPrice;
      ghost var acc, keys := summary, created;
      if name !in summary {
        summary := summary[name := 0];
        created := created + [name];
      }
      summary := summary[name := summary[name] + price];
      AccumulatorStep(months[..i], months[i], acc, summary);
      CreatedStep(months[..i], months[i], acc, keys, created);
      TakeNext(months, i);
      i := i + 1;
    }
    assert months[..i] == months;
    SummaryMapSums(months);
  }

  /** The records whose name is not among `inherited`, in their order. */
  function Reaching(months: seq<MonthRecord>, inherited: set<string>): seq<MonthRecord> {
    if months == [] then []
    else
      var last := months[|months| - 1];
      Reaching(months[..|months| - 1], inherited) + (if last.developerName in inherited then [] else [last])
  }

  /** Leaving out the records of the inherited names removes exactly those names. */
  lemma {:induction false} ReachingNames(months: seq<MonthRecord>, inherited: set<string>)
    ensures Names(Reaching(months, inherited)) == Names(months) - inherited
    ensures forall n | n !in inherited :: PriceOf(Reaching(months, inherited), n) == PriceOf(months, n)
  {
    if months != [] {
      var init := months[..|months| - 1];
      var last := months[|months| - 1];
      ReachingNames(init, inherited);
      var r := Reaching(init, inherited);
      assert Names(months) == Names(init) + {last.developerName};
      if last.developerName in inherited {
        assert Reaching(months, inherited) == r;
        forall n | n !in inherited
          ensures PriceOf(months, n) == PriceOf(init, n)
        {
        }
      } else {
        assert Reaching(months, inherited) == r + [last];
        AppendRecord(r, last);
      }
    }
  }

  /**
    The accumulator a complete reduce as written leaves behind, `acc` being an
    object that inherits the properties named `inherited`: a record whose name
    is neither an own nor an inherited property creates its entry, a record
    whose name is an own property adds its price to it, and a record whose
    name is only inherited leaves `acc` as it is.
  */
  function AsWrittenMap(months: seq<MonthRecord>, inherited: set<string>): map<string, int> {
    if months == [] then map[]
    else
      var acc := AsWrittenMap(months[..|months| - 1], inherited);
      var last := months[|months| - 1];
      var name := last.developerName;
      if name !in acc && name in inherited then acc
      else
        var entry := if name in acc then acc else acc[name := 0];
        entry[name := entry[name] + last.propertyPrice]
  }

  /** The keys of `AsWrittenMap`, in the order their entries were created. */
  function AsWrittenCreated(months: seq<MonthRecord>, inherited: set<string>): seq<string> {
    if months == [] then []
    else
      var init := months[..|months| - 1];
      var name := months[|months| - 1].developerName;
      var created := AsWrittenCreated(init, inherited);
      if name !in AsWrittenMap(init, inherited) && name !in inherited then created + [name] else created
  }

  /**
    As written, the accumulator has an entry for exactly the names that are not
    inherited, each holding the full per-name sum.
  */
  lemma {:induction false} AsWrittenMapSums(months: seq<MonthRecord>, inherited: set<string>)
    ensures AsWrittenMap(months, inherited).Keys == Names(months) - inherited
    ensures forall n | n in AsWrittenMap(months, inherited) :: AsWrittenMap(months, inherited)[n] == PriceOf(months, n)
  {
    if months != [] {
      var init := months[..|months| - 1];
      var name := months[|months| - 1].developerName;
      AsWrittenMapSums(init, inherited);
      if name !in Names(init) {
        PriceOfAbsent(init, name);
      }
    }
  }

  /** As written, the entries are created in the first-occurrence order of the records that reach them. */
  lemma {:induction false} AsWrittenCreatedReaching(months: seq<MonthRecord>, inherited: set<string>)
    ensures AsWrittenCreated(months, inherited) == FirstOccurrences(Reaching(months, inherited))
  {
    if months != [] {
      var init := months[..|months| - 1];
      var last := months[|months| - 1];
      var r := Reaching(init, inherited);
      AsWrittenCreatedReaching(init, inherited);
      if last.developerName in inherited {
        assert Reaching(months, inherited) == r + [] == r;
      } else {
        assert Reaching(months, inherited) == r + [last];
        FirstOccurrencesAppend(r, last);
        assert (last.developerName in AsWrittenMap(init, inherited)) == (last.developerName in Names(r)) by {
          AsWrittenMapSums(init, inherited);
          ReachingNames(init, inherited);
        }
      }
    }
  }

  /**
    As written, the accumulator is the accumulator of the records that reach it:
    those whose name is not inherited.
  */
  lemma {:induction false} AsWrittenMapReaching(months: seq<MonthRecord>, inherited: set<string>)
    ensures AsWrittenMap(months, inherited) == SummaryMap(Reaching(months, inherited))
  {
    if months != [] {
      var init, last := months[..|months| - 1], months[|months| - 1];
      var r := Reaching(init, inherited);
      AsWrittenMapReaching(init, inherited);
      if last.developerName in inherited {
        assert last.developerName !in AsWrittenMap(init, inherited) by {
          AsWrittenMapSums(init, inherited);
        }
        assert Reaching(months, inherited) == r + [] == r;
      } else {
        assert Reaching(months, inherited) == r + [last];
        SummaryMapAppend(r, last);
      }
    }
  }

  /** The names of the records that reach the accumulator, in first-occurrence order, are the other names left in that order. */
  lemma {:induction false} FirstOccurrencesReaching(months: seq<MonthRecord>, inherited: set<string>)
    ensures FirstOccurrences(Reaching(months, inherited)) == Without(FirstOccurrences(months), inherited)
  {
    if months != [] {
      var init, last := months[..|months| - 1], months[|months| - 1];
      var name, r, prev := last.developerName, Reaching(init, inherited), FirstOccurrences(init);
      FirstOccurrencesReaching(init, inherited);
      if name !in Names(init) {
        assert (prev + [name])[..|prev|] == prev;
      }
      if name in inherited {
        assert Reaching(months, inherited) == r + [] == r;
        var w := Without(prev, inherited);
        assert w + [] == w;
      } else {
        assert Reaching(months, inherited) == r + [last];
        FirstOccurrencesAppend(r, last);
        assert (name in Names(r)) == (name in Names(init)) by {
          ReachingNames(init, inherited);
        }
      }
    }
  }

  /** When no name is inherited, every record reaches the accumulator. */
  lemma {:induction false} ReachingAll(months: seq<MonthRecord>, inherited: set<string>)
    requires Names(months) !! inherited
    ensures Reaching(months, inherited) == months
  {
    if months != [] {
      var init := months[..|months| - 1];
      assert Names(months) == Names(init) + {months[|months| - 1].developerName};
      ReachingAll(init, inherited);
      assert months == init + [months[|months| - 1]];
    }
  }

  /** One step of the grouping reduce as written, on the accumulator. */
  lemma AsWrittenAccumulatorStep(done: seq<MonthRecord>, m: MonthRecord, inherited: set<string>,
                                 acc: map<string, int>, acc': map<string, int>)
    requires acc == AsWrittenMap(done, inherited)
    requires var name := m.developerName;
      name in acc ==> acc' == acc[name := acc[name] + m.propertyPrice]
    requires var name := m.developerName;
      name !in acc && name !in inherited ==> acc' == acc[name := 0][name := acc[name := 0][name] + m.propertyPrice]
    requires var name := m.developerName;
      name !in acc && name in inherited ==> acc' == acc
    ensures acc' == AsWrittenMap(done + [m], inherited)
  {
    assert (done + [m])[..|done|] == done;
  }

  /** One step of the grouping reduce as written, on the list of created keys. */
  lemma AsWrittenCreatedStep(done: seq<MonthRecord>, m: MonthRecord, inherited: set<string>,
                             acc: map<string, int>, keys: seq<string>, keys': seq<string>)
    requires acc == AsWrittenMap(done, inherited) && keys == AsWrittenCreated(done, inherited)
    requires var name := m.developerName;
      name !in acc && name !in inherited ==> keys' == keys + [name]
    requires var name := m.developerName;
      name in acc || name in inherited ==> keys' == keys
    ensures keys' == AsWrittenCreated(done + [m], inherited)
  {
    assert (done + [m])[..|done|] == done;
  }

  /**
    The grouping reduce exactly as the component writes it, with `acc` an object
    that inherits the properties named `inherited` (for the plain object `{}` of
    the component, `InheritedNames`). The test `!acc[developerName]` also reads
    inherited properties; for a record named, say, "constructor" it finds the
    inherited `Object` function, creates no entry, and the `+=` writes the
    `propertyPrice` of that shared function instead of an entry of `acc`. The
    result is the grouping of the other records only.
  */
  method SummarizeAsWritten(months: seq<MonthRecord>, inherited: set<string>)
    returns (summary: map<string, int>, created: seq<string>)
    ensures summary == SummaryMap(Reaching(months, inherited))
    ensures summary.Keys == Names(months) - inherited
    ensures forall n | n in summary :: summary[n] == PriceOf(months, n)
    ensures created == FirstOccurrences(Reaching(months, inherited))
  {
    summary, created := map[], [];
    var i := 0;
    while i < |months|
      invariant 0 <= i <= |months|
      invariant summary == AsWrittenMap(months[..i], inherited)
      invariant created == AsWrittenCreated(months[..i], inherited)
    {
      var name, price := months[i].developerName, months[i].propertyPrice;
      ghost var acc, keys := summary, created;
      if name !in summary && name !in inherited {
        // !acc[developerName]: neither an own nor an inherited property
        summary := summary[name := 0];
        created := created + [name];
      }
      if name in summary {
        summary := summary[name := summary[name] + price];
      } else {
        // the += updates the inherited property, not acc
      }
      AsWrittenAccumulatorStep(months[..i], months[i], inherited, acc, summary);
      AsWrittenCreatedStep(months[..i], months[i], inherited, acc, keys, created);
      TakeNext(months, i);
      i := i + 1;
    }
    assert months[..i] == months;
    AsWrittenMapSums(months, inherited);
    AsWrittenCreatedReaching(months, inherited);
    AsWrittenMapReaching(months, inherited);
  }

  /**
    A single record named "constructor": the total counts its price, but the
    grouping as written keeps no entry and lists no key, while the corrected
    grouping has the one entry.
  */
  lemma InheritedNameIsLost()
    ensures var months := [MonthRecord("constructor", 100)];
      && TotalPrice(months) == 100
      && Names(months) - InheritedNames == {}
      && FirstOccurrences(Reaching(months, InheritedNames)) == []
      && Names(months) == {"constructor"}
      && PriceOf(months, "constructor") == 100
  {
    var months := [MonthRecord("constructor", 100)];
    assert months[..0] == [];
    assert Names(months) == {"constructor"};
    assert Reaching(months, InheritedNames) == [];
  }

  /** Sum of the per-name prices over a list of names. */
  function SumPrices(months: seq<MonthRecord>, keys: seq<string>): int {
    if keys == [] then 0 else PriceOf(months, keys[0]) + SumPrices(months, keys[1..])
  }

  lemma {:induction false} SumPricesConcat(months: seq<MonthRecord>, a: seq<string>, b: seq<string>)
    ensures SumPrices(months, a + b) == SumPrices(months, a) + SumPrices(months, b)
  {
    if a == [] {
      assert a + b == b;
    } else {
      assert (a + b)[1..] == a[1..] + b;
      SumPricesConcat(months, a[1..], b);
    }
  }

  /** Adding one record to the months adds its price once if its name is listed. */
  lemma {:induction false} SumPricesLastRecord(months: seq<MonthRecord>, keys: seq<string>)
    requires months != [] && Distinct(keys)
    ensures var last := months[|months| - 1];
      SumPrices(months, keys) ==
        SumPrices(months[..|months| - 1], keys) + (if last.developerName in keys then last.propertyPrice else 0)
  {
    if keys != [] {
      assert Distinct(keys[1..]);
      SumPricesLastRecord(months, keys[1..]);
      assert keys[0] !in keys[1..];
      assert keys == [keys[0]] + keys[1..];
    }
  }

  lemma {:induction false} SumPricesAbsent(months: seq<MonthRecord>, keys: seq<string>)
    requires forall i | 0 <= i < |keys| :: keys[i] !in Names(months)
    ensures SumPrices(months, keys) == 0
  {
    if keys != [] {
      PriceOfAbsent(months, keys[0]);
      SumPricesAbsent(months, keys[1..]);
    }
  }

  /**
    Conservation: summing the per-developer totals over every developer gives
    the grand total, so grouping loses and double-counts nothing.
  */
  lemma {:induction false} GroupingConservesTotal(months: seq<MonthRecord>)
    ensures SumPrices(months, FirstOccurrences(months)) == TotalPrice(months)
  {
    if months != [] {
      var init := months[..|months| - 1];
      var last := months[|months| - 1];
      var prev := FirstOccurrences(init);
      GroupingConservesTotal(init);
      if last.developerName in Names(init) {
        SumPricesLastRecord(months, prev);
      } else {
        SumPricesConcat(months, prev, [last.developerName]);
        SumPricesLastRecord(months, prev);
        PriceOfAbsent(init, last.developerName);
        assert SumPrices(months, [last.developerName]) == PriceOf(months, last.developerName);
      }
    }
  }

  lemma {:induction false} SumPricesInsert(months: seq<MonthRecord>, key: string, sorted: seq<string>)
    ensures SumPrices(months, InsertByIndex(key, sorted)) == PriceOf(months, key) + SumPrices(months, sorted)
  {
    if sorted != [] && IndexValue(key) > IndexValue(sorted[0]) {
      SumPricesInsert(months, key, sorted[1..]);
    }
  }

  lemma {:induction false} SumPricesSort(months: seq<MonthRecord>, keys: seq<string>)
    ensures SumPrices(months, SortByIndex(keys)) == SumPrices(months, keys)
  {
    if keys != [] {
      SumPricesSort(months, keys[1..]);
      SumPricesInsert(months, keys[0], SortByIndex(keys[1..]));
    }
  }

  lemma {:induction false} SumPricesSplit(months: seq<MonthRecord>, keys: seq<string>)
    ensures SumPrices(months, IndexKeys(keys)) + SumPrices(months, NamedKeys(keys)) == SumPrices(months, keys)
  {
    if keys != [] {
      SumPricesSplit(months, keys[1..]);
      var head := if IsArrayIndex(keys[0]) then [keys[0]] else [];
      var other := if IsArrayIndex(keys[0]) then [] else [keys[0]];
      SumPricesConcat(months, head, IndexKeys(keys[1..]));
      SumPricesConcat(months, other, NamedKeys(keys[1..]));
    }
  }

  /** Visiting the entries in `Object.values` order does not change their sum. */
  lemma SumPricesOwnKeyOrder(months: seq<MonthRecord>, keys: seq<string>)
    ensures SumPrices(months, OwnKeyOrder(keys)) == SumPrices(months, keys)
  {
    SumPricesSplit(months, keys);
    SumPricesSort(months, IndexKeys(keys));
    SumPricesConcat(months, SortByIndex(IndexKeys(keys)), NamedKeys(keys));
  }
}
