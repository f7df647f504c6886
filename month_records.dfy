/**
  The month records the price chart reads, and the quantities derived from
  them one record at a time: the grand total, the developer names, the price
  total of one developer and the order in which the names first appear.

  Every definition peels off the LAST record, the way a left fold
  (`Array.prototype.reduce`) visits them.
*/
module MonthRecords {
  import opened ObjectKeys

  datatype Option<T> = None | Some(value: T)

  /** One month of the data set: which developer sold, at what price. */
  datatype MonthRecord = MonthRecord(developerName: string, propertyPrice: int)

  /** The data set: year -> that year's month records, in `Object.values` order. */
  type DeveloperData = map<string, seq<MonthRecord>>

  /**
    The months of 2024 followed by the months of 2025. A missing year makes
    `Object.values(undefined)` throw a TypeError; that is `None` here.
  */
  function AllMonths(data: DeveloperData): (r: Option<seq<MonthRecord>>)
    ensures r.Some? <==> "2024" in data && "2025" in data
    ensures r.Some? ==>
      && |r.value| == |data["2024"]| + |data["2025"]|
      && r.value[..|data["2024"]|] == data["2024"]
      && r.value[|data["2024"]|..] == data["2025"]
  {
    if "2024" in data && "2025" in data then Some(data["2024"] + data["2025"]) else None
  }

  /** The first i + 1 records are the first i records and record i. */
  lemma TakeNext(months: seq<MonthRecord>, i: nat)
    requires i < |months|
    ensures months[..i + 1] == months[..i] + [months[i]]
  {
  }

  /** `allMonthsData.reduce((total, month) => total + month.propertyPrice, 0)` */
  function TotalPrice(months: seq<MonthRecord>): int {
    if months == [] then 0
    else TotalPrice(months[..|months| - 1]) + months[|months| - 1].propertyPrice
  }

  /** The total of two consecutive stretches of months is the sum of their totals. */
  lemma {:induction false} TotalPriceAppend(a: seq<MonthRecord>, b: seq<MonthRecord>)
    ensures TotalPrice(a + b) == TotalPrice(a) + TotalPrice(b)
  {
    if b == [] {
      assert a + b == a;
    } else {
      assert (a + b)[..|a + b| - 1] == a + b[..|b| - 1];
      TotalPriceAppend(a, b[..|b| - 1]);
    }
  }

  /** The developer names that occur in `months`. */
  function Names(months: seq<MonthRecord>): set<string> {
    if months == [] then {}
    else Names(months[..|months| - 1]) + {months[|months| - 1].developerName}
  }

  /** A name is in `Names` exactly when some record carries it. */
  lemma {:induction false} NamesIff(months: seq<MonthRecord>, name: string)
    ensures name in Names(months) <==> exists i | 0 <= i < |months| :: months[i].developerName == name
  {
    if months != [] {
      var init := months[..|months| - 1];
      NamesIff(init, name);
      assert forall i | 0 <= i < |init| :: init[i] == months[i];
    }
  }

  /** The summed price of exactly the records whose name is `name` (exact, case-sensitive match). */
  function PriceOf(months: seq<MonthRecord>, name: string): int {
    if months == [] then 0
    else
      var last := months[|months| - 1];
      PriceOf(months[..|months| - 1], name) + (if last.developerName == name then last.propertyPrice else 0)
  }

  /** A name that does not occur contributes nothing. */
  lemma {:induction false} PriceOfAbsent(months: seq<MonthRecord>, name: string)
    requires name !in Names(months)
    ensures PriceOf(months, name) == 0
  {
    if months != [] {
      PriceOfAbsent(months[..|months| - 1], name);
    }
  }

  /** The position of the first record carrying `name`. */
  function FirstIndex(months: seq<MonthRecord>, name: string): (k: nat)
    requires name in Names(months)
    ensures k < |months| && months[k].developerName == name
    ensures forall i | 0 <= i < k :: months[i].developerName != name
  {
    var init := months[..|months| - 1];
    if name in Names(init) then FirstIndex(init, name)
    else
      NamesIff(init, name);
      |months| - 1
  }

  /**
    Every name of `months` exactly once, in the order of its first record; this
    is the order in which a reduce over `months` creates one entry per name.
  */
  function FirstOccurrences(months: seq<MonthRecord>): (r: seq<string>)
    ensures forall n :: n in r <==> n in Names(months)
    ensures Distinct(r)
  {
    if months == [] then []
    else
      var init := months[..|months| - 1];
      var name := months[|months| - 1].developerName;
      if name in Names(init) then FirstOccurrences(init) else FirstOccurrences(init) + [name]
  }

  /** `keys` are names of `months`, listed by increasing first position. */
  predicate InFirstOccurrenceOrder(months: seq<MonthRecord>, keys: seq<string>) {
    && (forall i | 0 <= i < |keys| :: keys[i] in Names(months))
    && forall i, j | 0 <= i < j < |keys| :: FirstIndex(months, keys[i]) < FirstIndex(months, keys[j])
  }

  /** The names come out in the order of their first records. */
  lemma {:induction false} FirstOccurrencesOrdered(months: seq<MonthRecord>)
    ensures InFirstOccurrenceOrder(months, FirstOccurrences(months))
  {
    if months != [] {
      var init := months[..|months| - 1];
      var name := months[|months| - 1].developerName;
      FirstOccurrencesOrdered(init);
      var prev := FirstOccurrences(init);
      assert forall k | k in Names(init) :: FirstIndex(months, k) == FirstIndex(init, k) < |init|;
      if name !in Names(init) {
        var r := prev + [name];
        assert FirstIndex(months, name) == |init|;
        forall i, j | 0 <= i < j < |r|
          ensures FirstIndex(months, r[i]) < FirstIndex(months, r[j])
        {
          assert r[i] == prev[i] && r[i] in Names(init);
          if j < |prev| {
            assert r[j] == prev[j];
          }
        }
      }
    }
  }

  /** Rank of a name by its first record; names that do not occur rank last. */
  function FirstRank(months: seq<MonthRecord>): string -> int {
    n => if n in Names(months) then FirstIndex(months, n) else |months|
  }

  /** The ordering is the same as strictly increasing `FirstRank`. */
  lemma OrderIsRank(months: seq<MonthRecord>, keys: seq<string>)
    requires forall i | 0 <= i < |keys| :: keys[i] in Names(months)
    ensures InFirstOccurrenceOrder(months, keys) <==>
      forall i, j | 0 <= i < j < |keys| :: FirstRank(months)(keys[i]) < FirstRank(months)(keys[j])
  {
  }
}
