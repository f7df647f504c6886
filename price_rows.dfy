/**
  The rows of the chart and the table: one `{name, value, percentage}` per
  developer, the percentage being the developer's share of the grand total.

  The share is kept as an exact rational number; the floating-point division
  and the rounding of `toFixed(2)` are not modelled. A zero total makes the
  JavaScript division yield NaN (for 0 / 0) or an infinity, kept here as such.
*/
module PriceRows {

  datatype Percent = Finite(share: real) | PositiveInfinity | NegativeInfinity | NaN

  datatype Row = Row(name: string, value: int, percentage: Percent)

  /** `(value / total) * 100` */
  function Percentage(value: int, total: int): (p: Percent)
    ensures p.Finite? <==> total != 0
    ensures p.Finite? ==> p.share * (total as real) == (value as real) * 100.0
    ensures p == NaN <==> total == 0 && value == 0
    ensures p == PositiveInfinity <==> total == 0 && value > 0
  {
    if total != 0 then Finite((value as real) / (total as real) * 100.0)
    else if value > 0 then PositiveInfinity
    else if value < 0 then NegativeInfinity
    else NaN
  }

  /** A non-negative part of a positive total is a share between 0 and 100. */
  lemma ShareBounds(value: int, total: int)
    requires 0 <= value <= total && total > 0
    ensures 0.0 <= Percentage(value, total).share <= 100.0
  {
    var p := Percentage(value, total).share;
    assert p * (total as real) == (value as real) * 100.0;
  }

  /**
    `Object.values(developerSummary).map(dev => ({name, value, percentage}))`:
    one row per key of `keys`, in that order, each with the key's summed price
    and its share of `total`.
  */
  function ToRows(summary: map<string, int>, keys: seq<string>, total: int): (rows: seq<Row>)
    requires forall i | 0 <= i < |keys| :: keys[i] in summary
    ensures |rows| == |keys|
    ensures forall i | 0 <= i < |rows| ::
      rows[i] == Row(keys[i], summary[keys[i]], Percentage(summary[keys[i]], total))
  {
    if keys == [] then []
    else [Row(keys[0], summary[keys[0]], Percentage(summary[keys[0]], total))] + ToRows(summary, keys[1..], total)
  }

  function RowNames(rows: seq<Row>): (names: seq<string>)
    ensures |names| == |rows| && forall i | 0 <= i < |rows| :: names[i] == rows[i].name
  {
    if rows == [] then [] else [rows[0].name] + RowNames(rows[1..])
  }

  /** The sum of the rows' values. */
  function SumValues(rows: seq<Row>): int {
    if rows == [] then 0 else rows[0].value + SumValues(rows[1..])
  }

  /** The sum of the rows' finite shares. */
  function SumShares(rows: seq<Row>): real {
    if rows == [] then 0.0
    else (if rows[0].percentage.Finite? then rows[0].percentage.share else 0.0) + SumShares(rows[1..])
  }

  lemma {:induction false} SharesScale(summary: map<string, int>, keys: seq<string>, total: int)
    requires forall i | 0 <= i < |keys| :: keys[i] in summary
    requires total != 0
    ensures SumShares(ToRows(summary, keys, total)) * (total as real) ==
      (SumValues(ToRows(summary, keys, total)) as real) * 100.0
  {
    if keys != [] {
      var rows := ToRows(summary, keys, total);
      SharesScale(summary, keys[1..], total);
      assert rows[1..] == ToRows(summary, keys[1..], total);
      var a, b := rows[0].percentage.share, SumShares(rows[1..]);
      assert (a + b) * (total as real) == a * (total as real) + b * (total as real);
    }
  }

  /** With a non-zero total, the shares add up to the share that the values' sum is of the total. */
  lemma SharesArePercentage(rows: seq<Row>, summary: map<string, int>, keys: seq<string>, total: int)
    requires forall i | 0 <= i < |keys| :: keys[i] in summary
    requires total != 0 && rows == ToRows(summary, keys, total)
    ensures SumShares(rows) == Percentage(SumValues(rows), total).share
  {
    SharesScale(summary, keys, total);
    var s, t, p := SumShares(rows), total as real, Percentage(SumValues(rows), total).share;
    assert s * t == p * t;
    assert s == (s * t) / t;
  }

  /**
    When the row values add up to a non-zero total, the shares add up to
    exactly 100 (before any rounding).
  */
  lemma SharesSumTo100(summary: map<string, int>, keys: seq<string>, total: int)
    requires forall i | 0 <= i < |keys| :: keys[i] in summary
    requires total != 0 && SumValues(ToRows(summary, keys, total)) == total
    ensures SumShares(ToRows(summary, keys, total)) == 100.0
  {
    var rows := ToRows(summary, keys, total);
    SharesScale(summary, keys, total);
    var s, t := SumShares(rows), total as real;
    calc {
      s * t;
      (SumValues(rows) as real) * 100.0;
      { assert SumValues(rows) == total; }
      t * 100.0;
    }
    assert s == (s * t) / t;
  }
}
