/**
  The palette of the pie chart and of the table swatches. Both colour an entry
  by its position in the list they draw: `COLORS[index % COLORS.length]`.
*/
module ChartColors {
  import opened ObjectKeys
  import opened PriceRows
  import opened SearchFilter

  /** The eight colours, in order. */
  const Colors: seq<string> :=
    ["#0088FE", "#00C49F", "#FFBB28", "#FF8042", "#8884d8", "#82ca9d", "#ffc658", "#ff6b6b"]

  /** `index % COLORS.length`: a position in the palette, cycling every eight entries. */
  function ColorIndex(index: nat): (k: nat)
    ensures k < |Colors|
    ensures index < |Colors| ==> k == index
  {
    index % 8
  }

  /** The palette repeats after eight entries. */
  lemma ColorPeriodic(index: nat)
    ensures ColorIndex(index + |Colors|) == ColorIndex(index)
  {
    assert (index + 8) % 8 == index % 8;
  }

  /** The colour of the entry at `index`. */
  function ColorAt(index: nat): string {
    Colors[ColorIndex(index)]
  }

  /** No colour occurs twice in the palette. */
  lemma PaletteDistinct()
    ensures Distinct(Colors)
  {
    forall i, j | 0 <= i < j < |Colors| ensures Colors[i] != Colors[j] {
      assert Colors[i][1..3] != Colors[j][1..3] || Colors[i][3..] != Colors[j][3..];
    }
  }

  /** Two entries get the same colour exactly when their positions differ by a multiple of eight. */
  lemma SameColorIff(i: nat, j: nat)
    ensures ColorAt(i) == ColorAt(j) <==> i % 8 == j % 8
  {
    PaletteDistinct();
  }

  /** Eight consecutive entries all get different colours. */
  lemma WindowOfEightDistinct(i: nat, j: nat)
    requires i < j < i + 8
    ensures ColorAt(i) != ColorAt(j)
  {
    SameColorIff(i, j);
    var qi, qj := i / 8, j / 8;
    assert i == 8 * qi + i % 8;
    assert j == 8 * qj + j % 8;
  }

  /** `list.map((_, index) => COLORS[index % COLORS.length])`: one colour per position. */
  function IndexColors(n: nat): (cs: seq<string>)
    ensures |cs| == n
    ensures forall i | 0 <= i < n :: cs[i] in Colors && cs[i] == ColorAt(i)
  {
    seq(n, i requires 0 <= i < n => ColorAt(i))
  }

  /** The fills of the pie's cells, one per chart row. */
  function SliceColors(chart: seq<Row>): (cs: seq<string>)
    ensures |cs| == |chart|
    ensures forall k | 0 <= k < |cs| :: cs[k] == ColorAt(k)
  {
    IndexColors(|chart|)
  }

  /**
    The swatches of the table as the component draws them: each row coloured
    by its position in the FILTERED list.
  */
  function TableSwatchesAsWritten(chart: seq<Row>, term: string): (cs: seq<string>)
    ensures |cs| == |FilterRows(chart, term)|
    ensures forall k | 0 <= k < |cs| :: cs[k] == ColorAt(k)
  {
    IndexColors(|FilterRows(chart, term)|)
  }

  /** The term "beta" over the rows Alpha, Beta: the table gives Beta the swatch of Alpha's slice. */
  lemma SwatchDisagreesAfterFilter()
    ensures var alpha, beta := Row("Alpha", 1, NaN), Row("Beta", 2, NaN);
      && FilterRows([alpha, beta], "beta") == [beta]
      && TableSwatchesAsWritten([alpha, beta], "beta")[0] == Colors[0]
      && SliceColors([alpha, beta])[1] == Colors[1]
      && Colors[0] != Colors[1]
  {
    var alpha, beta := Row("Alpha", 1, NaN), Row("Beta", 2, NaN);
    AlphaLacksBeta();
    BetaContainsBeta();
    KeepAppend([], alpha, "beta");
    KeepAppend([alpha], beta, "beta");
    assert [alpha] + [beta] == [alpha, beta];
    FilterIsKeep([alpha, beta], "beta");
    PaletteDistinct();
  }

  lemma AlphaLacksBeta()
    ensures !Matches(Row("Alpha", 1, NaN), "beta")
  {
    assert ToLower("beta") == "beta";
    assert ToLower("Alpha") == "alpha";
    assert "alpha"[0] != "beta"[0];
    assert "alpha"[1..] == "lpha";
    assert "lpha"[0] != "beta"[0];
    assert "lpha"[1..] == "pha";
    IncludesLonger("pha", "beta");
  }

  lemma BetaContainsBeta()
    ensures Matches(Row("Beta", 2, NaN), "beta")
  {
    assert ToLower("beta") == "beta";
    assert ToLower("Beta") == "beta";
  }

  /**
    The swatches as the palette intends: each table row coloured like the
    slice of the same row in the chart.
  */
  function TableSwatches(chart: seq<Row>, term: string): (cs: seq<string>)
    ensures |cs| == |FilterRows(chart, term)|
    ensures |cs| == |KeptIndices(chart, term)|
    ensures forall k | 0 <= k < |cs| :: cs[k] == ColorAt(KeptIndices(chart, term)[k])
  {
    FilterIsKeep(chart, term);
    var idx := KeptIndices(chart, term);
    seq(|idx|, k requires 0 <= k < |idx| => ColorAt(idx[k]))
  }

  /** With distinct chart rows, every table row's swatch is the colour of that row's slice. */
  lemma SwatchMatchesSlice(chart: seq<Row>, term: string)
    requires Distinct(chart)
    ensures var filtered, sw, sl := FilterRows(chart, term), TableSwatches(chart, term), SliceColors(chart);
      forall k, i | 0 <= k < |filtered| && 0 <= i < |chart| && filtered[k] == chart[i] :: sw[k] == sl[i]
  {
    FilterIsKeep(chart, term);
    var filtered, idx := FilterRows(chart, term), KeptIndices(chart, term);
    forall k, i | 0 <= k < |filtered| && 0 <= i < |chart| && filtered[k] == chart[i]
      ensures TableSwatches(chart, term)[k] == SliceColors(chart)[i]
    {
      assert chart[idx[k]] == chart[i];
      assert idx[k] == i;
    }
  }

  /** With no filter, the table's swatches as written are already the slices' colours. */
  lemma EmptyTermSwatchesAgree(chart: seq<Row>)
    ensures TableSwatchesAsWritten(chart, "") == SliceColors(chart)
    ensures TableSwatches(chart, "") == SliceColors(chart)
  {
    FilterIsKeep(chart, "");
    KeepEmptyTerm(chart);
    EmptyTermIndices(chart);
  }
}
