/**
 * The VALUES list of the multi-row INSERT statements of internal/repo: the
 * i-th row of a table with `width` columns gets the numbered placeholders
 * ($i*width+1, ..., $i*width+width), written by fmt.Sprintf as
 * "($1, $2, $3)", and the rows are separated by ",".
 */
module SqlPlaceholders {
  import opened GoStrings

  /** `$n`, as the `$%d` verb writes it. */
  function Placeholder(n: nat): string {
    "$" + Itoa(n)
  }

  /** The placeholder numbers of row `row` of a table with `width` columns. */
  function RowNumbers(row: nat, width: nat): seq<nat> {
    seq(width, j requires 0 <= j < width => row * width + j + 1)
  }

  /** The text of one row: its placeholders in parentheses, separated by ", ". */
  function Row(row: nat, width: nat): string {
    var ns := RowNumbers(row, width);
    "(" + Join(seq(|ns|, j requires 0 <= j < |ns| => Placeholder(ns[j])), ", ") + ")"
  }

  /** The texts of the first `k` rows. */
  function Rows(k: nat, width: nat): seq<string> {
    seq(k, i requires 0 <= i < k => Row(i, width))
  }

  /** The VALUES list of `k` rows. */
  function ValuesList(k: nat, width: nat): string {
    Join(Rows(k, width), ",")
  }

  /** `column = EXCLUDED.column`: on a conflict the column takes the value the new row would have inserted. */
  function ColumnUpdate(column: string): string {
    column + " = EXCLUDED." + column
  }

  /** One more row adds its text after a ",", or alone when it is the first. */
  lemma ValuesListSnoc(k: nat, width: nat)
    ensures ValuesList(k + 1, width) == if k == 0 then Row(0, width) else ValuesList(k, width) + "," + Row(k, width)
  {
    assert Rows(k + 1, width) == Rows(k, width) + [Row(k, width)];
    JoinSnoc(Rows(k, width), Row(k, width), ",");
  }

  /** The placeholder numbers of the first `k` rows, row after row. */
  function AllNumbers(k: nat, width: nat): seq<nat> {
    if k == 0 then [] else AllNumbers(k - 1, width) + RowNumbers(k - 1, width)
  }

  /**
   * Row after row, the placeholders count 1, 2, ..., k*width without a gap
   * or a repeat, so the n-th placeholder binds the n-th argument.
   */
  lemma {:induction false} AllNumbersConsecutive(k: nat, width: nat)
    ensures |AllNumbers(k, width)| == k * width
    ensures forall p :: 0 <= p < k * width ==> AllNumbers(k, width)[p] == p + 1
  {
    if k > 0 {
      AllNumbersConsecutive(k - 1, width);
      var before := AllNumbers(k - 1, width);
      assert (k - 1) * width + width == k * width;
      forall p | 0 <= p < k * width
        ensures AllNumbers(k, width)[p] == p + 1
      {
        if p >= |before| {
          assert AllNumbers(k, width)[p] == RowNumbers(k - 1, width)[p - |before|];
        }
      }
    }
  }

  /** Different numbers give different placeholders. */
  lemma PlaceholderInjective(m: nat, n: nat)
    ensures Placeholder(m) == Placeholder(n) <==> m == n
  {
    if Placeholder(m) == Placeholder(n) {
      assert Itoa(m) == Placeholder(m)[1..];
      DecimalOfItoa(m);
      DecimalOfItoa(n);
    }
  }
}
