/**
 * What one frame of output looks like: the output dtype chosen at construction, the finished
 * value of each output sample, and the regrouping of a flat frame into rows of phase bins.
 */
module Frames {
  import opened Common

  /** The output dtype: the input's own element type, or a record holding `data` and `count`. */
  datatype Layout = Plain | DataCount

  /** The dtype `IntegrateBase.__init__` settles on: averaging keeps the input's, sums get a record. */
  function OutputLayout(average: bool, dtype: Option<Layout>): (r: Layout)
    ensures dtype.None? ==> (r == Plain <==> average)
    ensures dtype.Some? ==> r == dtype.value
  {
    match dtype
    case Some(d) => d
    case None => if average then Plain else DataCount
  }

  /**
   * A frame can be filled only when the dtype suits the mode: averaging writes sums into the
   * whole output and divides it, summing writes into its `data` and `count` fields.
   */
  predicate LayoutFits(layout: Layout, average: bool)
  {
    (layout == Plain) == average
  }

  lemma DefaultLayoutFits(average: bool)
    ensures LayoutFits(OutputLayout(average, None), average)
  {
  }

  /** A finished output sample: an average (None standing for NaN), or a sum with its count. */
  datatype Sample = Mean(value: Option<real>) | Total(data: int, count: int)

  /** The last step of a frame: `out /= count` when averaging, the record otherwise. */
  function Finalize(sum: int, count: int, average: bool): (r: Sample)
    ensures average <==> r.Mean?
    ensures r.Mean? ==> (r.value.None? <==> count == 0)
    ensures r.Mean? && r.value.Some? ==> r.value.value * count as real == sum as real
    ensures r.Total? ==> r.data == sum && r.count == count
  {
    if average then Mean(if count == 0 then None else Some(sum as real / count as real))
    else Total(sum, count)
  }

  /** Where the count is not 0, data/count of the summed record is the averaged value. */
  lemma TotalsGiveAverage(sum: int, count: int)
    requires count != 0
    ensures Finalize(sum, count, true).value
         == Some(Finalize(sum, count, false).data as real / Finalize(sum, count, false).count as real)
  {
  }

  /** numpy's reshape of a flat frame of rows * width values into `rows` rows of `width`. */
  function Rows<T>(s: seq<T>, rows: nat, width: nat): (r: seq<seq<T>>)
    requires |s| == rows * width
    ensures |r| == rows
    ensures forall i :: 0 <= i < rows ==> |r[i]| == width
  {
    if rows == 0 then []
    else
      assert rows * width == (rows - 1) * width + width;
      Rows(s[..|s| - width], rows - 1, width) + [s[|s| - width..]]
  }

  /** Row i, column j of the reshaped frame is element i * width + j of the flat frame. */
  lemma {:induction false} RowsAt<T>(s: seq<T>, rows: nat, width: nat, i: nat, j: nat)
    requires |s| == rows * width && i < rows && j < width
    ensures i * width + j < |s| && Rows(s, rows, width)[i][j] == s[i * width + j]
  {
    assert rows * width == (rows - 1) * width + width;
    if i == rows - 1 {
      assert i * width == |s| - width;
    } else {
      RowsAt(s[..|s| - width], rows - 1, width, i, j);
    }
  }

  function Flatten<T>(rows: seq<seq<T>>): seq<T>
  {
    if |rows| == 0 then [] else Flatten(rows[..|rows| - 1]) + rows[|rows| - 1]
  }

  /** The last row of a reshaped frame is its last `width` values; the rows before it reshape the rest. */
  lemma RowsLast<T>(s: seq<T>, rows: nat, width: nat)
    requires |s| == rows * width && rows > 0
    ensures width <= |s| && |s| - width == (rows - 1) * width
    ensures Rows(s, rows, width) == Rows(s[..|s| - width], rows - 1, width) + [s[|s| - width..]]
  {
    assert rows * width == (rows - 1) * width + width;
  }

  /** Reshaping into rows loses and reorders nothing: flattening the rows gives the frame back. */
  lemma {:induction false} RowsRoundTrip<T>(s: seq<T>, rows: nat, width: nat)
    requires |s| == rows * width
    ensures Flatten(Rows(s, rows, width)) == s
  {
    if rows > 0 {
      RowsLast(s, rows, width);
      var n := |s| - width;
      var front := Rows(s[..n], rows - 1, width);
      var r := front + [s[n..]];
      assert r[..rows - 1] == front && r[rows - 1] == s[n..];
      RowsRoundTrip(s[..n], rows - 1, width);
      assert Flatten(r) == Flatten(front) + s[n..];
      assert s[..n] + s[n..] == s;
    }
  }
}
