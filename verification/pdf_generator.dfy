/**
 * The backend's PdfGenerator: the report table's column widths (each
 * column's widest entry as a percentage of all columns' widest entries) and
 * the name of the file a report or a receipt is written to. The iText
 * document itself is not modelled.
 */
module PdfGenerator {
  import opened Common

  /** Every data row has at most one cell per header. */
  predicate RowsFit(headers: seq<string>, data: seq<seq<string>>)
  {
    forall r :: 0 <= r < |data| ==> |data[r]| <= |headers|
  }

  /** The length of column i's widest entry: its header or any of its cells. */
  function ColumnMax(headers: seq<string>, data: seq<seq<string>>, i: nat): (m: nat)
    requires i < |headers|
    ensures m >= |headers[i]|
    ensures forall r :: 0 <= r < |data| && i < |data[r]| ==> |data[r][i]| <= m
    decreases |data|
  {
    if data == [] then |headers[i]|
    else
      var front := data[..|data| - 1];
      var last := data[|data| - 1];
      var before := ColumnMax(headers, front, i);
      assert forall r :: 0 <= r < |front| ==> data[r] == front[r];
      if i < |last| && |last[i]| > before then |last[i]| else before
  }

  /** The maximum is attained: by the header or by one of the column's cells. */
  lemma {:induction false} ColumnMaxAttained(headers: seq<string>, data: seq<seq<string>>, i: nat)
    requires i < |headers|
    ensures ColumnMax(headers, data, i) == |headers[i]|
            || exists r :: 0 <= r < |data| && i < |data[r]| && ColumnMax(headers, data, i) == |data[r][i]|
    decreases |data|
  {
    if data != [] {
      var front := data[..|data| - 1];
      ColumnMaxAttained(headers, front, i);
      if ColumnMax(headers, data, i) != ColumnMax(headers, front, i) {
        assert ColumnMax(headers, data, i) == |data[|data| - 1][i]|;
      } else if ColumnMax(headers, front, i) != |headers[i]| {
        var r :| 0 <= r < |front| && i < |front[r]| && ColumnMax(headers, front, i) == |front[r][i]|;
        assert data[r] == front[r];
      }
    }
  }

  /** The widest entry of every column, in header order. */
  function ColumnMaxes(headers: seq<string>, data: seq<seq<string>>): (ms: seq<nat>)
    ensures |ms| == |headers|
    ensures forall i :: 0 <= i < |headers| ==> ms[i] == ColumnMax(headers, data, i)
  {
    seq(|headers|, i requires 0 <= i < |headers| => ColumnMax(headers, data, i))
  }

  function Sum(xs: seq<nat>): nat
  {
    if xs == [] then 0 else Sum(xs[..|xs| - 1]) + xs[|xs| - 1]
  }

  /** A float width: a percentage, or NaN where 0/0 was computed. */
  datatype Width = Percent(value: real) | NotANumber

  /**
   * Each column's share of the total, times 100. With a zero total every
   * column is 0 wide and 0/0 is NaN.
   */
  function Widths(lengths: seq<nat>): (ws: seq<Width>)
    ensures |ws| == |lengths|
    ensures Sum(lengths) == 0 ==> forall i :: 0 <= i < |ws| ==> ws[i] == NotANumber
    ensures Sum(lengths) > 0 ==>
              forall i :: 0 <= i < |ws| ==> ws[i] == Percent(lengths[i] as real / Sum(lengths) as real * 100.0)
  {
    var total := Sum(lengths);
    seq(|lengths|, i requires 0 <= i < |lengths| =>
      if total == 0 then NotANumber else Percent(lengths[i] as real / total as real * 100.0))
  }

  function SumPercent(ws: seq<Width>): real
  {
    if ws == [] then 0.0
    else SumPercent(ws[..|ws| - 1]) + (if ws[|ws| - 1].Percent? then ws[|ws| - 1].value else 0.0)
  }

  /** With a positive total the widths add up to 100. */
  lemma {:induction false} WidthsSumTo100(lengths: seq<nat>)
    requires Sum(lengths) > 0
    ensures SumPercent(Widths(lengths)) == 100.0
  {
    PrefixPercents(lengths, |lengths|);
    assert Widths(lengths)[..|lengths|] == Widths(lengths);
    assert lengths[..|lengths|] == lengths;
    WholeShare(Sum(lengths) as real);
  }

  lemma WholeShare(t: real)
    requires t > 0.0
    ensures t / t * 100.0 == 100.0
  {
  }

  lemma {:induction false} PrefixPercents(lengths: seq<nat>, k: nat)
    requires Sum(lengths) > 0 && k <= |lengths|
    ensures SumPercent(Widths(lengths)[..k]) == Sum(lengths[..k]) as real / Sum(lengths) as real * 100.0
  {
    var ws := Widths(lengths);
    var t := Sum(lengths) as real;
    if k > 0 {
      PrefixPercents(lengths, k - 1);
      assert ws[..k][..k - 1] == ws[..k - 1];
      assert lengths[..k][..k - 1] == lengths[..k - 1];
      assert ws[k - 1] == Percent(lengths[k - 1] as real / t * 100.0);
      assert Sum(lengths[..k]) == Sum(lengths[..k - 1]) + lengths[k - 1];
      SharesAdd(Sum(lengths[..k - 1]) as real, lengths[k - 1] as real, t);
    } else {
      assert ws[..0] == [] && lengths[..0] == [];
    }
  }

  lemma SharesAdd(x: real, y: real, t: real)
    requires t > 0.0
    ensures (x + y) / t * 100.0 == x / t * 100.0 + y / t * 100.0
  {
    var qx, qy := x / t, y / t;
    assert qx * t == x && qy * t == y;
    assert (qx + qy) * t == x + y;
  }

  /**
   * The first two loops of calculateColumnWidths: the header lengths, then
   * every row's cells, fill the maxima; a row longer than the header list
   * indexes past the array.
   */
  method MaxColumnLengths(headers: seq<string>, data: seq<seq<string>>) returns (r: Result<array<nat>>)
    ensures r.Failure? <==> !RowsFit(headers, data)
    ensures r.Failure? ==> r.error == IndexOutOfBounds
    ensures r.Success? ==> fresh(r.value) && r.value[..] == ColumnMaxes(headers, data)
  {
    var n := |headers|;
    var maxColumnLengths := new nat[n];
    for i := 0 to n
      invariant forall c :: 0 <= c < i ==> maxColumnLengths[c] == ColumnMax(headers, data[..0], c)
    {
      maxColumnLengths[i] := |headers[i]|;
    }
    for k := 0 to |data|
      invariant RowsFit(headers, data[..k])
      invariant forall c :: 0 <= c < n ==> maxColumnLengths[c] == ColumnMax(headers, data[..k], c)
    {
      if |data[k]| > n {
        assert !RowsFit(headers, data) by { assert |data[k]| > |headers|; }
        return Failure(IndexOutOfBounds);
      }
      ExtendColumnMax(headers, data, k);
      MergeRow(maxColumnLengths, data[k]);
      assert RowsFit(headers, data[..k + 1]) by {
        assert forall q :: 0 <= q < k ==> data[..k + 1][q] == data[..k][q];
      }
    }
    assert data[..|data|] == data;
    r := Success(maxColumnLengths);
  }

  /** One row of the second loop: each of the row's cells raises its column's maximum if longer. */
  method MergeRow(maxColumnLengths: array<nat>, row: seq<string>)
    requires |row| <= maxColumnLengths.Length
    modifies maxColumnLengths
    ensures forall c :: 0 <= c < maxColumnLengths.Length ==>
              maxColumnLengths[c] == if c < |row| && |row[c]| > old(maxColumnLengths[c]) then |row[c]|
                                     else old(maxColumnLengths[c])
  {
    for i := 0 to |row|
      invariant forall c :: 0 <= c < maxColumnLengths.Length ==>
                  maxColumnLengths[c] == if c < i && |row[c]| > old(maxColumnLengths[c]) then |row[c]|
                                         else old(maxColumnLengths[c])
    {
      if |row[i]| > maxColumnLengths[i] {
        maxColumnLengths[i] := |row[i]|;
      }
    }
  }

  /** The third loop: the running total of the maxima. */
  method TotalLength(maxColumnLengths: array<nat>) returns (totalLength: nat)
    ensures totalLength == Sum(maxColumnLengths[..])
  {
    totalLength := 0;
    for i := 0 to maxColumnLengths.Length
      invariant totalLength == Sum(maxColumnLengths[..i])
    {
      assert maxColumnLengths[..i + 1][..i] == maxColumnLengths[..i];
      totalLength := totalLength + maxColumnLengths[i];
    }
    assert maxColumnLengths[..maxColumnLengths.Length] == maxColumnLengths[..];
  }

  /**
   * calculateColumnWidths: one width per header, each the column's widest
   * entry as a share of the total, or the index failure of an over-long row.
   */
  method CalculateColumnWidths(headers: seq<string>, data: seq<seq<string>>) returns (r: Result<array<Width>>)
    ensures r.Failure? <==> !RowsFit(headers, data)
    ensures r.Failure? ==> r.error == IndexOutOfBounds
    ensures r.Success? ==> fresh(r.value) && r.value[..] == Widths(ColumnMaxes(headers, data))
  {
    var maxima := MaxColumnLengths(headers, data);
    if maxima.Failure? {
      return Failure(maxima.error);
    }
    var maxColumnLengths := maxima.value;
    var totalLength := TotalLength(maxColumnLengths);
    var n := maxColumnLengths.Length;
    ghost var lengths := maxColumnLengths[..];
    ghost var widths := Widths(lengths);
    var columnWidths := new Width[n];
    for i := 0 to n
      invariant maxColumnLengths[..] == lengths
      invariant forall c :: 0 <= c < i ==> columnWidths[c] == widths[c]
    {
      assert maxColumnLengths[..][i] == maxColumnLengths[i];
      columnWidths[i] := if totalLength == 0 then NotANumber
                         else Percent(maxColumnLengths[i] as real / totalLength as real * 100.0);
    }
    r := Success(columnWidths);
  }

  /** Adding row k: a column it has a cell in takes the larger length, the others keep theirs. */
  lemma ExtendColumnMax(headers: seq<string>, data: seq<seq<string>>, k: nat)
    requires k < |data|
    ensures forall c :: 0 <= c < |headers| ==>
              ColumnMax(headers, data[..k + 1], c)
              == if c < |data[k]| && |data[k][c]| > ColumnMax(headers, data[..k], c) then |data[k][c]|
                 else ColumnMax(headers, data[..k], c)
  {
    assert data[..k + 1][..k] == data[..k];
  }

  /** The report and receipt file: the directory, a slash, the name and ".pdf". */
  function PdfFileName(dir: string, fileName: string): (path: string)
    ensures |path| == |dir| + |fileName| + 5
    ensures path[..|dir| + 1] == dir + "/" && path[|path| - 4..] == ".pdf"
    ensures path[|dir| + 1..|path| - 4] == fileName
  {
    dir + "/" + fileName + ".pdf"
  }

  /** Different names in one directory never share a file. */
  lemma PdfFileNamesDistinct(dir: string, a: string, b: string)
    requires a != b
    ensures PdfFileName(dir, a) != PdfFileName(dir, b)
  {
  }
}
