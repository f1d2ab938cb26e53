/** Scanline filters of section 6 of RFC 2083: the reader's in-place reconstruction undoes them. */
module PngFilters {
  import opened Bytes

  function Abs(x: int): nat { if x < 0 then -x else x }

  function Min(x: int, y: int): int { if x <= y then x else y }

  /** The candidate at the first position that holds the least distance. */
  function Paeth(left: Byte, above: Byte, upperLeft: Byte): Byte {
    var prediction := left + above - upperLeft;
    var (first, second, third) := (Abs(prediction - left), Abs(prediction - above), Abs(prediction - upperLeft));
    var least := Min(first, Min(second, third));
    if first == least then left else if second == least then above else upperLeft
  }

  /** Section 6.6 of RFC 2083: the nearest of the three, with ties broken left, above, upper left. */
  lemma PaethTieOrder(left: Byte, above: Byte, upperLeft: Byte)
    ensures var p := left + above - upperLeft;
            var (dl, da, du) := (Abs(p - left), Abs(p - above), Abs(p - upperLeft));
            var picked := Paeth(left, above, upperLeft);
            && picked == (if dl <= da && dl <= du then left else if da <= du then above else upperLeft)
            && Abs(p - picked) <= dl && Abs(p - picked) <= da && Abs(p - picked) <= du
  {
  }

  /** Sum and difference of bytes, with the carry dropped. */
  function Plus(x: Byte, y: Byte): (r: Byte)
    ensures r == (x as int + y as int) % 256
  {
    var sum := x as int + y as int;
    if sum < 256 then sum else sum - 256
  }

  function Minus(x: Byte, y: Byte): (r: Byte)
    ensures r == (x as int - y as int) % 256
  {
    if x >= y then x - y else x as int - y as int + 256
  }

  function At(s: seq<Byte>, i: int): Byte { if 0 <= i < |s| then s[i] else 0 }

  function Predictor(filter: Byte, left: Byte, above: Byte, upperLeft: Byte): Byte
    requires filter <= 4
  {
    if filter == 0 then 0
    else if filter == 1 then left
    else if filter == 2 then above
    else if filter == 3 then (left + above) / 2
    else Paeth(left, above, upperLeft)
  }

  /** How a byte is predicted from its left, upper and upper-left neighbours. */
  type Predict = (Byte, Byte, Byte) -> Byte

  function PredictorOf(filter: Byte): Predict
    requires filter <= 4
  {
    (left: Byte, above: Byte, upperLeft: Byte) => Predictor(filter, left, above, upperLeft)
  }

  function PredictAt(predict: Predict, bpp: nat, row: seq<Byte>, prior: seq<Byte>, i: nat): Byte {
    predict(At(row, i - bpp), At(prior, i), At(prior, i - bpp))
  }

  /** What an encoder writes for the first `n` bytes of a row: each byte less its prediction, modulo 256. */
  function Filtered(predict: Predict, bpp: nat, row: seq<Byte>, prior: seq<Byte>, n: nat): (f: seq<Byte>)
    requires n <= |row|
    ensures |f| == n
  {
    if n == 0 then []
    else Filtered(predict, bpp, row, prior, n - 1) + [Minus(row[n - 1], PredictAt(predict, bpp, row, prior, n - 1))]
  }

  /** What the reader rebuilds from the first `n` bytes of a filtered row. */
  function Rebuilt(predict: Predict, bpp: nat, source: seq<Byte>, prior: seq<Byte>, n: nat): (row: seq<Byte>)
    requires n <= |source|
    ensures |row| == n
  {
    if n == 0 then []
    else
      var row := Rebuilt(predict, bpp, source, prior, n - 1);
      row + [Plus(source[n - 1], PredictAt(predict, bpp, row, prior, n - 1))]
  }

  lemma {:induction false} FilteredPrefix(predict: Predict, bpp: nat, row: seq<Byte>, prior: seq<Byte>, n: nat, k: nat)
    requires k < n <= |row|
    ensures Filtered(predict, bpp, row, prior, n)[k] == Minus(row[k], PredictAt(predict, bpp, row, prior, k))
    decreases n
  {
    if k < n - 1 { FilteredPrefix(predict, bpp, row, prior, n - 1, k); }
  }

  /** A prediction looks only at bytes before it. */
  lemma PredictsFromPrefix(predict: Predict, bpp: nat, row: seq<Byte>, before: seq<Byte>, prior: seq<Byte>, i: nat)
    requires bpp > 0 && i <= |row| && before == row[..i]
    ensures PredictAt(predict, bpp, before, prior, i) == PredictAt(predict, bpp, row, prior, i)
  {
    assert At(before, i - bpp) == At(row, i - bpp);
  }

  /** Reconstruction undoes filtering, for every predictor, pixel width, row and prior row. */
  lemma {:induction false} RebuildUndoesFilter(predict: Predict, bpp: nat, row: seq<Byte>, prior: seq<Byte>, n: nat)
    requires bpp > 0 && n <= |row|
    ensures Rebuilt(predict, bpp, Filtered(predict, bpp, row, prior, |row|), prior, n) == row[..n]
    decreases n
  {
    if n > 0 {
      RebuildUndoesFilter(predict, bpp, row, prior, n - 1);
      FilteredPrefix(predict, bpp, row, prior, |row|, n - 1);
      PredictsFromPrefix(predict, bpp, row, row[..n - 1], prior, n - 1);
      assert row[..n] == row[..n - 1] + [row[n - 1]];
    }
  }

  // ----- One row in place -----

  function Zeros(n: nat): seq<Byte> { seq(n, _ => 0) }

  /** A row buffer after a possibly short run of source bytes: the rest keeps its initial zeros. */
  function RowFrom(predict: Predict, bpp: nat, source: seq<Byte>, prior: seq<Byte>): seq<Byte>
    requires |source| <= |prior|
  {
    Rebuilt(predict, bpp, source, prior, |source|) + Zeros(|prior| - |source|)
  }

  method Rebuild(predict: Predict, bpp: nat, source: seq<Byte>, previous: array<Byte>) returns (row: array<Byte>)
    requires |source| <= previous.Length && bpp > 0
    ensures fresh(row) && row.Length == previous.Length && row[..] == RowFrom(predict, bpp, source, previous[..])
  {
    row := new Byte[previous.Length](_ => 0);
    for index := 0 to |source|
      invariant row[..index] == Rebuilt(predict, bpp, source, previous[..], index)
      invariant forall k :: index <= k < row.Length ==> row[k] == 0
    {
      var left: Byte := if index >= bpp then row[index - bpp] else 0;
      var above := previous[index];
      var upperLeft: Byte := if index >= bpp then previous[index - bpp] else 0;
      ghost var before := row[..index];
      assert left == At(before, index - bpp) && above == At(previous[..], index)
          && upperLeft == At(previous[..], index - bpp);
      row[index] := Plus(source[index], predict(left, above, upperLeft));
      assert row[..index + 1] == before + [row[index]];
    }
  }

  /** A filter type past 4 is an error, but only once there is a byte to rebuild. */
  method RebuildRow(filter: Byte, bpp: nat, source: seq<Byte>, previous: array<Byte>)
    returns (ok: bool, row: array<Byte>)
    requires |source| <= previous.Length && bpp > 0
    ensures fresh(row) && row.Length == previous.Length
    ensures ok <==> filter <= 4 || source == []
    ensures ok && filter <= 4 ==> row[..] == RowFrom(PredictorOf(filter), bpp, source, previous[..])
    ensures ok && filter > 4 ==> row[..] == Zeros(previous.Length)
  {
    if filter <= 4 {
      row := Rebuild(PredictorOf(filter), bpp, source, previous);
      ok := true;
    } else {
      row := new Byte[previous.Length](_ => 0);
      ok := source == [];
    }
  }

  // ----- All rows of an image -----

  predicate IsImage(rows: seq<seq<Byte>>, stride: nat) { forall k :: 0 <= k < |rows| ==> |rows[k]| == stride }

  datatype RowsResult = Rows(rows: seq<seq<Byte>>) | ShortData | BadFilter

  function Prior(rows: seq<seq<Byte>>, stride: nat): seq<Byte> {
    if rows == [] then Zeros(stride) else rows[|rows| - 1]
  }

  function Clamp(n: nat, s: seq<Byte>): nat { if n <= |s| then n else |s| }

  /** A slice as the source language takes it: bounds past the end are clamped. */
  function Slice(s: seq<Byte>, from: nat, to: nat): seq<Byte>
    requires from <= to
  {
    s[Clamp(from, s)..Clamp(to, s)]
  }

  /** Where scanline `k` starts: each scanline is one filter byte and `stride` bytes. */
  function Offset(k: nat, stride: nat): nat { if k == 0 then 0 else Offset(k - 1, stride) + 1 + stride }

  /** The scanline at an offset: its filter byte and its bytes, against the rows before it. */
  function NextRow(decoded: seq<Byte>, offset: nat, stride: nat, bpp: nat, rows: seq<seq<Byte>>): RowsResult
    requires IsImage(rows, stride)
  {
    if offset >= |decoded| then ShortData else
    var filter, source := decoded[offset], Slice(decoded, offset + 1, offset + 1 + stride);
    if filter <= 4 then Rows(rows + [RowFrom(PredictorOf(filter), bpp, source, Prior(rows, stride))])
    else if source == [] then Rows(rows + [Zeros(stride)])
    else BadFilter
  }

  function RowsUpTo(decoded: seq<Byte>, stride: nat, bpp: nat, n: nat): (r: RowsResult)
    ensures r.Rows? ==> |r.rows| == n && IsImage(r.rows, stride)
  {
    if n == 0 then Rows([])
    else
      var before := RowsUpTo(decoded, stride, bpp, n - 1);
      if before.Rows? then NextRow(decoded, Offset(n - 1, stride), stride, bpp, before.rows) else before
  }

  lemma {:induction false} FailureStays(decoded: seq<Byte>, stride: nat, bpp: nat, k: nat, n: nat)
    requires k <= n && !RowsUpTo(decoded, stride, bpp, k).Rows?
    ensures RowsUpTo(decoded, stride, bpp, n) == RowsUpTo(decoded, stride, bpp, k)
    decreases n
  {
    if k < n { FailureStays(decoded, stride, bpp, k, n - 1); }
  }

  /** One scanline in place: `previous` holds the row before, and the new row becomes `row`. */
  method ReadRow(decoded: seq<Byte>, offset: nat, stride: nat, bpp: nat, rows: seq<seq<Byte>>, previous: array<Byte>)
    returns (result: RowsResult, row: array<Byte>)
    requires IsImage(rows, stride) && bpp > 0 && previous.Length == stride && previous[..] == Prior(rows, stride)
    ensures result == NextRow(decoded, offset, stride, bpp, rows)
    ensures result.Rows? ==> row.Length == stride && row[..] == Prior(result.rows, stride)
  {
    if offset >= |decoded| { return ShortData, previous; }
    var source := Slice(decoded, offset + 1, offset + 1 + stride);
    var ok;
    ok, row := RebuildRow(decoded[offset], bpp, source, previous);
    result := if ok then Rows(rows + [row[..]]) else BadFilter;
  }

  method ReadRows(decoded: seq<Byte>, height: nat, stride: nat, bpp: nat) returns (result: RowsResult)
    requires bpp > 0
    ensures result == RowsUpTo(decoded, stride, bpp, height)
  {
    result := Rows([]);
    var previous := new Byte[stride](_ => 0);
    var offset := 0;
    for k := 0 to height
      invariant result.Rows? && result == RowsUpTo(decoded, stride, bpp, k)
      invariant offset == Offset(k, stride)
      invariant previous.Length == stride && previous[..] == Prior(result.rows, stride)
    {
      result, previous := ReadRow(decoded, offset, stride, bpp, result.rows, previous);
      if !result.Rows? {
        FailureStays(decoded, stride, bpp, k + 1, height);
        return;
      }
      offset := offset + 1 + stride;
    }
  }

  // ----- The encoder's side, for any choice of filters -----

  predicate AreFilters(filters: seq<Byte>, rows: seq<seq<Byte>>) {
    |filters| == |rows| && forall k :: 0 <= k < |filters| ==> filters[k] <= 4
  }

  /** Scanline `k` as an encoder writes it: the filter type and the filtered row. */
  function Scanline(rows: seq<seq<Byte>>, filters: seq<Byte>, stride: nat, bpp: nat, k: nat): (line: seq<Byte>)
    requires IsImage(rows, stride) && AreFilters(filters, rows) && k < |rows|
    ensures |line| == 1 + stride
  {
    [filters[k]] + Filtered(PredictorOf(filters[k]), bpp, rows[k], Prior(rows[..k], stride), stride)
  }

  function Lines(rows: seq<seq<Byte>>, filters: seq<Byte>, stride: nat, bpp: nat): (lines: seq<seq<Byte>>)
    requires IsImage(rows, stride) && AreFilters(filters, rows)
    ensures IsImage(lines, 1 + stride) && |lines| == |rows|
  {
    seq(|rows|, k requires 0 <= k < |rows| => Scanline(rows, filters, stride, bpp, k))
  }

  function Join(lines: seq<seq<Byte>>): seq<Byte> {
    if lines == [] then [] else Join(lines[..|lines| - 1]) + lines[|lines| - 1]
  }

  lemma {:induction false} JoinedAt(lines: seq<seq<Byte>>, stride: nat, k: nat)
    requires IsImage(lines, 1 + stride) && k < |lines|
    ensures |Join(lines)| == Offset(|lines|, stride) && Offset(k, stride) + 1 + stride <= |Join(lines)|
    ensures Join(lines)[Offset(k, stride)..Offset(k, stride) + 1 + stride] == lines[k]
    decreases |lines|
  {
    var n := |lines| - 1;
    var before := lines[..n];
    if n > 0 { JoinedAt(before, stride, if k < n then k else 0); }
  }

  /** The whole image as an encoder hands it to the compressor, under one choice of filter per scanline. */
  function Encoded(rows: seq<seq<Byte>>, filters: seq<Byte>, stride: nat, bpp: nat): seq<Byte>
    requires IsImage(rows, stride) && AreFilters(filters, rows)
  {
    Join(Lines(rows, filters, stride, bpp))
  }

  predicate Holds(decoded: seq<Byte>, offset: nat, line: seq<Byte>) {
    offset + |line| <= |decoded| && decoded[offset..offset + |line|] == line
  }

  lemma NextRowInverts(decoded: seq<Byte>, offset: nat, stride: nat, bpp: nat, before: seq<seq<Byte>>, filter: Byte,
                       row: seq<Byte>)
    requires IsImage(before, stride) && |row| == stride && filter <= 4 && bpp > 0
    requires Holds(decoded, offset, [filter] + Filtered(PredictorOf(filter), bpp, row, Prior(before, stride), stride))
    ensures NextRow(decoded, offset, stride, bpp, before) == Rows(before + [row])
  {
    var line, prior := decoded[offset..offset + 1 + stride], Prior(before, stride);
    var source := Filtered(PredictorOf(filter), bpp, row, prior, stride);
    assert line[0] == decoded[offset] && line[1..] == source;
    assert Slice(decoded, offset + 1, offset + 1 + stride) == line[1..];
    RebuildUndoesFilter(PredictorOf(filter), bpp, row, prior, stride);
    assert RowFrom(PredictorOf(filter), bpp, source, prior) == row;
  }

  predicate Yields(decoded: seq<Byte>, stride: nat, bpp: nat, rows: seq<seq<Byte>>, k: nat)
    requires IsImage(rows, stride) && k < |rows|
  {
    NextRow(decoded, Offset(k, stride), stride, bpp, rows[..k]) == Rows(rows[..k + 1])
  }

  lemma {:induction false} RowsInOrder(decoded: seq<Byte>, stride: nat, bpp: nat, rows: seq<seq<Byte>>, n: nat)
    requires IsImage(rows, stride) && n <= |rows|
    requires forall k: nat :: k < n ==> Yields(decoded, stride, bpp, rows, k)
    ensures RowsUpTo(decoded, stride, bpp, n) == Rows(rows[..n])
    decreases n
  {
    if n > 0 {
      RowsInOrder(decoded, stride, bpp, rows, n - 1);
      assert Yields(decoded, stride, bpp, rows, n - 1);
    }
  }

  lemma LineYields(rows: seq<seq<Byte>>, filters: seq<Byte>, stride: nat, bpp: nat, k: nat)
    requires IsImage(rows, stride) && AreFilters(filters, rows) && bpp > 0 && k < |rows|
    ensures Yields(Encoded(rows, filters, stride, bpp), stride, bpp, rows, k)
  {
    EncodedHolds(rows, filters, stride, bpp, k);
    NextRowInverts(Encoded(rows, filters, stride, bpp), Offset(k, stride), stride, bpp, rows[..k], filters[k], rows[k]);
    assert rows[..k + 1] == rows[..k] + [rows[k]];
  }

  lemma EncodedHolds(rows: seq<seq<Byte>>, filters: seq<Byte>, stride: nat, bpp: nat, k: nat)
    requires IsImage(rows, stride) && AreFilters(filters, rows) && k < |rows|
    ensures Holds(Encoded(rows, filters, stride, bpp), Offset(k, stride), Scanline(rows, filters, stride, bpp, k))
  {
    JoinedAt(Lines(rows, filters, stride, bpp), stride, k);
  }

  /** For every image and every choice of filter per scanline, the reader recovers the rows. */
  lemma ReaderInvertsFilters(rows: seq<seq<Byte>>, filters: seq<Byte>, stride: nat, bpp: nat)
    requires IsImage(rows, stride) && AreFilters(filters, rows) && bpp > 0
    ensures RowsUpTo(Encoded(rows, filters, stride, bpp), stride, bpp, |rows|) == Rows(rows)
  {
    var decoded := Encoded(rows, filters, stride, bpp);
    forall k: nat | k < |rows| ensures Yields(decoded, stride, bpp, rows, k) {
      LineYields(rows, filters, stride, bpp, k);
    }
    RowsInOrder(decoded, stride, bpp, rows, |rows|);
    assert rows[..|rows|] == rows;
  }
}
