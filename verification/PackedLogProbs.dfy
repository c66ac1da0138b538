/**
 Log-probabilities of the response on packed (padding-free) tensors against the plain padded form
 (utils/torch_functional.py, utils/npu_flash_attn_utils.py). The log-probability of a token under a row
 of logits is a parameter.
 */
module PackedLogProbs {
  import opened Wrappers
  import opened Arithmetic
  import opened Permutations
  import opened PythonSlices

  datatype PackError = ShapeMismatch | EmptyBatch

  // ---------------------------------------------------------------- tensors

  /** Rows of equal length. */
  ghost predicate Rectangular<T>(rows: seq<seq<T>>, width: nat) {
    forall b :: 0 <= b < |rows| ==> |rows[b]| == width
  }

  lemma {:induction false} FlatLength<T>(rows: seq<seq<T>>, width: nat)
    requires Rectangular(rows, width)
    ensures |Concat(rows)| == Times(|rows|, width)
  {
    if rows == [] {
    } else {
      FlatLength(rows[1..], width);
    }
  }

  /** Flattening puts row `b` at `b * width`. */
  lemma {:induction false} FlatAt<T>(rows: seq<seq<T>>, width: nat, b: nat, s: nat)
    requires Rectangular(rows, width) && b < |rows| && s < width
    ensures Times(b, width) + s < |Concat(rows)| && Concat(rows)[Times(b, width) + s] == rows[b][s]
  {
    FlatLength(rows, width);
    if b == 0 {
    } else {
      FlatAt(rows[1..], width, b - 1, s);
    }
  }

  lemma RowInside(count: nat, width: nat, b: nat)
    requires b < count
    ensures Times(b, width) + width <= Times(count, width)
  {
    TimesNext(b, width);
    TimesGrows(b + 1, count, width);
  }

  /** The rows of a flat tensor. */
  function Rows<T>(flat: seq<T>, width: nat, count: nat): (rows: seq<seq<T>>)
    requires |flat| == Times(count, width)
    ensures |rows| == count
  {
    seq(count, b requires 0 <= b < count =>
      RowInside(count, width, b);
      flat[Times(b, width)..Times(b, width) + width])
  }

  lemma RowIs<T>(flat: seq<T>, width: nat, count: nat, b: nat)
    requires |flat| == Times(count, width) && b < count
    ensures Times(b, width) + width <= |flat|
    ensures Rows(flat, width, count)[b] == flat[Times(b, width)..Times(b, width) + width]
  {
    RowInside(count, width, b);
  }

  // ---------------------------------------------------------------- the padded form

  function LogProbs<L, T, V>(logits: seq<L>, labels: seq<T>, logProb: (L, T) -> V): (r: seq<V>)
    requires |logits| == |labels|
    ensures |r| == |logits|
  {
    seq(|logits|, i requires 0 <= i < |logits| => logProb(logits[i], labels[i]))
  }

  /** The logits of one sequence are those one place before its response tokens. */
  function ResponseRow<L, T, V>(ids: seq<T>, logits: seq<L>, response: nat, logProb: (L, T) -> V)
    : Result<seq<V>, PackError>
  {
    var responseLogits, labels := Slice(logits, -1 - response, -1), Slice(ids, 0 - response, |ids|);
    if |responseLogits| != |labels| then Failure(ShapeMismatch) else Success(LogProbs(responseLogits, labels, logProb))
  }

  /** `log_probs_from_logits_response` */
  function PaddedLogProbs<L, T, V>(ids: seq<seq<T>>, logits: seq<seq<L>>, response: nat, logProb: (L, T) -> V)
    : Result<seq<seq<V>>, PackError>
    requires |ids| == |logits|
  {
    if ids == [] then Success([])
    else
      var row :- ResponseRow(ids[0], logits[0], response, logProb);
      var rest :- PaddedLogProbs(ids[1..], logits[1..], response, logProb);
      Success([row] + rest)
  }

  // ---------------------------------------------------------------- the packed form

  /** The valid positions among the first `n`. */
  function Nonzero(mask: seq<bool>, n: nat): seq<nat>
    requires n <= |mask|
  {
    if n == 0 then [] else Nonzero(mask, n - 1) + if mask[n - 1] then [n - 1] else []
  }

  lemma {:induction false} NonzeroBelow(mask: seq<bool>, n: nat)
    requires n <= |mask|
    ensures forall k :: 0 <= k < |Nonzero(mask, n)| ==> Nonzero(mask, n)[k] < n && mask[Nonzero(mask, n)[k]]
    ensures forall k, l :: 0 <= k < l < |Nonzero(mask, n)| ==> Nonzero(mask, n)[k] < Nonzero(mask, n)[l]
  {
    if n == 0 {
    } else {
      NonzeroBelow(mask, n - 1);
    }
  }

  /** `IndexFirstAxis.forward` */
  function Gather<T>(t: seq<T>, indices: seq<nat>): (r: seq<T>)
    requires forall k :: 0 <= k < |indices| ==> indices[k] < |t|
    ensures |r| == |indices|
  {
    seq(|indices|, k requires 0 <= k < |indices| => t[indices[k]])
  }

  /** `torch.roll(t, shifts=-1)` */
  function Roll<T>(t: seq<T>): (r: seq<T>)
    ensures |r| == |t|
  {
    if t == [] then [] else t[1..] + [t[0]]
  }

  /** Zeros, with the first `k` values written to their places. */
  function Scatter<V>(values: seq<V>, indices: seq<nat>, size: nat, zero: V, k: nat): (r: seq<V>)
    requires k <= |values| == |indices| && forall l :: 0 <= l < |indices| ==> indices[l] < size
    ensures |r| == size
  {
    if k == 0 then seq(size, _ => zero)
    else Scatter(values, indices, size, zero, k - 1)[indices[k - 1] := values[k - 1]]
  }

  /** `IndexPutFirstAxis.forward`: the output is allocated, zeroed and written in place. */
  method IndexPut<V>(values: seq<V>, indices: seq<nat>, size: nat, zero: V) returns (r: seq<V>)
    requires |values| == |indices| && forall l :: 0 <= l < |indices| ==> indices[l] < size
    ensures r == Scatter(values, indices, size, zero, |values|)
  {
    var output := new V[size](_ => zero);
    assert output[..] == seq(size, _ => zero);
    for k := 0 to |indices|
      invariant output[..] == Scatter(values, indices, size, zero, k)
    {
      output[indices[k]] := values[k];
    }
    return output[..];
  }

  /** `pad_input` */
  function PadInput<V>(values: seq<V>, indices: seq<nat>, batch: nat, width: nat, zero: V): (rows: seq<seq<V>>)
    requires |values| == |indices| && forall l :: 0 <= l < |indices| ==> indices[l] < Times(batch, width)
    ensures |rows| == batch
  {
    Rows(Scatter(values, indices, Times(batch, width), zero, |values|), width, batch)
  }

  function Flags(mask: seq<seq<bool>>): seq<bool> {
    Concat(mask)
  }

  function Indices(mask: seq<seq<bool>>): seq<nat> {
    Nonzero(Flags(mask), |Flags(mask)|)
  }

  lemma IndicesBelow(mask: seq<seq<bool>>, width: nat)
    requires Rectangular(mask, width)
    ensures forall k :: 0 <= k < |Indices(mask)| ==> Indices(mask)[k] < Times(|mask|, width)
  {
    FlatLength(mask, width);
    NonzeroBelow(Flags(mask), |Flags(mask)|);
  }

  /** `unpad_input`: the rows of the valid positions. */
  function UnpadInput<T>(rows: seq<seq<T>>, mask: seq<seq<bool>>, width: nat): (packed: seq<T>)
    requires Rectangular(rows, width) && Rectangular(mask, width) && |rows| == |mask|
    ensures |packed| == |Indices(mask)|
  {
    FlatLength(rows, width);
    IndicesBelow(mask, width);
    Gather(Concat(rows), Indices(mask))
  }

  /** `log_probs_from_logits_response_rmpad` */
  function PackedResponse<L, T, V>(
      ids: seq<seq<T>>, mask: seq<seq<bool>>, width: nat, packedLogits: seq<L>, response: nat, logProb: (L, T) -> V, zero: V)
    : Result<seq<seq<V>>, PackError>
    requires Rectangular(ids, width) && Rectangular(mask, width) && |ids| == |mask|
  {
    IndicesBelow(mask, width);
    var indices := Indices(mask);
    var labels := Roll(UnpadInput(ids, mask, width));
    if ids == [] then Failure(EmptyBatch)
    else if |packedLogits| != |labels| then Failure(ShapeMismatch)
    else
      var full := PadInput(LogProbs(packedLogits, labels, logProb), indices, |ids|, width, zero);
      Success(Map(full, row => Slice(row, -1 - response, -1)))
  }

  // ---------------------------------------------------------------- ranks of valid positions

  lemma {:induction false} NonzeroPrefix(mask: seq<bool>, p: nat, n: nat)
    requires p <= n <= |mask|
    ensures |Nonzero(mask, p)| <= |Nonzero(mask, n)|
    ensures forall k :: 0 <= k < |Nonzero(mask, p)| ==> Nonzero(mask, n)[k] == Nonzero(mask, p)[k]
  {
    if p == n {
    } else {
      NonzeroPrefix(mask, p, n - 1);
    }
  }

  /** A valid position stands after as many indices as there are valid positions before it. */
  lemma RankOf(mask: seq<bool>, p: nat, n: nat)
    requires p < n <= |mask| && mask[p]
    ensures |Nonzero(mask, p)| < |Nonzero(mask, n)| && Nonzero(mask, n)[|Nonzero(mask, p)|] == p
  {
    NonzeroPrefix(mask, p + 1, n);
  }

  lemma {:induction false} NoneBetween(mask: seq<bool>, p: nat, q: nat)
    requires p <= q <= |mask| && forall i :: p <= i < q ==> !mask[i]
    ensures Nonzero(mask, q) == Nonzero(mask, p)
  {
    if p == q {
    } else {
      NoneBetween(mask, p, q - 1);
    }
  }

  /** The valid position after `p`, going round at the end. */
  ghost predicate NextValid(mask: seq<bool>, p: nat, q: nat) {
    p < |mask| && q < |mask| && mask[q] &&
    if p < q then forall i :: p < i < q ==> !mask[i]
    else (forall i :: p < i < |mask| ==> !mask[i]) && (forall i :: 0 <= i < q ==> !mask[i])
  }

  /** The next valid position comes next in the list of indices, going round at the end. */
  lemma NextRank(mask: seq<bool>, p: nat, q: nat)
    requires p < |mask| && mask[p] && NextValid(mask, p, q)
    ensures
      var indices, rank := Nonzero(mask, |mask|), |Nonzero(mask, p)|;
      rank < |indices| && indices[if rank + 1 < |indices| then rank + 1 else 0] == q
  {
    var n := |mask|;
    NonzeroPrefix(mask, p + 1, n);
    if p < q {
      NoneBetween(mask, p + 1, q);
      RankOf(mask, q, n);
    } else {
      NoneBetween(mask, p + 1, n);
      NoneBetween(mask, 0, q);
      RankOf(mask, q, n);
    }
  }

  /** The label that is rolled to a valid position is the token of the next valid one. */
  lemma {:induction false} RolledLabel<T>(ids: seq<T>, mask: seq<bool>, p: nat, q: nat)
    requires |ids| == |mask| && p < |mask| && mask[p] && NextValid(mask, p, q)
    ensures forall k :: 0 <= k < |Nonzero(mask, |mask|)| ==> Nonzero(mask, |mask|)[k] < |mask|
    ensures
      var labels, rank := Roll(Gather(ids, Nonzero(mask, |mask|))), |Nonzero(mask, p)|;
      q < |mask| && rank < |labels| && labels[rank] == ids[q]
  {
    NonzeroBelow(mask, |mask|);
    NextRank(mask, p, q);
    hide Nonzero;
  }

  /** Writing to distinct places: each place holds its value, the others zero. */
  lemma {:induction false} ScatterAt<V>(values: seq<V>, indices: seq<nat>, size: nat, zero: V, k: nat, p: nat)
    requires k <= |values| == |indices| && p < size
    requires forall l :: 0 <= l < |indices| ==> indices[l] < size
    requires forall l, m :: 0 <= l < m < |indices| ==> indices[l] < indices[m]
    ensures forall l :: 0 <= l < k && indices[l] == p ==> Scatter(values, indices, size, zero, k)[p] == values[l]
    ensures (forall l :: 0 <= l < k ==> indices[l] != p) ==> Scatter(values, indices, size, zero, k)[p] == zero
  {
    if k == 0 {
    } else {
      ScatterAt(values, indices, size, zero, k - 1, p);
    }
  }

  // ---------------------------------------------------------------- the results

  /** The padded form is defined exactly for response lengths below the sequence length. */
  lemma {:induction false} PaddedDefined<L, T, V>(
      ids: seq<seq<T>>, logits: seq<seq<L>>, width: nat, response: nat, logProb: (L, T) -> V)
    requires Rectangular(ids, width) && Rectangular(logits, width) && |ids| == |logits| && 0 < width
    ensures PaddedLogProbs(ids, logits, response, logProb).Success? <==> ids == [] || 0 < response < width
  {
    if ids == [] {
    } else {
      PaddedDefined(ids[1..], logits[1..], width, response, logProb);
    }
  }

  lemma {:induction false} PaddedSize<L, T, V>(ids: seq<seq<T>>, logits: seq<seq<L>>, response: nat, logProb: (L, T) -> V)
    requires |ids| == |logits|
    ensures
      var r := PaddedLogProbs(ids, logits, response, logProb);
      r.Success? ==> |r.value| == |ids|
  {
    if ids == [] {
    } else {
      PaddedSize(ids[1..], logits[1..], response, logProb);
    }
  }

  /** The rows of the padded form are those of the sequences. */
  lemma {:induction false} PaddedRow<L, T, V>(
      ids: seq<seq<T>>, logits: seq<seq<L>>, response: nat, logProb: (L, T) -> V, b: nat)
    requires |ids| == |logits| && b < |ids| && PaddedLogProbs(ids, logits, response, logProb).Success?
    ensures
      var r := PaddedLogProbs(ids, logits, response, logProb);
      |r.value| == |ids| && ResponseRow(ids[b], logits[b], response, logProb) == Success(r.value[b])
  {
    hide ResponseRow;
    PaddedSize(ids, logits, response, logProb);
    if b == 0 {
    } else {
      PaddedRow(ids[1..], logits[1..], response, logProb, b - 1);
    }
  }

  lemma ResponseRowAt<L, T, V>(
      ids: seq<T>, logits: seq<L>, width: nat, response: nat, logProb: (L, T) -> V, j: nat)
    requires |ids| == |logits| == width && 0 < response < width && j < response
    ensures
      var r, p := ResponseRow(ids, logits, response, logProb), width - response - 1 + j;
      r.Success? && |r.value| == response && r.value[j] == logProb(logits[p], ids[p + 1])
  {
  }

  /** The padded value of a response token: its log-probability under the logits one place before. */
  lemma {:induction false} PaddedAt<L, T, V>(
      ids: seq<seq<T>>, logits: seq<seq<L>>, width: nat, response: nat, logProb: (L, T) -> V, b: nat, j: nat)
    requires Rectangular(ids, width) && Rectangular(logits, width) && |ids| == |logits|
    requires 0 < response < width && b < |ids| && j < response
    ensures
      var r, p := PaddedLogProbs(ids, logits, response, logProb), width - response - 1 + j;
      && r.Success? && |r.value| == |ids| && |r.value[b]| == response
      && r.value[b][j] == logProb(logits[b][p], ids[b][p + 1])
  {
    hide PaddedLogProbs, ResponseRow;
    PaddedDefined(ids, logits, width, response, logProb);
    PaddedRow(ids, logits, response, logProb, b);
    ResponseRowAt(ids[b], logits[b], width, response, logProb, j);
  }

  /** What the flat padded output holds at position `p`. */
  lemma FlatValue<L, T, V>(ids: seq<T>, mask: seq<bool>, logits: seq<L>, logProb: (L, T) -> V, zero: V, p: nat, q: nat)
    requires |ids| == |mask| == |logits| && p < |mask| && (mask[p] ==> NextValid(mask, p, q))
    ensures forall k :: 0 <= k < |Nonzero(mask, |mask|)| ==> Nonzero(mask, |mask|)[k] < |mask|
    ensures
      var indices := Nonzero(mask, |mask|);
      var values := LogProbs(Gather(logits, indices), Roll(Gather(ids, indices)), logProb);
      Scatter(values, indices, |mask|, zero, |values|)[p] == if mask[p] then logProb(logits[p], ids[q]) else zero
  {
    var indices := Nonzero(mask, |mask|);
    NonzeroBelow(mask, |mask|);
    var values := LogProbs(Gather(logits, indices), Roll(Gather(ids, indices)), logProb);
    ScatterAt(values, indices, |mask|, zero, |values|, p);
    if mask[p] {
      RankOf(mask, p, |mask|);
      RolledLabel(ids, mask, p, q);
    }
  }

  lemma NextExists(mask: seq<bool>, p: nat, q: nat)
    requires NextValid(mask, p, q)
    ensures q < |mask|
  {
  }

  lemma SliceAt<V>(row: seq<V>, response: nat, j: nat)
    requires 0 < response < |row| && j < response
    ensures |Slice(row, -1 - response, -1)| == response
    ensures Slice(row, -1 - response, -1)[j] == row[|row| - response - 1 + j]
  {
  }

  /**
   The packed value of a response token, on the logits of the valid positions: zero where the position
   is masked, and otherwise the log-probability of the next valid token, which may belong to a later
   sequence or, for the last one, to the first.
   */
  lemma {:induction false} PackedAt<L, T, V>(
      ids: seq<seq<T>>, mask: seq<seq<bool>>, logits: seq<seq<L>>, width: nat, response: nat, logProb: (L, T) -> V, zero: V,
      b: nat, j: nat, q: nat)
    requires Rectangular(ids, width) && Rectangular(mask, width) && Rectangular(logits, width)
    requires |ids| == |mask| == |logits| && 0 < response < width && b < |ids| && j < response
    requires mask[b][width - response - 1 + j] ==> NextValid(Flags(mask), Times(b, width) + width - response - 1 + j, q)
    ensures
      var p := width - response - 1 + j;
      var r := PackedResponse(ids, mask, width, UnpadInput(logits, mask, width), response, logProb, zero);
      && r.Success? && |r.value| == |ids| && |r.value[b]| == response
      && (mask[b][p] ==> q < |Concat(ids)|)
      && r.value[b][j] == if mask[b][p] then logProb(logits[b][p], Concat(ids)[q]) else zero
  {
    hide Times, Rows, Scatter, Roll, Nonzero, Gather, Slice, NextValid;
    var p := width - response - 1 + j;
    FlatLength(ids, width);
    FlatLength(mask, width);
    FlatLength(logits, width);
    FlatAt(mask, width, b, p);
    FlatAt(logits, width, b, p);
    FlatValue(Concat(ids), Flags(mask), Concat(logits), logProb, zero, Times(b, width) + p, q);
    var indices := Indices(mask);
    var values := LogProbs(Gather(Concat(logits), indices), Roll(Gather(Concat(ids), indices)), logProb);
    var flat := Scatter(values, indices, Times(|ids|, width), zero, |values|);
    RowIs(flat, width, |ids|, b);
    SliceAt(Rows(flat, width, |ids|)[b], response, j);
    if mask[b][p] { NextExists(Flags(mask), Times(b, width) + p, q); }
  }

  /** After a valid position there is always a next one, going round: the one with the next rank. */
  lemma AfterValid(mask: seq<bool>, p: nat) returns (q: nat)
    requires p < |mask| && mask[p]
    ensures NextValid(mask, p, q)
  {
    var n := |mask|;
    var indices, rank := Nonzero(mask, n), |Nonzero(mask, p)|;
    NonzeroBelow(mask, n);
    RankOf(mask, p, n);
    q := if rank + 1 < |indices| then indices[rank + 1] else indices[0];
    forall i | 0 <= i < n && mask[i]
      ensures |Nonzero(mask, i)| < |indices| && indices[|Nonzero(mask, i)|] == i
    {
      RankOf(mask, i, n);
    }
    hide Nonzero;
  }

  /** The next valid position; in the row, if the successor is valid. */
  lemma NextPosition<T>(ids: seq<seq<T>>, mask: seq<seq<bool>>, width: nat, b: nat, p: nat) returns (q: nat)
    requires Rectangular(ids, width) && Rectangular(mask, width) && |ids| == |mask| && b < |ids| && p + 1 < width
    ensures mask[b][p] ==> NextValid(Flags(mask), Times(b, width) + p, q)
    ensures mask[b][p + 1] ==> q < |Concat(ids)| && Concat(ids)[q] == ids[b][p + 1]
  {
    FlatAt(mask, width, b, p);
    FlatAt(mask, width, b, p + 1);
    FlatAt(ids, width, b, p + 1);
    hide Times, Concat;
    var at := Times(b, width) + p;
    if mask[b][p] && !mask[b][p + 1] {
      q := AfterValid(Flags(mask), at);
    } else {
      q := at + 1;
    }
  }

  /**
   The packed form gives the padded result wherever a position and its successor are both valid, and
   zero where the position is masked.
   */
  lemma {:induction false} PackedRefinesPadded<L, T, V>(
      ids: seq<seq<T>>, mask: seq<seq<bool>>, logits: seq<seq<L>>, width: nat, response: nat, logProb: (L, T) -> V, zero: V,
      b: nat, j: nat)
    requires Rectangular(ids, width) && Rectangular(mask, width) && Rectangular(logits, width)
    requires |ids| == |mask| == |logits| && 0 < response < width && b < |ids| && j < response
    ensures
      var p := width - response - 1 + j;
      var packed := PackedResponse(ids, mask, width, UnpadInput(logits, mask, width), response, logProb, zero);
      var padded := PaddedLogProbs(ids, logits, response, logProb);
      && packed.Success? && padded.Success? && |packed.value| == |padded.value| == |ids|
      && |packed.value[b]| == |padded.value[b]| == response
      && (mask[b][p] && mask[b][p + 1] ==> packed.value[b][j] == padded.value[b][j])
      && (!mask[b][p] ==> packed.value[b][j] == zero)
  {
    var p := width - response - 1 + j;
    hide PackedResponse, PaddedLogProbs, Indices, NextValid, Times, Concat, Flags;
    var q := NextPosition(ids, mask, width, b, p);
    PackedAt(ids, mask, logits, width, response, logProb, zero, b, j, q);
    PaddedAt(ids, logits, width, response, logProb, b, j);
  }

  /** No two tokens have the same log-probability under the logits. */
  ghost predicate TellsApart<L, T(!new), V>(logits: L, logProb: (L, T) -> V) {
    forall t, u :: logProb(logits, t) == logProb(logits, u) ==> t == u
  }

  /**
   Both forms agree at a valid position if and only if the next valid token is the one that follows in
   the sequence, and at a masked position if and only if the padded value happens to be zero.
   */
  lemma {:induction false} PackedAgreesExactly<L, T(!new), V>(
      ids: seq<seq<T>>, mask: seq<seq<bool>>, logits: seq<seq<L>>, width: nat, response: nat, logProb: (L, T) -> V, zero: V,
      b: nat, j: nat, q: nat)
    requires Rectangular(ids, width) && Rectangular(mask, width) && Rectangular(logits, width)
    requires |ids| == |mask| == |logits| && 0 < response < width && b < |ids| && j < response
    requires
      var p := width - response - 1 + j;
      mask[b][p] ==> NextValid(Flags(mask), Times(b, width) + p, q) && TellsApart(logits[b][p], logProb)
    ensures
      var p := width - response - 1 + j;
      var packed := PackedResponse(ids, mask, width, UnpadInput(logits, mask, width), response, logProb, zero);
      var padded := PaddedLogProbs(ids, logits, response, logProb);
      && packed.Success? && padded.Success? && |packed.value| == |padded.value| == |ids|
      && |packed.value[b]| == |padded.value[b]| == response
      && (mask[b][p] ==> q < |Concat(ids)|)
      && (packed.value[b][j] == padded.value[b][j] <==>
          if mask[b][p] then Concat(ids)[q] == ids[b][p + 1] else logProb(logits[b][p], ids[b][p + 1]) == zero)
  {
    hide PackedResponse, PaddedLogProbs, Indices, NextValid, Times, Concat, Flags;
    PackedAt(ids, mask, logits, width, response, logProb, zero, b, j, q);
    PaddedAt(ids, logits, width, response, logProb, b, j);
  }

  lemma FlattenOne<T>(row: seq<T>)
    ensures Concat([row]) == row
  {
    assert [row][1..] == [] && Concat([row]) == row + Concat([row][1..]);
  }

  lemma SingleRow<V>(rows: seq<seq<V>>, value: V)
    requires |rows| == 1 && |rows[0]| == 1 && rows[0][0] == value
    ensures rows == [[value]]
  {
    assert rows[0] == [value];
  }

  /**
   A valid token with a masked successor: of the tokens 7, 8, 0 the last is padding. The log-probability
   of a token is the token here, and the packed form gives the first token's in the place of the padding's.
   */
  lemma {:induction false} MaskedSuccessor()
    ensures
      var ids, mask, logits := [[7, 8, 0]], [[true, true, false]], [[(), (), ()]];
      && PackedResponse(ids, mask, 3, UnpadInput(logits, mask, 3), 1, (l: (), t: int) => t, -1) == Success([[7]])
      && PaddedLogProbs(ids, logits, 1, (l: (), t: int) => t) == Success([[0]])
  {
    var ids, mask, logits := [[7, 8, 0]], [[true, true, false]], [[(), (), ()]];
    var logProb := (l: (), t: int) => t;
    FlattenOne(ids[0]);
    FlattenOne(mask[0]);
    hide PackedResponse, PaddedLogProbs;
    PackedAt(ids, mask, logits, 3, 1, logProb, -1, 0, 0, 0);
    PaddedAt(ids, logits, 3, 1, logProb, 0, 0);
    SingleRow(PackedResponse(ids, mask, 3, UnpadInput(logits, mask, 3), 1, logProb, -1).value, 7);
    SingleRow(PaddedLogProbs(ids, logits, 1, logProb).value, 0);
  }

  /** The packed form is refused exactly for no sequences, or for another number of logits than of valid tokens. */
  lemma {:induction false} PackedDefined<L, T, V>(
      ids: seq<seq<T>>, mask: seq<seq<bool>>, width: nat, packedLogits: seq<L>, response: nat, logProb: (L, T) -> V, zero: V)
    requires Rectangular(ids, width) && Rectangular(mask, width) && |ids| == |mask|
    ensures
      PackedResponse(ids, mask, width, packedLogits, response, logProb, zero).Success? <==>
      ids != [] && |packedLogits| == |Indices(mask)|
  {
    IndicesBelow(mask, width);
  }
}
