/** Writing a snapshot in chunks: records stay whole and in order, no chunk exceeds the byte budget,
    and no fewer chunks would do. */
module SnapshotChunks {
  import opened Wrappers

  // The writer's budget is 262 144 bytes; nothing below depends on the number.

  /** A chunk is a JSON array of whole records: brackets, records, and a comma between neighbours.  A
      record is represented by its encoded bytes. */
  type Record = seq<int>

  function Sum(records: seq<Record>): nat {
    if records == [] then 0 else Sum(records[..|records| - 1]) + |records[|records| - 1]|
  }

  function Commas(records: seq<Record>): nat { if records == [] then 0 else |records| - 1 }

  /** The encoded length of a chunk. */
  function Bytes(records: seq<Record>): nat { 2 + Sum(records) + Commas(records) }

  const OPEN: int := 0x5b
  const CLOSE: int := 0x5d
  const COMMA: int := 0x2c

  function Joined(records: seq<Record>): seq<int> {
    if records == [] then []
    else if |records| == 1 then records[0]
    else Joined(records[..|records| - 1]) + [COMMA] + records[|records| - 1]
  }

  function Encode(records: seq<Record>): seq<int> { [OPEN] + Joined(records) + [CLOSE] }

  /** The byte count is the true length of the encoded chunk. */
  lemma {:induction false} BytesAreTrue(records: seq<Record>)
    ensures |Encode(records)| == Bytes(records)
    ensures |Joined(records)| == Sum(records) + Commas(records)
  {
    if |records| > 1 {
      BytesAreTrue(records[..|records| - 1]);
    } else if |records| == 1 {
      assert records[..0] == [];
      assert Sum(records) == Sum(records[..0]) + |records[0]|;
    }
  }

  function Flatten(chunks: seq<seq<Record>>): seq<Record> {
    if chunks == [] then [] else Flatten(chunks[..|chunks| - 1]) + chunks[|chunks| - 1]
  }

  /** A contiguous split of the records into non-empty chunks within the limit. */
  predicate Split(chunks: seq<seq<Record>>, records: seq<Record>, limit: nat) {
    && Flatten(chunks) == records
    && forall i :: 0 <= i < |chunks| ==> Fine(chunks[i], limit)
  }

  predicate Fine(chunk: seq<Record>, limit: nat) { chunk != [] && Bytes(chunk) <= limit }

  /** The first record of the next chunk did not fit into this one. */
  predicate Overflows(chunk: seq<Record>, next: seq<Record>, limit: nat) {
    next != [] && Bytes(chunk + [next[0]]) > limit
  }

  /** Every chunk is within the budget as it is encoded. */
  predicate FitEncoded(chunks: seq<seq<Record>>, limit: nat) {
    forall i :: 0 <= i < |chunks| ==> |Encode(chunks[i])| <= limit
  }

  /** No split within the budget has fewer chunks. */
  ghost predicate Fewest(chunks: seq<seq<Record>>, records: seq<Record>, limit: nat) {
    forall other :: Split(other, records, limit) ==> |chunks| <= |other|
  }

  predicate TooBig(record: Record, limit: nat) { |record| + 2 > limit }

  /** A chunk that is followed by another could not have taken the first record of it. */
  predicate Greedy(chunks: seq<seq<Record>>, limit: nat) {
    forall i :: 0 < i < |chunks| ==> Overflows(chunks[i-1], chunks[i], limit)
  }

  lemma Append(records: seq<Record>, record: Record)
    ensures Bytes(records + [record]) == Bytes(records) + |record| + (if records == [] then 0 else 1)
  {
    assert (records + [record])[..|records|] == records;
  }

  lemma Alone(record: Record)
    ensures Bytes([record]) == 2 + |record|
  {
    Append([], record);
    assert [] + [record] == [record];
  }

  lemma FlattenAppend(chunks: seq<seq<Record>>, chunk: seq<Record>)
    ensures Flatten(chunks + [chunk]) == Flatten(chunks) + chunk
  {
    assert (chunks + [chunk])[..|chunks|] == chunks;
  }

  lemma CloseGreedy(chunks: seq<seq<Record>>, parts: seq<Record>, limit: nat)
    requires Greedy(chunks, limit) && (chunks != [] ==> Overflows(chunks[|chunks| - 1], parts, limit))
    ensures Greedy(chunks + [parts], limit)
  {
    var more := chunks + [parts];
    forall i | 0 < i < |more| ensures Overflows(more[i-1], more[i], limit) {
      assert more[i-1] == chunks[i-1];
      assert more[i] == if i < |chunks| then chunks[i] else parts;
    }
  }

  /** Closing a chunk keeps a greedy split greedy. */
  lemma CloseChunk(chunks: seq<seq<Record>>, parts: seq<Record>, limit: nat)
    requires Split(chunks, Flatten(chunks), limit) && Greedy(chunks, limit)
    requires Fine(parts, limit) && (chunks != [] ==> Overflows(chunks[|chunks| - 1], parts, limit))
    ensures Split(chunks + [parts], Flatten(chunks) + parts, limit) && Greedy(chunks + [parts], limit)
  {
    FlattenAppend(chunks, parts);
    CloseGreedy(chunks, parts, limit);
  }

  /** The closed chunks and the open one, after the records `done`. */
  predicate Progress(chunks: seq<seq<Record>>, parts: seq<Record>, done: seq<Record>, limit: nat) {
    && Split(chunks, Flatten(chunks), limit) && Greedy(chunks, limit)
    && Flatten(chunks) + parts == done
    && (parts != [] ==> Fine(parts, limit))
    && (chunks != [] ==> Overflows(chunks[|chunks| - 1], parts, limit))
  }

  lemma Extends(chunks: seq<seq<Record>>, parts: seq<Record>, values: seq<Record>, i: nat, limit: nat)
    requires i < |values| && Progress(chunks, parts, values[..i], limit) && Bytes(parts + [values[i]]) <= limit
    ensures Progress(chunks, parts + [values[i]], values[..i+1], limit)
  {
    var done, record := values[..i], values[i];
    assert values[..i+1] == done + [record];
    assert Flatten(chunks) + (parts + [record]) == done + [record];
    assert parts != [] ==> (parts + [record])[0] == parts[0];
  }

  lemma Closes(chunks: seq<seq<Record>>, parts: seq<Record>, values: seq<Record>, i: nat, limit: nat)
    requires i < |values| && Progress(chunks, parts, values[..i], limit) && parts != []
    requires Bytes(parts + [values[i]]) > limit && Bytes([values[i]]) <= limit
    ensures Progress(chunks + [parts], [values[i]], values[..i+1], limit)
  {
    assert values[..i+1] == values[..i] + [values[i]];
    CloseChunk(chunks, parts, limit);
    FlattenAppend(chunks, parts);
  }

  predicate Full(parts: seq<Record>, record: Record, limit: nat) {
    Bytes(parts) + |record| + (if parts != [] then 1 else 0) > limit
  }

  /** Taking one more record: it closes the open chunk when it does not fit any more. */
  lemma TakeRecord(chunks: seq<seq<Record>>, parts: seq<Record>, values: seq<Record>, i: nat, limit: nat)
    requires i < |values| && Progress(chunks, parts, values[..i], limit) && !TooBig(values[i], limit)
    ensures Full(parts, values[i], limit) ==>
              Progress(chunks + [parts], [values[i]], values[..i+1], limit) && Bytes([values[i]]) == 2 + |values[i]|
    ensures !Full(parts, values[i], limit) ==>
              Progress(chunks, parts + [values[i]], values[..i+1], limit)
              && Bytes(parts + [values[i]]) == Bytes(parts) + |values[i]| + (if parts != [] then 1 else 0)
  {
    Append(parts, values[i]);
    Alone(values[i]);
    if Full(parts, values[i], limit) {
      Closes(chunks, parts, values, i, limit);
    } else {
      Extends(chunks, parts, values, i, limit);
    }
  }

  /** None when one record alone exceeds the budget. */
  method PublicSnapshotJsonChunks(values: seq<Record>, limit: nat) returns (result: Option<seq<seq<Record>>>)
    ensures result.None? <==> exists i :: 0 <= i < |values| && TooBig(values[i], limit)
    ensures result.Some? ==> Split(result.value, values, limit)
    ensures result.Some? ==> FitEncoded(result.value, limit) && Fewest(result.value, values, limit)
  {
    var chunks: seq<seq<Record>> := [];
    var parts: seq<Record> := [];
    var bytes := 2;
    for i := 0 to |values|
      invariant forall j :: 0 <= j < i ==> !TooBig(values[j], limit)
      invariant bytes == Bytes(parts)
      invariant Progress(chunks, parts, values[..i], limit)
    {
      var record := values[i];
      if |record| + 2 > limit {
        assert TooBig(values[i], limit);
        return None;
      }
      TakeRecord(chunks, parts, values, i, limit);
      if bytes + |record| + (if parts != [] then 1 else 0) > limit {
        chunks := chunks + [parts];
        parts := [];
        bytes := 2;
        assert parts + [record] == [record];
      }
      bytes := bytes + |record| + (if parts != [] then 1 else 0);
      parts := parts + [record];
    }
    assert values[..|values|] == values;
    chunks := FinishChunks(chunks, parts, values, limit);
    return Some(chunks);
  }

  /** The open chunk is written last, unless there were no records at all. */
  method FinishChunks(chunks: seq<seq<Record>>, parts: seq<Record>, values: seq<Record>, limit: nat)
    returns (all: seq<seq<Record>>)
    requires Progress(chunks, parts, values, limit)
    ensures Split(all, values, limit)
    ensures FitEncoded(all, limit) && Fewest(all, values, limit)
  {
    all := chunks;
    if parts != [] {
      CloseChunk(chunks, parts, limit);
      FlattenAppend(chunks, parts);
      all := chunks + [parts];
    }
    ChunksFitEncoded(all, values, limit);
    forall other | Split(other, values, limit) ensures |all| <= |other| {
      GreedyIsOptimal(all, other, values, limit);
    }
  }

  // ---------------------------------------------------------------- fewest chunks

  lemma {:induction false} SumPrefix(records: seq<Record>, n: nat)
    requires n <= |records|
    ensures Sum(records[..n]) <= Sum(records)
  {
    if n < |records| {
      var k := |records| - 1;
      SumPrefix(records[..k], n);
      assert records[..k][..n] == records[..n];
    } else {
      assert records[..n] == records;
    }
  }

  lemma {:induction false} SumSuffix(records: seq<Record>, n: nat)
    requires n <= |records|
    ensures Sum(records) == Sum(records[..n]) + Sum(records[n..])
  {
    if n == |records| {
      assert records[..n] == records && records[n..] == [];
    } else {
      var k := |records| - 1;
      SumSuffix(records[..k], n);
      assert records[..k][..n] == records[..n] && records[n..][..k - n] == records[..k][n..];
    }
  }

  /** A part of a chunk is never longer than the chunk. */
  lemma PartIsShorter(records: seq<Record>, from: nat, to: nat)
    requires from <= to <= |records|
    ensures Bytes(records[from..to]) <= Bytes(records)
  {
    SumPrefix(records, to);
    SumSuffix(records[..to], from);
    assert records[..to][from..] == records[from..to];
  }

  function Upto(chunks: seq<seq<Record>>, k: nat): nat
    requires k <= |chunks|
  {
    if k == 0 then 0 else Upto(chunks, k - 1) + |chunks[k-1]|
  }

  lemma {:induction false} FlattenAt(chunks: seq<seq<Record>>, k: nat)
    requires k <= |chunks|
    ensures Upto(chunks, k) <= |Flatten(chunks)| && |Flatten(chunks[..k])| == Upto(chunks, k)
    ensures k == |chunks| ==> Upto(chunks, k) == |Flatten(chunks)|
    ensures k < |chunks| ==> Upto(chunks, k) + |chunks[k]| <= |Flatten(chunks)|
    ensures k < |chunks| ==> Flatten(chunks)[Upto(chunks, k)..Upto(chunks, k) + |chunks[k]|] == chunks[k]
    decreases |chunks|
  {
    if k == |chunks| {
      assert chunks[..k] == chunks;
      if k > 0 {
        FlattenAt(chunks[..k-1], k - 1);
        SameUpto(chunks, k - 1, k - 1);
      }
    } else {
      var n := |chunks| - 1;
      if k < n {
        FlattenAt(chunks[..n], k);
        SameUpto(chunks, n, k);
        assert chunks[..n][..k] == chunks[..k];
      } else {
        FlattenAt(chunks[..n], n);
        SameUpto(chunks, n, n);
        assert chunks[..n][..n] == chunks[..n];
      }
    }
  }

  lemma {:induction false} SameUpto(chunks: seq<seq<Record>>, n: nat, k: nat)
    requires k <= n <= |chunks|
    ensures Upto(chunks[..n], k) == Upto(chunks, k)
  {
    if k > 0 { SameUpto(chunks, n, k - 1); }
  }

  /** Greedy stays ahead: after every number of chunks it has placed at least as many records. */
  lemma {:induction false} GreedyStaysAhead(
    greedy: seq<seq<Record>>, other: seq<seq<Record>>, records: seq<Record>, limit: nat, k: nat)
    requires Split(greedy, records, limit) && Greedy(greedy, limit) && Split(other, records, limit)
    requires k <= |greedy| && k <= |other|
    ensures Upto(other, k) <= Upto(greedy, k)
  {
    if k > 0 {
      GreedyStaysAhead(greedy, other, records, limit, k - 1);
      if k < |greedy| {
        Reached(greedy, other, records, limit, k);
      } else {
        AtTheEnd(greedy, other, records, limit, k);
      }
    }
  }

  lemma AtTheEnd(greedy: seq<seq<Record>>, other: seq<seq<Record>>, records: seq<Record>, limit: nat, k: nat)
    requires Split(greedy, records, limit) && Split(other, records, limit) && k == |greedy| && k <= |other|
    ensures Upto(other, k) <= Upto(greedy, k)
  {
    FlattenAt(greedy, k);
    FlattenAt(other, k);
  }

  /** A later cut of the other split would put one record too many into its chunk. */
  lemma Reached(
    greedy: seq<seq<Record>>, other: seq<seq<Record>>, records: seq<Record>, limit: nat, k: nat)
    requires Split(greedy, records, limit) && Greedy(greedy, limit) && Split(other, records, limit)
    requires 0 < k < |greedy| && k <= |other| && Upto(other, k - 1) <= Upto(greedy, k - 1)
    ensures Upto(other, k) <= Upto(greedy, k)
  {
    OneMoreRecord(greedy, records, limit, k);
    assert Overflows(greedy[k-1], greedy[k], limit);
    if Upto(greedy, k) < Upto(other, k) {
      PieceFits(other, records, limit, k - 1, Upto(greedy, k - 1), Upto(greedy, k) + 1);
    }
  }

  /** Whatever lies inside one chunk of a split is within the budget. */
  lemma PieceFits(
    chunks: seq<seq<Record>>, records: seq<Record>, limit: nat, j: nat, start: nat, end: nat)
    requires Split(chunks, records, limit) && j < |chunks| && end <= |records|
    requires Upto(chunks, j) <= start <= end <= Upto(chunks, j + 1)
    ensures Bytes(records[start..end]) <= limit
  {
    FlattenAt(chunks, j);
    assert Fine(chunks[j], limit);
    TakesTooMuch(chunks[j], records, start, end, Upto(chunks, j), records[start..end]);
  }

  lemma OneMoreRecord(greedy: seq<seq<Record>>, records: seq<Record>, limit: nat, k: nat)
    requires Split(greedy, records, limit) && 0 < k < |greedy|
    ensures Upto(greedy, k) < |records|
    ensures records[Upto(greedy, k-1)..Upto(greedy, k) + 1] == greedy[k-1] + [greedy[k][0]]
  {
    FlattenAt(greedy, k - 1);
    FlattenAt(greedy, k);
    var start, end := Upto(greedy, k - 1), Upto(greedy, k);
    assert records[end..end + |greedy[k]|][0] == greedy[k][0];
    assert records[start..end + 1] == records[start..end] + [records[end]];
  }

  lemma TakesTooMuch(
    chunk: seq<Record>, records: seq<Record>, start: nat, end: nat, from: nat, wanted: seq<Record>)
    requires from <= start <= end <= from + |chunk| <= |records|
    requires records[from..from + |chunk|] == chunk && records[start..end] == wanted
    ensures Bytes(wanted) <= Bytes(chunk)
  {
    PartIsShorter(chunk, start - from, end - from);
    assert chunk[start - from..end - from] == wanted;
  }

  /** No contiguous split within the limit uses fewer chunks. */
  lemma GreedyIsOptimal(greedy: seq<seq<Record>>, other: seq<seq<Record>>, records: seq<Record>, limit: nat)
    requires Split(greedy, records, limit) && Greedy(greedy, limit) && Split(other, records, limit)
    ensures |greedy| <= |other|
  {
    var k := if |other| < |greedy| then |other| else 0;
    GreedyStaysAhead(greedy, other, records, limit, k);
    FlattenAt(other, k);
    FlattenAt(greedy, k);
  }

  /** Every chunk of a split is within the budget as it is encoded. */
  lemma ChunksFitEncoded(chunks: seq<seq<Record>>, records: seq<Record>, limit: nat)
    requires Split(chunks, records, limit)
    ensures FitEncoded(chunks, limit)
  {
    forall i | 0 <= i < |chunks| ensures |Encode(chunks[i])| <= limit { BytesAreTrue(chunks[i]); }
  }
}
