/** The parquet producer of pkg/processor/base.go: one row buffer is reused by every read, and a
    pointer to a copy of each row is sent to the workers. */
module ParquetRows {
  import opened Seqs

  class Row<T> {
    var value: T

    constructor (value: T)
      ensures this.value == value
    {
      this.value := value;
    }
  }

  /** What the reader library does on one call: overwrite the front of the buffer. */
  method Fill<T>(buffer: array<T>, rows: seq<T>)
    requires |rows| <= buffer.Length
    modifies buffer
    ensures buffer[..|rows|] == rows
    ensures buffer[|rows|..] == old(buffer[|rows|..])
  {
    for i := 0 to |rows|
      invariant buffer[..i] == rows[..i]
      invariant buffer[|rows|..] == old(buffer[|rows|..])
    {
      buffer[i] := rows[i];
    }
  }

  /** What the workers find in the cells sent so far. */
  ghost function Values<T>(sent: seq<Row<T>>): (values: seq<T>)
    reads sent
    ensures |values| == |sent| && forall i :: 0 <= i < |sent| ==> values[i] == sent[i].value
  {
    if sent == [] then [] else Values(sent[..|sent| - 1]) + [sent[|sent| - 1].value]
  }

  /** One moment per value: the n-th shows the first n + 1. */
  ghost predicate Prefixes<T>(moments: seq<seq<T>>, values: seq<T>) {
    |moments| == |values| && forall n :: 0 <= n < |moments| ==> moments[n] == values[..n + 1]
  }

  lemma PrefixesSnoc<T>(moments: seq<seq<T>>, values: seq<T>, x: T)
    requires Prefixes(moments, values)
    ensures Prefixes(moments + [values + [x]], values + [x])
  {
    forall n | 0 <= n < |moments|
      ensures moments[n] == (values + [x])[..n + 1]
    {
      assert (values + [x])[..n + 1] == values[..n + 1];
    }
    assert (values + [x])[..|values| + 1] == values + [x];
  }

  /** One moment per overwrite: the k-th shows the rows of the first k reads. */
  ghost predicate ReadSoFar<T>(moments: seq<seq<T>>, chunks: seq<seq<T>>, k: nat)
    requires k <= |chunks|
  {
    |moments| == k && forall j :: 0 <= j < k ==> moments[j] == Flatten(chunks[..j])
  }

  lemma ReadSoFarSnoc<T>(moments: seq<seq<T>>, chunks: seq<seq<T>>, k: nat)
    requires k < |chunks| && ReadSoFar(moments, chunks, k)
    ensures ReadSoFar(moments + [Flatten(chunks[..k])], chunks, k + 1)
    ensures Flatten(chunks[..k + 1]) == Flatten(chunks[..k]) + chunks[k]
  {
    assert chunks[..k + 1] == chunks[..k] + [chunks[k]];
    FlattenSnoc(chunks[..k], chunks[k]);
  }

  /** The inner loop: a copy of each row read is sent. */
  method SendRows<T>(buffer: array<T>, n: nat, earlier: seq<Row<T>>, ghost atEarlier: seq<seq<T>>)
    returns (sent: seq<Row<T>>, ghost atSend: seq<seq<T>>)
    requires n <= buffer.Length && Distinct(earlier) && Prefixes(atEarlier, Values(earlier))
    ensures earlier <= sent && Distinct(sent) && forall i :: |earlier| <= i < |sent| ==> fresh(sent[i])
    ensures Values(sent) == Values(earlier) + buffer[..n] && Prefixes(atSend, Values(sent))
  {
    sent, atSend := earlier, atEarlier;
    for i := 0 to n
      invariant earlier <= sent && Distinct(sent) && forall j :: |earlier| <= j < |sent| ==> fresh(sent[j])
      invariant Values(sent) == Values(earlier) + buffer[..i] && Prefixes(atSend, Values(sent))
    {
      ghost var before := Values(sent);
      var row := new Row(buffer[i]);
      sent := sent + [row];
      assert Values(sent) == before + [buffer[i]];
      PrefixesSnoc(atSend, before, buffer[i]);
      atSend := atSend + [Values(sent)];
      assert buffer[..i + 1] == buffer[..i] + [buffer[i]];
    }
  }

  /** Each row travels in a cell of its own, and the cells sent hold the rows read, in order, at
      every moment: after each send (`atSend`), when a worker may take the row, and after each time
      the buffer has been overwritten (`atFill`).  So what a worker reads does not depend on when. */
  method Produce<T>(buffer: array<T>, chunks: seq<seq<T>>)
    returns (sent: seq<Row<T>>, ghost atSend: seq<seq<T>>, ghost atFill: seq<seq<T>>)
    requires forall k :: 0 <= k < |chunks| ==> |chunks[k]| <= buffer.Length
    modifies buffer
    ensures forall i :: 0 <= i < |sent| ==> fresh(sent[i])
    ensures Distinct(sent) && Values(sent) == Flatten(chunks) && Prefixes(atSend, Flatten(chunks))
    ensures ReadSoFar(atFill, chunks, |chunks|)
  {
    sent, atSend, atFill := [], [], [];
    for k := 0 to |chunks|
      invariant forall i :: 0 <= i < |sent| ==> fresh(sent[i])
      invariant Distinct(sent) && Values(sent) == Flatten(chunks[..k]) && Prefixes(atSend, Flatten(chunks[..k]))
      invariant ReadSoFar(atFill, chunks, k)
    {
      Fill(buffer, chunks[k]);
      ReadSoFarSnoc(atFill, chunks, k);
      atFill := atFill + [Values(sent)];
      sent, atSend := SendRows(buffer, |chunks[k]|, sent, atSend);
    }
    assert chunks[..|chunks|] == chunks;
  }
}
