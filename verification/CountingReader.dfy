/** The counting reader of pkg/processor/base.go, through which every decoded byte passes. */
module CountingReader {
  import opened Seqs
  import opened Quota

  /** The bytes a list of reads delivers; a read may also report none, or a negative count. */
  function Delivered(counts: seq<int>): nat {
    if counts == [] then 0 else (if counts[0] > 0 then counts[0] else 0) + Delivered(counts[1..])
  }

  /** Where no read reports a negative count, that is their sum. */
  lemma {:induction false} DeliveredIsSum(counts: seq<int>)
    requires forall i :: 0 <= i < |counts| ==> counts[i] >= 0
    ensures Delivered(counts) == Sum(counts)
  {
    if counts != [] {
      DeliveredIsSum(counts[1..]);
    }
  }

  class CountingReader {
    var source: seq<int>
    const tracker: QuotaTracker

    /** `source` lists what the reads of the wrapped reader will return. */
    constructor (source: seq<int>, tracker: QuotaTracker)
      ensures this.source == source && this.tracker == tracker
    {
      this.source, this.tracker := source, tracker;
    }

    method Read() returns (n: int)
      requires source != []
      modifies this, tracker
      ensures n == old(source)[0] && source == old(source)[1..]
      ensures tracker.View() == old(tracker.View()).(bytesProcessed := old(tracker.bytesProcessed) + Delivered([n]))
    {
      n, source := source[0], source[1..];
      if n > 0 {
        var _ := tracker.RecordBytes(n);
      }
    }

    /** Read to the end, the tracker has counted every byte delivered, and changed nothing else. */
    method Drain()
      modifies this, tracker
      ensures source == []
      ensures tracker.View() ==
                old(tracker.View()).(bytesProcessed := old(tracker.bytesProcessed) + Delivered(old(source)))
      ensures (forall i :: 0 <= i < |old(source)| ==> old(source)[i] >= 0) ==>
                tracker.bytesProcessed == old(tracker.bytesProcessed) + Sum(old(source))
    {
      while source != []
        invariant tracker.bytesProcessed + Delivered(source) == old(tracker.bytesProcessed) + Delivered(old(source))
        invariant tracker.View() == old(tracker.View()).(bytesProcessed := tracker.bytesProcessed)
        decreases |source|
      {
        var _ := Read();
      }
      if forall i :: 0 <= i < |old(source)| ==> old(source)[i] >= 0 {
        DeliveredIsSum(old(source));
      }
    }
  }
}
