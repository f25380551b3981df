/** The load script that posts a list of admin records to the bulk endpoint in
    batches of 1000, counts the records the server reports as created, and stops at
    the first request that does not return 200. */
module BulkClient {
  import opened Common
  import opened Chunking

  /** Records per request. */
  const BATCH_SIZE: nat := 1000

  /** What the script reads from a response: the status code and, for a 200, the
      length of the returned JSON list. */
  datatype Response = Response(status: int, echoed: nat)

  predicate Ok(r: Response) {
    r.status == 200
  }

  /** `data[i*BATCH_SIZE : (i+1)*BATCH_SIZE]`. */
  function Batch<T>(data: seq<T>, i: nat): seq<T> {
    Slice(data, i * BATCH_SIZE, (i + 1) * BATCH_SIZE)
  }

  /** `ceil(len(data) / BATCH_SIZE)`. */
  function TotalBatches<T>(data: seq<T>): nat {
    CeilDiv(|data|, BATCH_SIZE)
  }

  /** The records counted for the first `n` requests, the `i`-th request being
      answered by `post(i, batch)`. */
  function EchoSum<T>(post: (nat, seq<T>) -> Response, data: seq<T>, n: nat): nat
    decreases n
  {
    if n == 0 then 0 else EchoSum(post, data, n - 1) + post(n - 1, Batch(data, n - 1)).echoed
  }

  /** The script's loop. `post(i, batch)` is the server's answer to the `i`-th
      request. It returns the batches sent, in order, the final `inserted_records`,
      and the index of the request that failed, if one did. */
  method PostInBatches<T>(data: seq<T>, post: (nat, seq<T>) -> Response)
    returns (sent: seq<seq<T>>, inserted: nat, halted: Option<nat>)
    ensures |sent| <= TotalBatches(data)
    ensures forall k :: 0 <= k < |sent| ==> sent[k] == Batch(data, k)
    ensures halted.None? <==> forall k :: 0 <= k < TotalBatches(data) ==> Ok(post(k, Batch(data, k)))
    ensures halted.None? ==> |sent| == TotalBatches(data) && inserted == EchoSum(post, data, |sent|)
    ensures halted.Some? ==>
              && halted.value == |sent| - 1
              && !Ok(post(halted.value, sent[halted.value]))
              && (forall k :: 0 <= k < halted.value ==> Ok(post(k, sent[k])))
              && inserted == EchoSum(post, data, halted.value)
    ensures |data| == 0 ==> sent == [] && inserted == 0 && halted.None?
  {
    var total := TotalBatches(data);
    sent := [];
    inserted := 0;
    halted := None;
    var i := 0;
    while i < total
      invariant i <= total
      invariant |sent| == i
      invariant forall k :: 0 <= k < i ==> sent[k] == Batch(data, k)
      invariant forall k :: 0 <= k < i ==> Ok(post(k, Batch(data, k)))
      invariant inserted == EchoSum(post, data, i)
    {
      var batch := Batch(data, i);
      var response := post(i, batch);
      sent := sent + [batch];
      if response.status == 200 {
        inserted := inserted + response.echoed;
      } else {
        halted := Some(i);
        break;
      }
      i := i + 1;
    }
  }

  /** The requests the script can make are the batches of the list: there are
      `ceil(len(data) / BATCH_SIZE)` of them, the `i`-th is the `i`-th batch of the
      partition, and together they are the list, in order. */
  lemma BatchesPartitionData<T>(data: seq<T>)
    ensures |Chunks(data, BATCH_SIZE)| == TotalBatches(data)
    ensures forall i :: 0 <= i < TotalBatches(data) ==> Batch(data, i) == Chunks(data, BATCH_SIZE)[i]
    ensures forall i :: 0 <= i < TotalBatches(data) ==> 0 < |Batch(data, i)| <= BATCH_SIZE
    ensures Flatten(seq(TotalBatches(data), i requires 0 <= i < TotalBatches(data) => Batch(data, i))) == data
  {
    ChunksPartition(data, BATCH_SIZE);
    var bs := seq(TotalBatches(data), i requires 0 <= i < TotalBatches(data) => Batch(data, i));
    assert bs == Chunks(data, BATCH_SIZE);
  }

  /** Against a server that answers each successful request with the records it was
      sent, the count after `n` successful requests is the number of records in the
      first `n` batches: `min(n * BATCH_SIZE, len(data))`, never more than
      `total_records`. */
  lemma {:induction false} EchoSumCountsRecords<T>(post: (nat, seq<T>) -> Response, data: seq<T>, n: nat)
    requires forall k :: 0 <= k < n ==> post(k, Batch(data, k)).echoed == |Batch(data, k)|
    ensures EchoSum(post, data, n) == |Slice(data, 0, n * BATCH_SIZE)|
    ensures EchoSum(post, data, n) == Min(n * BATCH_SIZE, |data|)
    ensures EchoSum(post, data, n) <= |data|
    decreases n
  {
    if n > 0 {
      EchoSumCountsRecords(post, data, n - 1);
      var m := n - 1;
      assert n * BATCH_SIZE == m * BATCH_SIZE + BATCH_SIZE;
      SliceConcat(data, 0, m * BATCH_SIZE, n * BATCH_SIZE);
    }
  }
}
