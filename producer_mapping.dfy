/**
 * The JMS fan-out of external events: messages arrive grouped by partition
 * key, and each partition is assigned to one of producerCount parallel
 * producers by a consistent hash of its key. Partitions that hash to the
 * same producer are concatenated, in the order the partitions are visited,
 * into that producer's bucket.
 *
 * The hash itself is a parameter; all the model knows of it is that it maps
 * every key into [0, producerCount).
 */
module ProducerMapping {

  /** One serialised event, a byte[] in the source. */
  type Message = seq<bv8>

  /** One entry of the partitions map: a key and its messages, in the map's iteration order. */
  datatype Partition = Partition(key: int, messages: seq<Message>)

  /** HashingService.consistentHash(key, buckets). */
  type ConsistentHash = (int, int) -> int

  /** What the hash promises: every key lands on a valid producer index. */
  ghost predicate ValidHash(consistentHash: ConsistentHash, producerCount: int) {
    forall key :: 0 <= consistentHash(key, producerCount) < producerCount
  }

  /** The producer indices the partitions hash to. */
  function ProducerIndices(partitions: seq<Partition>, consistentHash: ConsistentHash, producerCount: int): set<int> {
    set j | 0 <= j < |partitions| :: consistentHash(partitions[j].key, producerCount)
  }

  /** The messages of every partition that hashes to index, concatenated in visiting order. */
  function MessagesFor(partitions: seq<Partition>, consistentHash: ConsistentHash, producerCount: int, index: int): seq<Message>
    decreases |partitions|
  {
    if partitions == [] then []
    else
      var last := partitions[|partitions| - 1];
      MessagesFor(partitions[..|partitions| - 1], consistentHash, producerCount, index)
      + (if consistentHash(last.key, producerCount) == index then last.messages else [])
  }

  /** The map mapPartitionsToProducers returns: one bucket per producer index in use. */
  function IndexedPartitions(partitions: seq<Partition>, consistentHash: ConsistentHash, producerCount: int)
    : (indexed: map<int, seq<Message>>)
    requires ValidHash(consistentHash, producerCount)
    ensures indexed.Keys == ProducerIndices(partitions, consistentHash, producerCount)
    ensures forall index :: index in indexed ==> 0 <= index < producerCount
  {
    map index | index in ProducerIndices(partitions, consistentHash, producerCount)
      :: MessagesFor(partitions, consistentHash, producerCount, index)
  }

  /**
   * mapPartitionsToProducers: a fresh map, filled entry by entry with
   * putIfAbsent and addAll. The input partitions are a value and stay as
   * they are.
   */
  method MapPartitionsToProducers(partitions: seq<Partition>, consistentHash: ConsistentHash, producerCount: int)
    returns (indexed: map<int, seq<Message>>)
    requires ValidHash(consistentHash, producerCount)
    ensures indexed == IndexedPartitions(partitions, consistentHash, producerCount)
  {
    indexed := map[];
    var i := 0;
    while i < |partitions|
      invariant 0 <= i <= |partitions|
      invariant indexed.Keys == ProducerIndices(partitions[..i], consistentHash, producerCount)
      invariant forall index :: index in indexed
                  ==> indexed[index] == MessagesFor(partitions[..i], consistentHash, producerCount, index)
    {
      var key := partitions[i].key;
      var messages := partitions[i].messages;
      var producerIndex := consistentHash(key, producerCount);
      if producerIndex !in indexed {
        indexed := indexed[producerIndex := []];
      }
      indexed := indexed[producerIndex := indexed[producerIndex] + messages];
      PrefixStep(partitions, i, consistentHash, producerCount);
      i := i + 1;
    }
    assert partitions[..i] == partitions;
  }

  /** How the indices and buckets of a prefix grow by one partition. */
  lemma PrefixStep(partitions: seq<Partition>, i: nat, consistentHash: ConsistentHash, producerCount: int)
    requires i < |partitions|
    ensures var h := consistentHash(partitions[i].key, producerCount);
            ProducerIndices(partitions[..i + 1], consistentHash, producerCount)
            == ProducerIndices(partitions[..i], consistentHash, producerCount) + {h}
    ensures forall index ::
              MessagesFor(partitions[..i + 1], consistentHash, producerCount, index)
              == MessagesFor(partitions[..i], consistentHash, producerCount, index)
                 + (if consistentHash(partitions[i].key, producerCount) == index then partitions[i].messages else [])
    ensures forall index :: index !in ProducerIndices(partitions[..i], consistentHash, producerCount)
              ==> MessagesFor(partitions[..i], consistentHash, producerCount, index) == []
  {
    var prefix := partitions[..i + 1];
    assert prefix[..i] == partitions[..i];
    assert prefix[i] == partitions[i];
    var h := consistentHash(partitions[i].key, producerCount);
    var before := ProducerIndices(partitions[..i], consistentHash, producerCount);
    var after := ProducerIndices(prefix, consistentHash, producerCount);
    forall x | x in after ensures x in before + {h} {
      var j :| 0 <= j < i + 1 && x == consistentHash(prefix[j].key, producerCount);
      if j < i { assert partitions[..i][j] == prefix[j]; }
    }
    forall x | x in before ensures x in after {
      var j :| 0 <= j < i && x == consistentHash(partitions[..i][j].key, producerCount);
      assert prefix[j] == partitions[..i][j];
    }
    assert h == consistentHash(prefix[i].key, producerCount);
    forall index | index !in before
      ensures MessagesFor(partitions[..i], consistentHash, producerCount, index) == []
    {
      AbsentIndexEmpty(partitions[..i], consistentHash, producerCount, index);
    }
  }

  /** An index no partition hashes to has an empty bucket. */
  lemma {:induction false} AbsentIndexEmpty(partitions: seq<Partition>, consistentHash: ConsistentHash, producerCount: int, index: int)
    requires index !in ProducerIndices(partitions, consistentHash, producerCount)
    ensures MessagesFor(partitions, consistentHash, producerCount, index) == []
    decreases |partitions|
  {
    if partitions != [] {
      var n := |partitions| - 1;
      var init := partitions[..n];
      assert consistentHash(partitions[n].key, producerCount) != index;
      forall x | x in ProducerIndices(init, consistentHash, producerCount)
        ensures x in ProducerIndices(partitions, consistentHash, producerCount)
      {
        var j :| 0 <= j < n && x == consistentHash(init[j].key, producerCount);
        assert init[j] == partitions[j];
      }
      AbsentIndexEmpty(init, consistentHash, producerCount, index);
    }
  }

  /** Bucket-building distributes over splitting the partitions into two runs. */
  lemma {:induction false} MessagesForAppend(
    front: seq<Partition>, back: seq<Partition>, consistentHash: ConsistentHash, producerCount: int, index: int)
    ensures MessagesFor(front + back, consistentHash, producerCount, index)
         == MessagesFor(front, consistentHash, producerCount, index) + MessagesFor(back, consistentHash, producerCount, index)
    decreases |back|
  {
    if back == [] {
      assert front + back == front;
    } else {
      var n := |back| - 1;
      assert (front + back)[..|front + back| - 1] == front + back[..n];
      MessagesForAppend(front, back[..n], consistentHash, producerCount, index);
    }
  }

  /** Where partition j's messages start in its bucket: after those of earlier partitions with the same index. */
  function Offset(partitions: seq<Partition>, consistentHash: ConsistentHash, producerCount: int, j: nat): nat
    requires j <= |partitions|
  {
    |MessagesFor(partitions[..j], consistentHash, producerCount,
                 if j < |partitions| then consistentHash(partitions[j].key, producerCount) else 0)|
  }

  /**
   * Every partition's messages sit, contiguous and in their own order, in the
   * bucket of the producer its key hashes to.
   */
  lemma PartitionContiguousInBucket(partitions: seq<Partition>, consistentHash: ConsistentHash, producerCount: int, j: nat)
    requires ValidHash(consistentHash, producerCount)
    requires j < |partitions|
    ensures var index := consistentHash(partitions[j].key, producerCount);
            var indexed := IndexedPartitions(partitions, consistentHash, producerCount);
            var start := Offset(partitions, consistentHash, producerCount, j);
            && index in indexed
            && start + |partitions[j].messages| <= |indexed[index]|
            && indexed[index][start..start + |partitions[j].messages|] == partitions[j].messages
  {
    var index := consistentHash(partitions[j].key, producerCount);
    assert index in ProducerIndices(partitions, consistentHash, producerCount);
    SplitAround(partitions, consistentHash, producerCount, j, index);
  }

  /** The bucket of index, cut around partition j. */
  lemma SplitAround(partitions: seq<Partition>, consistentHash: ConsistentHash, producerCount: int, j: nat, index: int)
    requires j < |partitions|
    ensures MessagesFor(partitions, consistentHash, producerCount, index)
         == MessagesFor(partitions[..j], consistentHash, producerCount, index)
            + (if consistentHash(partitions[j].key, producerCount) == index then partitions[j].messages else [])
            + MessagesFor(partitions[j + 1..], consistentHash, producerCount, index)
  {
    var front := partitions[..j + 1];
    assert partitions == front + partitions[j + 1..];
    MessagesForAppend(front, partitions[j + 1..], consistentHash, producerCount, index);
    assert front[..j] == partitions[..j];
  }

  /**
   * Partitions whose keys hash alike share one bucket, where the earlier
   * partition's messages come wholly before the later one's.
   */
  lemma SharedBucketKeepsOrder(partitions: seq<Partition>, consistentHash: ConsistentHash, producerCount: int, j1: nat, j2: nat)
    requires j1 < j2 < |partitions|
    requires consistentHash(partitions[j1].key, producerCount) == consistentHash(partitions[j2].key, producerCount)
    ensures Offset(partitions, consistentHash, producerCount, j1) + |partitions[j1].messages|
            <= Offset(partitions, consistentHash, producerCount, j2)
  {
    var index := consistentHash(partitions[j1].key, producerCount);
    var upTo := partitions[..j2];
    assert upTo[..j1] == partitions[..j1] && upTo[j1] == partitions[j1];
    SplitAround(upTo, consistentHash, producerCount, j1, index);
  }

  // ---------------------------------------------------------------------
  // Conservation: no message is lost or duplicated.
  // ---------------------------------------------------------------------

  /** All input messages, partition after partition. */
  function AllMessages(partitions: seq<Partition>): seq<Message> {
    if partitions == [] then []
    else AllMessages(partitions[..|partitions| - 1]) + partitions[|partitions| - 1].messages
  }

  /** The total number of messages, as summed for the throughput log. */
  function EventCount(partitions: seq<Partition>): nat {
    if partitions == [] then 0
    else EventCount(partitions[..|partitions| - 1]) + |partitions[|partitions| - 1].messages|
  }

  /** The bucket of index, or nothing when the map has none. */
  function Bucket(indexed: map<int, seq<Message>>, index: int): seq<Message> {
    if index in indexed then indexed[index] else []
  }

  /** The buckets of producers 0 .. count-1, one after the other. */
  function AllBuckets(indexed: map<int, seq<Message>>, count: nat): seq<Message> {
    if count == 0 then [] else AllBuckets(indexed, count - 1) + Bucket(indexed, count - 1)
  }

  /** The buckets of indices 0 .. count-1 as computed from the partitions. */
  function Spread(partitions: seq<Partition>, consistentHash: ConsistentHash, producerCount: int, count: nat): seq<Message> {
    if count == 0 then []
    else Spread(partitions, consistentHash, producerCount, count - 1)
         + MessagesFor(partitions, consistentHash, producerCount, count - 1)
  }

  /**
   * The producers' buckets together hold exactly the input messages, each as
   * often as it was given, so their total size is the event count.
   */
  lemma NoMessageLostOrDuplicated(partitions: seq<Partition>, consistentHash: ConsistentHash, producerCount: nat)
    requires ValidHash(consistentHash, producerCount)
    ensures var indexed := IndexedPartitions(partitions, consistentHash, producerCount);
            && multiset(AllBuckets(indexed, producerCount)) == multiset(AllMessages(partitions))
            && |AllBuckets(indexed, producerCount)| == EventCount(partitions)
  {
    var indexed := IndexedPartitions(partitions, consistentHash, producerCount);
    BucketsAreSpread(partitions, consistentHash, producerCount, producerCount);
    SpreadConserves(partitions, consistentHash, producerCount);
    CountIsLength(partitions);
    assert |multiset(AllBuckets(indexed, producerCount))| == |AllBuckets(indexed, producerCount)|;
    assert |multiset(AllMessages(partitions))| == |AllMessages(partitions)|;
  }

  lemma {:induction false} BucketsAreSpread(partitions: seq<Partition>, consistentHash: ConsistentHash, producerCount: int, count: nat)
    requires ValidHash(consistentHash, producerCount)
    ensures AllBuckets(IndexedPartitions(partitions, consistentHash, producerCount), count)
         == Spread(partitions, consistentHash, producerCount, count)
  {
    if count > 0 {
      BucketsAreSpread(partitions, consistentHash, producerCount, count - 1);
      var index := count - 1;
      if index !in ProducerIndices(partitions, consistentHash, producerCount) {
        AbsentIndexEmpty(partitions, consistentHash, producerCount, index);
      }
    }
  }

  lemma {:induction false} SpreadConserves(partitions: seq<Partition>, consistentHash: ConsistentHash, producerCount: nat)
    requires ValidHash(consistentHash, producerCount)
    ensures multiset(Spread(partitions, consistentHash, producerCount, producerCount)) == multiset(AllMessages(partitions))
    decreases |partitions|
  {
    if partitions == [] {
      SpreadOfNothing(consistentHash, producerCount, producerCount);
    } else {
      var init := partitions[..|partitions| - 1];
      SpreadConserves(init, consistentHash, producerCount);
      SpreadStep(partitions, consistentHash, producerCount, producerCount);
    }
  }

  lemma {:induction false} SpreadOfNothing(consistentHash: ConsistentHash, producerCount: int, count: nat)
    ensures Spread([], consistentHash, producerCount, count) == []
  {
    if count > 0 {
      SpreadOfNothing(consistentHash, producerCount, count - 1);
    }
  }

  /** What the last partition adds to the buckets below count: its messages, when its index is one of them. */
  function LastPartitionShare(partitions: seq<Partition>, consistentHash: ConsistentHash, producerCount: int, count: nat)
    : multiset<Message>
    requires partitions != []
  {
    var last := partitions[|partitions| - 1];
    var h := consistentHash(last.key, producerCount);
    if 0 <= h < count then multiset(last.messages) else multiset{}
  }

  /** Adding the last partition adds its messages to the spread exactly once, when its index is below count. */
  lemma {:induction false} SpreadStep(partitions: seq<Partition>, consistentHash: ConsistentHash, producerCount: int, count: nat)
    requires partitions != []
    ensures multiset(Spread(partitions, consistentHash, producerCount, count))
            == multiset(Spread(partitions[..|partitions| - 1], consistentHash, producerCount, count))
               + LastPartitionShare(partitions, consistentHash, producerCount, count)
  {
    if count > 0 {
      var init := partitions[..|partitions| - 1];
      var last := partitions[|partitions| - 1];
      var index := count - 1;
      var extra: seq<Message> := if consistentHash(last.key, producerCount) == index then last.messages else [];
      SpreadLast(partitions, consistentHash, producerCount, count);
      SpreadStep(partitions, consistentHash, producerCount, index);
      ShareStep(partitions, consistentHash, producerCount, count);
      Regroup(Spread(partitions, consistentHash, producerCount, index), Spread(partitions, consistentHash, producerCount, count),
              Spread(init, consistentHash, producerCount, index), Spread(init, consistentHash, producerCount, count),
              MessagesFor(init, consistentHash, producerCount, index), extra,
              LastPartitionShare(partitions, consistentHash, producerCount, index));
    }
  }

  lemma ShareStep(partitions: seq<Partition>, consistentHash: ConsistentHash, producerCount: int, count: nat)
    requires partitions != [] && count > 0
    ensures var last := partitions[|partitions| - 1];
            var extra: seq<Message> := if consistentHash(last.key, producerCount) == count - 1 then last.messages else [];
            LastPartitionShare(partitions, consistentHash, producerCount, count)
            == LastPartitionShare(partitions, consistentHash, producerCount, count - 1) + multiset(extra)
  {
  }

  /** Multiset bookkeeping for SpreadStep, on plain sequences. */
  lemma Regroup<T>(spread: seq<T>, spreadNext: seq<T>, init: seq<T>, initNext: seq<T>, mine: seq<T>, extra: seq<T>, older: multiset<T>)
    requires spreadNext == spread + (mine + extra)
    requires initNext == init + mine
    requires multiset(spread) == multiset(init) + older
    ensures multiset(spreadNext) == multiset(initNext) + (older + multiset(extra))
  {
  }

  /** The last bucket of a spread, cut into the part from earlier partitions and the part from the last one. */
  lemma SpreadLast(partitions: seq<Partition>, consistentHash: ConsistentHash, producerCount: int, count: nat)
    requires partitions != [] && count > 0
    ensures var init := partitions[..|partitions| - 1];
            var last := partitions[|partitions| - 1];
            var extra: seq<Message> := if consistentHash(last.key, producerCount) == count - 1 then last.messages else [];
            && Spread(partitions, consistentHash, producerCount, count)
               == Spread(partitions, consistentHash, producerCount, count - 1)
                  + (MessagesFor(init, consistentHash, producerCount, count - 1) + extra)
            && Spread(init, consistentHash, producerCount, count)
               == Spread(init, consistentHash, producerCount, count - 1) + MessagesFor(init, consistentHash, producerCount, count - 1)
  {
  }

  lemma {:induction false} CountIsLength(partitions: seq<Partition>)
    ensures |AllMessages(partitions)| == EventCount(partitions)
    decreases |partitions|
  {
    if partitions != [] {
      CountIsLength(partitions[..|partitions| - 1]);
    }
  }

  // ---------------------------------------------------------------------
  // sendPartitions: each bucket goes to producers.get(index).
  // ---------------------------------------------------------------------

  /** The pairing sendPartitions makes: the producer at each bucket's index, with the bucket. */
  function SendingTasks<P>(indexed: map<int, seq<Message>>, producers: seq<P>): (tasks: map<int, (P, seq<Message>)>)
    requires forall index :: index in indexed ==> 0 <= index < |producers|
    ensures tasks.Keys == indexed.Keys
  {
    map index | index in indexed :: (producers[index], indexed[index])
  }

  /**
   * With as many producers as obtainProducers creates, every bucket of the
   * map has a producer: the lookup never leaves the list, and every message
   * is sent by the producer its partition key hashes to.
   */
  lemma EveryBucketHasAProducer<P>(partitions: seq<Partition>, consistentHash: ConsistentHash, producers: seq<P>, j: nat)
    requires ValidHash(consistentHash, |producers|)
    requires j < |partitions|
    ensures var indexed := IndexedPartitions(partitions, consistentHash, |producers|);
            var tasks := SendingTasks(indexed, producers);
            var index := consistentHash(partitions[j].key, |producers|);
            && index in tasks
            && tasks[index].0 == producers[index]
            && multiset(partitions[j].messages) <= multiset(tasks[index].1)
  {
    var index := consistentHash(partitions[j].key, |producers|);
    var indexed := IndexedPartitions(partitions, consistentHash, |producers|);
    PartitionContiguousInBucket(partitions, consistentHash, |producers|, j);
    var start := Offset(partitions, consistentHash, |producers|, j);
    var bucket := indexed[index];
    var end := start + |partitions[j].messages|;
    assert bucket == bucket[..start] + bucket[start..end] + bucket[end..];
  }
}
