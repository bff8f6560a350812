/**
 * Batching of embedding requests during ingestion: chunks wait in a buffer that is sent
 * to the provider whenever it holds a full batch, and once more at the end.
 */
module EmbeddingBatch {
  import opened Common
  import opened Division

  /** A chunk waiting for its vector. */
  datatype Item = Item(chunkId: string, docId: string, input: string)

  /** A row of the vector table. */
  datatype Row<V> = Row(item: Item, vector: V)

  type Provider<V> = seq<string> -> seq<V>

  function Inputs(batch: seq<Item>): (r: seq<string>)
    ensures |r| == |batch| && forall i :: 0 <= i < |r| ==> r[i] == batch[i].input
  {
    if batch == [] then [] else Inputs(batch[..|batch| - 1]) + [batch[|batch| - 1].input]
  }

  /** Rows stored for a batch: as many as there are both chunks and vectors. */
  function Zip<V>(batch: seq<Item>, vectors: seq<V>): (r: seq<Row<V>>)
    ensures |r| == Min(|batch|, |vectors|)
    ensures forall i :: 0 <= i < |r| ==> r[i] == Row(batch[i], vectors[i])
  {
    seq(Min(|batch|, |vectors|), i requires 0 <= i < Min(|batch|, |vectors|) => Row(batch[i], vectors[i]))
  }

  function Joined<T>(batches: seq<seq<T>>): seq<T> {
    if batches == [] then [] else Joined(batches[..|batches| - 1]) + batches[|batches| - 1]
  }

  /** Everything a list of batches leaves in the table. */
  function Stored<V>(batches: seq<seq<Item>>, embed: Provider<V>): seq<Row<V>> {
    if batches == [] then []
    else
      var last := batches[|batches| - 1];
      Stored(batches[..|batches| - 1], embed) + Zip(last, embed(Inputs(last)))
  }

  /** The batches are `items` cut into pieces of `size`, with a non-empty rest at the end. */
  ghost predicate Grouped(batches: seq<seq<Item>>, items: seq<Item>, size: nat) {
    && Joined(batches) == items
    && (forall i :: 0 <= i < |batches| ==> 0 < |batches[i]| <= size)
    && (forall i :: 0 <= i < |batches| - 1 ==> |batches[i]| == size)
  }

  ghost predicate AllFull(batches: seq<seq<Item>>, size: nat) {
    forall i :: 0 <= i < |batches| ==> |batches[i]| == size
  }

  class Ingest<V(0)> {
    const embed: Provider<V>
    const batchSize: nat
    var pending: seq<Item>
    var table: seq<Row<V>>
    var batchCount: nat
    ghost var batches: seq<seq<Item>>
    ghost var accepted: seq<Item>

    constructor (embed: Provider<V>, batchSize: nat)
      requires batchSize > 0
      ensures this.embed == embed && this.batchSize == batchSize
      ensures Valid() && accepted == [] && table == [] && pending == [] && batches == []
    {
      this.embed, this.batchSize := embed, batchSize;
      pending, table, batchCount, batches, accepted := [], [], 0, [], [];
    }

    /** Between chunks the buffer holds less than a batch, and every batch sent was full. */
    ghost predicate Valid()
      reads this
    {
      && |pending| < batchSize && AllFull(batches, batchSize) && Books()
    }

    ghost predicate Books()
      reads this
    {
      && batchCount == |batches| && table == Stored(batches, embed)
      && Joined(batches) + pending == accepted
    }

    /** `flush_embedding_batch`: store the vectors the provider returned, forget the batch. */
    method Flush() returns (count: nat)
      requires Books()
      modifies this
      ensures Books() && accepted == old(accepted) && pending == [] && count == |old(pending)|
      ensures batches == if old(pending) == [] then old(batches) else old(batches) + [old(pending)]
    {
      if pending == [] {
        return 0;
      }
      var inputs: seq<string>, k := [], 0;
      while k < |pending|
        invariant 0 <= k <= |pending| && inputs == Inputs(pending[..k])
      {
        assert pending[..k + 1][..k] == pending[..k];
        inputs := inputs + [pending[k].input];
        k := k + 1;
      }
      assert pending[..k] == pending;
      var vectors := embed(inputs);
      var rows := StoreRows(pending, vectors);
      JoinedPush(batches, pending);
      StoredPush(batches, pending, embed);
      table := table + rows;
      batches := batches + [pending];
      batchCount := batchCount + 1;
      count := |pending|;
      pending := [];
      assert Joined(batches) + pending == Joined(batches);
    }

    method Push(item: Item)
      requires Books()
      modifies this`pending, this`accepted
      ensures Books() && pending == old(pending) + [item] && accepted == old(accepted) + [item]
    {
      assert (Joined(batches) + pending) + [item] == Joined(batches) + (pending + [item]);
      pending := pending + [item];
      accepted := accepted + [item];
    }

    /** One chunk of a document: queue it, send the batch if it is full. */
    method Accept(item: Item)
      requires Valid()
      modifies this
      ensures Valid() && accepted == old(accepted) + [item]
    {
      Push(item);
      if |pending| >= batchSize {
        FullPush(batches, pending, batchSize);
        var _ := Flush();
      }
    }

    method AcceptDocument(chunks: seq<Item>)
      requires Valid()
      modifies this
      ensures Valid() && accepted == old(accepted) + chunks
    {
      var i := 0;
      assert old(accepted) + chunks[..0] == old(accepted);
      while i < |chunks|
        invariant 0 <= i <= |chunks| && Valid() && accepted == old(accepted) + chunks[..i]
      {
        Accept(chunks[i]);
        assert (old(accepted) + chunks[..i]) + [chunks[i]] == old(accepted) + chunks[..i + 1];
        i := i + 1;
      }
      assert chunks[..i] == chunks;
    }

    /**
     * All documents, then the rest: the batches are the chunks in order, cut at the batch
     * size, and the table holds what the provider returned for them.
     */
    method IngestAll(docs: seq<seq<Item>>)
      requires Valid() && accepted == []
      modifies this
      ensures pending == [] && Grouped(batches, Joined(docs), batchSize) && table == Stored(batches, embed)
      ensures batchCount == |batches|
    {
      var d := 0;
      while d < |docs|
        invariant 0 <= d <= |docs| && Valid() && accepted == Joined(docs[..d])
      {
        assert docs[..d + 1][..d] == docs[..d];
        AcceptDocument(docs[d]);
        d := d + 1;
      }
      assert docs[..d] == docs;
      if pending != [] {
        GroupsWithRest(batches, pending, batchSize);
        var _ := Flush();
      } else {
        FullIsGrouped(batches, batchSize);
        assert Joined(batches) + [] == Joined(batches);
      }
    }
  }

  /** The storing loop: stops at the shorter of the two lists. */
  method StoreRows<V>(batch: seq<Item>, vectors: seq<V>) returns (rows: seq<Row<V>>)
    ensures rows == Zip(batch, vectors)
  {
    rows := [];
    var i := 0;
    while i < |batch| && i < |vectors|
      invariant 0 <= i <= Min(|batch|, |vectors|) && |rows| == i
      invariant forall k :: 0 <= k < i ==> rows[k] == Row(batch[k], vectors[k])
    {
      rows := rows + [Row(batch[i], vectors[i])];
      i := i + 1;
    }
  }

  lemma JoinedPush<T>(batches: seq<seq<T>>, last: seq<T>)
    ensures Joined(batches + [last]) == Joined(batches) + last
  {
    assert (batches + [last])[..|batches|] == batches;
  }

  lemma StoredPush<V>(batches: seq<seq<Item>>, last: seq<Item>, embed: Provider<V>)
    ensures Stored(batches + [last], embed) == Stored(batches, embed) + Zip(last, embed(Inputs(last)))
  {
    assert (batches + [last])[..|batches|] == batches;
  }

  lemma FullPush(batches: seq<seq<Item>>, last: seq<Item>, size: nat)
    requires AllFull(batches, size) && |last| == size
    ensures AllFull(batches + [last], size)
  {
  }

  lemma FullIsGrouped(batches: seq<seq<Item>>, size: nat)
    requires AllFull(batches, size) && size > 0
    ensures Grouped(batches, Joined(batches), size)
  {
  }

  /** Full batches followed by what is left over. */
  lemma GroupsWithRest(batches: seq<seq<Item>>, rest: seq<Item>, size: nat)
    requires AllFull(batches, size) && 0 < |rest| < size
    ensures Grouped(batches + [rest], Joined(batches) + rest, size)
  {
    JoinedPush(batches, rest);
  }

  // ----- what the grouping means

  lemma {:induction false} FullLength(batches: seq<seq<Item>>, size: nat)
    requires AllFull(batches, size)
    ensures |Joined(batches)| == |batches| * size
  {
    if batches != [] {
      FullLength(batches[..|batches| - 1], size);
      assert (|batches| - 1) * size + size == |batches| * size;
    }
  }

  /** N chunks are sent in exactly ceil(N / B) batches. */
  lemma FlushCount(batches: seq<seq<Item>>, items: seq<Item>, size: nat)
    requires Grouped(batches, items, size) && size > 0
    ensures |batches| == (|items| + size - 1) / size
  {
    var n := |batches|;
    if n == 0 {
      Quotient(|items| + size - 1, size, 0);
    } else {
      FullLength(batches[..n - 1], size);
      assert (n - 1) * size + size == n * size;
      Quotient(|items| + size - 1, size, n);
    }
  }

  ghost predicate OnePerInput<V>(embed: Provider<V>) {
    forall xs :: |embed(xs)| == |xs|
  }

  function Items<V>(rows: seq<Row<V>>): (r: seq<Item>)
    ensures |r| == |rows| && forall i :: 0 <= i < |r| ==> r[i] == rows[i].item
  {
    seq(|rows|, i requires 0 <= i < |rows| => rows[i].item)
  }

  /** With one vector per input, every chunk gets exactly one row, in chunk order. */
  lemma {:induction false} OneRowPerChunk<V>(batches: seq<seq<Item>>, embed: Provider<V>)
    requires OnePerInput(embed)
    ensures Items(Stored(batches, embed)) == Joined(batches)
  {
    if batches != [] {
      var last := batches[|batches| - 1];
      OneRowPerChunk(batches[..|batches| - 1], embed);
      var rows := Zip(last, embed(Inputs(last)));
      assert Items(rows) == last;
      assert Items(Stored(batches, embed)) == Items(Stored(batches[..|batches| - 1], embed)) + Items(rows);
    }
  }

  ghost predicate Pointwise<V>(embed: Provider<V>, f: string -> V) {
    OnePerInput(embed) && forall xs, i :: 0 <= i < |xs| ==> embed(xs)[i] == f(xs[i])
  }

  /** If a vector depends only on its own text, the table does not depend on the batch size. */
  lemma {:induction false} BatchSizeIsInvisible<V>(batches: seq<seq<Item>>, embed: Provider<V>, f: string -> V)
    requires Pointwise(embed, f)
    ensures |Stored(batches, embed)| == |Joined(batches)|
    ensures forall i :: 0 <= i < |Joined(batches)| ==>
      Stored(batches, embed)[i] == Row(Joined(batches)[i], f(Joined(batches)[i].input))
  {
    if batches != [] {
      var last := batches[|batches| - 1];
      BatchSizeIsInvisible(batches[..|batches| - 1], embed, f);
      var rows := Zip(last, embed(Inputs(last)));
      forall k | 0 <= k < |rows| ensures rows[k] == Row(last[k], f(last[k].input)) {
        assert embed(Inputs(last))[k] == f(Inputs(last)[k]);
      }
    }
  }

  /** Chunks get all their rows exactly when no batch came back short. */
  lemma {:induction false} RowsAreMissingExactlyWhenShort<V>(batches: seq<seq<Item>>, embed: Provider<V>)
    ensures |Stored(batches, embed)| <= |Joined(batches)|
    ensures |Stored(batches, embed)| == |Joined(batches)| <==>
      forall i :: 0 <= i < |batches| ==> |embed(Inputs(batches[i]))| >= |batches[i]|
  {
    if batches != [] {
      var front, last := batches[..|batches| - 1], batches[|batches| - 1];
      RowsAreMissingExactlyWhenShort(front, embed);
      assert forall i :: 0 <= i < |front| ==> front[i] == batches[i];
      assert |Zip(last, embed(Inputs(last)))| == Min(|last|, |embed(Inputs(last))|);
    }
  }
}
