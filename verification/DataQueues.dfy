/** The FIFO of chunks waiting to be cut into packets: a singly linked list. */
module DataQueues {
  import opened Wrappers

  newtype Byte = n: int | 0 <= n < 256

  type Bytes = seq<Byte>

  /** The callbacks of the source are opaque to the queue: an identity stands for each. */
  type Callback = Option<nat>

  datatype Chunk = Chunk(data: Bytes, callback: Callback)

  class DataQueueEntry {
    var data: Bytes
    var next: DataQueueEntry?
    const callback: Callback

    constructor (buf: Bytes, callback: Callback)
      ensures data == buf && this.callback == callback && next == null
    {
      data := buf;
      this.callback := callback;
      next := null;
    }
  }

  // ----- the queue as a sequence of chunks

  function Concat(chunks: seq<Chunk>): Bytes {
    if chunks == [] then [] else chunks[0].data + Concat(chunks[1..])
  }

  function CallbackOf(c: Chunk): seq<nat> {
    if c.callback.Some? then [c.callback.value] else []
  }

  function Callbacks(chunks: seq<Chunk>): seq<nat> {
    if chunks == [] then [] else CallbackOf(chunks[0]) + Callbacks(chunks[1..])
  }

  /** Reading n bytes: whole chunks are popped while bytes are wanted, the last one is cut. */
  ghost function Rest(chunks: seq<Chunk>, n: int): seq<Chunk> {
    if chunks == [] || n <= 0 then chunks
    else if |chunks[0].data| > n then [chunks[0].(data := chunks[0].data[n..])] + chunks[1..]
    else Rest(chunks[1..], n - |chunks[0].data|)
  }

  ghost function Taken(chunks: seq<Chunk>, n: int): Bytes {
    if chunks == [] || n <= 0 then []
    else if |chunks[0].data| > n then chunks[0].data[..n]
    else chunks[0].data + Taken(chunks[1..], n - |chunks[0].data|)
  }

  /** The callbacks of the popped chunks only. */
  ghost function Fired(chunks: seq<Chunk>, n: int): seq<nat> {
    if chunks == [] || n <= 0 || |chunks[0].data| > n then []
    else CallbackOf(chunks[0]) + Fired(chunks[1..], n - |chunks[0].data|)
  }

  function Clamp(n: int, limit: nat): nat { if n <= 0 then 0 else if n < limit then n else limit }

  /** A read takes a prefix of the bytes and leaves the others. */
  lemma {:induction false} ReadSplitsBytes(chunks: seq<Chunk>, n: int)
    ensures Taken(chunks, n) == Concat(chunks)[..Clamp(n, |Concat(chunks)|)]
    ensures Concat(Rest(chunks, n)) == Concat(chunks)[Clamp(n, |Concat(chunks)|)..]
  {
    if chunks != [] && 0 < n {
      if |chunks[0].data| > n {
        assert Rest(chunks, n)[1..] == chunks[1..];
      } else {
        ReadSplitsBytes(chunks[1..], n - |chunks[0].data|);
      }
    }
  }

  lemma {:induction false} ConcatAppends(chunks: seq<Chunk>, c: Chunk)
    ensures Concat(chunks + [c]) == Concat(chunks) + c.data
  {
    if chunks == [] {
      assert (chunks + [c])[1..] == [];
    } else {
      ConcatAppends(chunks[1..], c);
      assert (chunks + [c])[1..] == chunks[1..] + [c];
    }
  }

  /** One turn of the read loop on the first chunk. */
  lemma ReadTurn(left: seq<Chunk>, n: int, read: Bytes, fired: seq<nat>)
    requires left != [] && n > 0
    ensures |left[0].data| <= n ==>
              && read + left[0].data + Taken(left[1..], n - |left[0].data|) == read + Taken(left, n)
              && fired + CallbackOf(left[0]) + Fired(left[1..], n - |left[0].data|) == fired + Fired(left, n)
    ensures |left[0].data| > n ==> read + left[0].data[..n] == read + Taken(left, n) && Fired(left, n) == []
  {
    if |left[0].data| <= n {
      var taken, later := Taken(left[1..], n - |left[0].data|), Fired(left[1..], n - |left[0].data|);
      assert read + left[0].data + taken == read + (left[0].data + taken);
      assert fired + CallbackOf(left[0]) + later == fired + (CallbackOf(left[0]) + later);
    }
  }

  /** A callback fires exactly when its chunk is popped: what fired and what is still
      pending are together all the callbacks, in push order. */
  lemma {:induction false} CallbacksFireOnce(chunks: seq<Chunk>, n: int)
    ensures Fired(chunks, n) + Callbacks(Rest(chunks, n)) == Callbacks(chunks)
  {
    if chunks != [] && 0 < n {
      if |chunks[0].data| > n {
        assert Rest(chunks, n)[1..] == chunks[1..];
      } else {
        CallbacksFireOnce(chunks[1..], n - |chunks[0].data|);
      }
    }
  }

  /** Exactly those chunks are popped that end within the n bytes, as long as bytes are still wanted. */
  lemma {:induction false} PoppedExactly(chunks: seq<Chunk>, n: int) returns (k: nat)
    ensures k <= |chunks| && Fired(chunks, n) == Callbacks(chunks[..k])
    ensures k > 0 ==> |Concat(chunks[..k - 1])| < n && |Concat(chunks[..k])| <= n
    ensures k < |chunks| ==> |Concat(chunks[..k])| >= n || |Concat(chunks[..k + 1])| > n
  {
    if chunks == [] || n <= 0 || |chunks[0].data| > n {
      k := 0;
      assert chunks[..0] == [];
      if chunks != [] { PrefixConcat(chunks, 0); }
    } else {
      k := PoppedExactly(chunks[1..], n - |chunks[0].data|);
      if k > 0 { PrefixConcat(chunks, k - 1); }
      PrefixConcat(chunks, k);
      if k + 1 < |chunks| { PrefixConcat(chunks, k + 1); }
      k := k + 1;
    }
  }

  /** One chunk more in front. */
  lemma PrefixConcat(chunks: seq<Chunk>, k: nat)
    requires k < |chunks|
    ensures |Concat(chunks[..k + 1])| == |chunks[0].data| + |Concat(chunks[1..][..k])|
    ensures Callbacks(chunks[..k + 1]) == CallbackOf(chunks[0]) + Callbacks(chunks[1..][..k])
  {
    assert chunks[..k + 1][1..] == chunks[1..][..k];
  }

  class DataQueue {
    var head: DataQueueEntry?
    var tail: DataQueueEntry?
    var length: nat
    ghost var nodes: seq<DataQueueEntry>

    /** The links and both ends agree with the spine of nodes. */
    ghost predicate Valid()
      reads this, nodes
    {
      && (forall i, j :: 0 <= i < j < |nodes| ==> nodes[i] != nodes[j])
      && (forall i {:trigger nodes[i].next} :: 0 <= i < |nodes| - 1 ==> nodes[i].next == nodes[i + 1])
      && (nodes != [] ==> nodes[|nodes| - 1].next == null)
      && head == (if nodes == [] then null else nodes[0])
      && tail == (if nodes == [] then null else nodes[|nodes| - 1])
      && length == |nodes|
    }

    ghost function Chunks(): (chunks: seq<Chunk>)
      reads this, nodes
      ensures |chunks| == |nodes|
    {
      seq(|nodes|, i requires 0 <= i < |nodes| reads this, nodes => Chunk(nodes[i].data, nodes[i].callback))
    }

    ghost function Content(): Bytes
      reads this, nodes
    {
      Concat(Chunks())
    }

    constructor ()
      ensures Valid() && nodes == [] && Chunks() == []
    {
      head, tail, length, nodes := null, null, 0, [];
    }

    method Push(buf: Bytes, callback: Callback)
      requires Valid()
      modifies this, nodes
      ensures Valid() && |nodes| == |old(nodes)| + 1 && old(nodes) <= nodes && fresh(nodes[|old(nodes)|])
      ensures Chunks() == old(Chunks()) + [Chunk(buf, callback)]
      ensures Content() == old(Content()) + buf
    {
      ConcatAppends(Chunks(), Chunk(buf, callback));
      var entry := new DataQueueEntry(buf, callback);
      if tail != null {
        tail.next := entry;
      } else {
        head := entry;
      }
      tail := entry;
      length := length + 1;
      nodes := nodes + [entry];
    }

    method Shift() returns (data: Option<Bytes>)
      requires Valid()
      modifies this
      ensures Valid()
      ensures old(nodes) == [] ==> data == None && nodes == []
      ensures old(nodes) != [] ==>
                && data == Some(old(Chunks())[0].data)
                && nodes == old(nodes)[1..] && Chunks() == old(Chunks())[1..]
    {
      if head == null {
        return None;
      }
      data := Some(head.data);
      if length == 1 {
        head, tail := null, null;
      } else {
        head := head.next;
      }
      length := length - 1;
      nodes := nodes[1..];
      assert forall i :: 0 <= i < |nodes| ==> nodes[i] == old(nodes)[i + 1];
    }

    method CutHead(data: Bytes)
      requires Valid() && nodes != []
      modifies nodes[0]
      ensures Valid() && Chunks() == [old(Chunks()[0]).(data := data)] + old(Chunks())[1..]
    {
      head.data := data;
    }

    /** Reads up to n bytes; also returns the callbacks that fired, in order. */
    method Read(n: int) returns (data: Option<Bytes>, fired: seq<nat>)
      requires Valid()
      modifies this, nodes
      ensures Valid() && (set x <- nodes) <= old(set x <- nodes)
      ensures data == None <==> old(nodes) == []
      ensures data.Some? ==> data.value == old(Content())[..Clamp(n, |old(Content())|)]
      ensures Content() == old(Content())[Clamp(n, |old(Content())|)..]
      ensures Chunks() == Rest(old(Chunks()), n)
      ensures fired == Fired(old(Chunks()), n)
    {
      ReadSplitsBytes(Chunks(), n);
      if head == null {
        return None, [];
      }
      ghost var chunks, left, k := Chunks(), Chunks(), 0;
      var bytesLeft := n;
      var read: Bytes := [];
      fired := [];
      while bytesLeft > 0 && length > 0
        invariant Valid() && k <= |old(nodes)| && nodes == old(nodes)[k..]
        invariant Chunks() == left
        invariant Rest(left, bytesLeft) == Rest(chunks, n)
        invariant read + Taken(left, bytesLeft) == Taken(chunks, n)
        invariant fired + Fired(left, bytesLeft) == Fired(chunks, n)
        decreases length, bytesLeft
      {
        var chunk := head.data;
        assert left[0] == Chunk(chunk, head.callback);
        ReadTurn(left, bytesLeft, read, fired);
        if |chunk| > bytesLeft {
          CutHead(chunk[bytesLeft..]);
          left := Rest(left, bytesLeft);
          chunk := chunk[..bytesLeft];
          read := read + chunk;
          bytesLeft := bytesLeft - |chunk|;
        } else {
          read := read + chunk;
          bytesLeft := bytesLeft - |chunk|;
          fired := fired + CallbackOf(Chunk(chunk, head.callback));
          var popped := Shift();
          left, k := left[1..], k + 1;
        }
      }
      return Some(read), fired;
    }

    method IsEmpty() returns (empty: bool)
      requires Valid()
      ensures empty <==> nodes == []
    {
      empty := length == 0;
    }

    method ByteLength() returns (total: nat)
      requires Valid()
      ensures total == |Content()|
    {
      total := 0;
      var entry := head;
      ghost var k := 0;
      while entry != null
        invariant 0 <= k <= |nodes| && entry == (if k < |nodes| then nodes[k] else null)
        invariant total + |Concat(Chunks()[k..])| == |Content()|
        decreases |nodes| - k
      {
        assert Chunks()[k..][1..] == Chunks()[k + 1..];
        total := total + |entry.data|;
        entry := entry.next;
        k := k + 1;
      }
    }
  }
}
