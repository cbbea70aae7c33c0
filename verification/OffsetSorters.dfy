/** Reassembly of data frames that arrive in any order: a linked list sorted by offset. */
module OffsetSorters {
  import opened DataQueues
  import opened Sequences
  import opened Wrappers

  datatype Piece = Piece(offset: nat, data: Bytes) {
    function End(): nat { offset + |data| }
  }

  class OffsetDataEntry {
    const piece: Piece
    var next: OffsetDataEntry?

    constructor (piece: Piece)
      ensures this.piece == piece && next == null
    {
      this.piece := piece;
      next := null;
    }
  }

  // ----- the list as a sequence of pieces

  ghost predicate Sorted(s: seq<Piece>) {
    forall i, j :: 0 <= i < j < |s| ==> s[i].offset <= s[j].offset
  }

  /** Behind every piece with the same or a smaller offset. */
  ghost function Insert(s: seq<Piece>, p: Piece): seq<Piece> {
    if s == [] || s[0].offset > p.offset then [p] + s else [s[0]] + Insert(s[1..], p)
  }

  lemma {:induction false} InsertAdds(s: seq<Piece>, p: Piece)
    ensures multiset(Insert(s, p)) == multiset(s) + multiset{p}
  {
    if s != [] && s[0].offset <= p.offset {
      InsertAdds(s[1..], p);
      assert s == [s[0]] + s[1..];
    }
  }

  lemma InsertHolds(s: seq<Piece>, p: Piece, x: Piece)
    ensures x in Insert(s, p) <==> x in s || x == p
  {}

  lemma {:induction false} InsertSorts(s: seq<Piece>, p: Piece)
    requires Sorted(s)
    ensures Sorted(Insert(s, p))
  {
    if s != [] && s[0].offset <= p.offset {
      InsertSorts(s[1..], p);
      var t := Insert(s[1..], p);
      forall i | 0 <= i < |t| ensures s[0].offset <= t[i].offset {
        InsertHolds(s[1..], p, t[i]);
      }
    }
  }

  /** The pieces with one offset, in list order. */
  ghost function At(s: seq<Piece>, offset: nat): seq<Piece> {
    if s == [] then [] else (if s[0].offset == offset then [s[0]] else []) + At(s[1..], offset)
  }

  /** Pieces with equal offsets keep the order in which they arrived. */
  lemma {:induction false} InsertIsStable(s: seq<Piece>, p: Piece, offset: nat)
    requires Sorted(s)
    ensures At(Insert(s, p), offset) == At(s, offset) + if p.offset == offset then [p] else []
  {
    if s == [] {
    } else if s[0].offset > p.offset {
      assert ([p] + s)[1..] == s;
      if p.offset == offset { NothingBelowHead(s, offset); }
    } else {
      InsertIsStable(s[1..], p, offset);
      assert Insert(s, p)[1..] == Insert(s[1..], p);
    }
  }

  lemma {:induction false} NothingBelowHead(s: seq<Piece>, offset: nat)
    requires Sorted(s) && (s != [] ==> offset < s[0].offset)
    ensures At(s, offset) == []
  {
    if s != [] { NothingBelowHead(s[1..], offset); }
  }

  /** All that repeated reads return, starting at a read offset. */
  ghost function Drain(s: seq<Piece>, readOffset: nat): Bytes {
    if s == [] || s[0].offset != readOffset then [] else s[0].data + Drain(s[1..], s[0].End())
  }

  ghost predicate Within(s: seq<Piece>, limit: nat) { forall p :: p in s ==> p.End() <= limit }

  /** Everything readable lies below the highest offset seen. */
  lemma {:induction false} DrainIsWithin(s: seq<Piece>, readOffset: nat, limit: nat)
    requires Within(s, limit) && readOffset <= limit
    ensures readOffset + |Drain(s, readOffset)| <= limit
  {
    if s != [] && s[0].offset == readOffset {
      DrainIsWithin(s[1..], s[0].End(), limit);
    }
  }

  class OffsetSorter {
    var head: OffsetDataEntry?
    var readOffset: nat
    var maxOffset: nat
    ghost var nodes: seq<OffsetDataEntry>

    /** The list is acyclic, sorted, and bounded by the highest offset seen. */
    ghost predicate Valid()
      reads this, nodes
    {
      && Linked()
      && Sorted(Pieces())
      && Within(Pieces(), maxOffset) && readOffset <= maxOffset
    }

    ghost predicate Linked()
      reads this, nodes
    {
      && (forall i, j :: 0 <= i < j < |nodes| ==> nodes[i] != nodes[j])
      && (forall i {:trigger nodes[i].next} :: 0 <= i < |nodes| - 1 ==> nodes[i].next == nodes[i + 1])
      && (nodes != [] ==> nodes[|nodes| - 1].next == null)
      && head == (if nodes == [] then null else nodes[0])
    }

    /** The pieces never change once linked, so they depend on the spine only. */
    ghost function Pieces(): (s: seq<Piece>)
      reads this
      ensures |s| == |nodes|
    {
      PiecesOf(nodes)
    }

    static ghost function PiecesOf(nodes: seq<OffsetDataEntry>): (s: seq<Piece>)
      ensures |s| == |nodes|
    {
      seq(|nodes|, i requires 0 <= i < |nodes| => nodes[i].piece)
    }

    constructor ()
      ensures Valid() && nodes == [] && Pieces() == [] && readOffset == 0 && maxOffset == 0
    {
      head, readOffset, maxOffset, nodes := null, 0, 0, [];
    }

    method Push(data: Bytes, offset: nat)
      requires Valid()
      modifies this, nodes
      ensures Valid() && readOffset == old(readOffset)
      ensures forall n :: n in nodes ==> n in old(nodes) || fresh(n)
      ensures Pieces() == Insert(old(Pieces()), Piece(offset, data))
      ensures maxOffset == if offset + |data| > old(maxOffset) then offset + |data| else old(maxOffset)
    {
      var piece := Piece(offset, data);
      InsertSorts(Pieces(), piece);
      InsertIsWithin(Pieces(), piece, maxOffset);
      var entry := new OffsetDataEntry(piece);
      maxOffset := if offset + |data| > maxOffset then offset + |data| else maxOffset;
      if head == null || head.piece.offset > offset {
        LinkFirst(entry);
      } else {
        var prev, k := Walk(offset);
        InsertAt(Pieces(), piece, k);
        LinkAfter(prev, entry, k);
      }
    }

    /** The last entry that does not start behind the offset. */
    method Walk(offset: nat) returns (prev: OffsetDataEntry, ghost k: nat)
      requires Linked() && head != null && head.piece.offset <= offset
      ensures 0 < k <= |nodes| && prev == nodes[k - 1] && Pieces()[k - 1].offset <= offset
      ensures k < |nodes| ==> Pieces()[k].offset > offset
    {
      prev := head;
      k := 1;
      while prev.next != null && prev.next.piece.offset <= offset
        invariant 0 < k <= |nodes| && prev == nodes[k - 1] && Pieces()[k - 1].offset <= offset
        decreases |nodes| - k
      {
        prev := prev.next;
        k := k + 1;
      }
    }

    method LinkFirst(entry: OffsetDataEntry)
      requires Linked() && entry !in nodes && entry.next == null
      modifies this`head, this`nodes, entry
      ensures Linked() && nodes == [entry] + old(nodes)
      ensures Pieces() == [entry.piece] + old(Pieces())
    {
      entry.next := head;
      head := entry;
      nodes := [entry] + nodes;
    }

    method LinkAfter(prev: OffsetDataEntry, entry: OffsetDataEntry, ghost k: nat)
      requires Linked() && 0 < k <= |nodes| && prev == nodes[k - 1] && entry !in nodes
      modifies this`nodes, prev, entry
      ensures Linked() && nodes == old(nodes)[..k] + [entry] + old(nodes)[k..]
      ensures Pieces() == old(Pieces())[..k] + [entry.piece] + old(Pieces())[k..]
    {
      entry.next := prev.next;
      prev.next := entry;
      nodes := nodes[..k] + [entry] + nodes[k..];
    }

    method Read() returns (data: Option<Bytes>)
      requires Valid()
      modifies this
      ensures Valid() && maxOffset == old(maxOffset)
      ensures forall n :: n in nodes ==> n in old(nodes)
      ensures if old(Pieces()) != [] && old(Pieces())[0].offset == old(readOffset)
              then data == Some(old(Pieces())[0].data) && Pieces() == old(Pieces())[1..] &&
                   readOffset == old(Pieces())[0].End()
              else data == None && Pieces() == old(Pieces()) && readOffset == old(readOffset)
      ensures Drain(old(Pieces()), old(readOffset)) ==
              (if data.Some? then data.value else []) + Drain(Pieces(), readOffset)
    {
      data := None;
      if head != null && readOffset == head.piece.offset {
        assert Pieces()[0] == head.piece;
        data := Some(head.piece.data);
        readOffset := head.piece.offset + |head.piece.data|;
        head := head.next;
        nodes := nodes[1..];
        assert Pieces() == old(Pieces())[1..];
      }
    }

    /** The buffered length is the number of bytes that repeated reads will return, and
        never reaches past the highest offset seen. */
    method ByteLength() returns (total: nat)
      requires Valid()
      ensures total == |Drain(Pieces(), readOffset)|
      ensures readOffset + total <= maxOffset
    {
      DrainIsWithin(Pieces(), readOffset, maxOffset);
      total := 0;
      var entry, offset := head, readOffset;
      ghost var k := 0;
      while entry != null && entry.piece.offset == offset
        invariant 0 <= k <= |nodes| && entry == (if k < |nodes| then nodes[k] else null)
        invariant 0 <= offset && total + |Drain(Pieces()[k..], offset)| == |Drain(Pieces(), readOffset)|
        decreases |nodes| - k
      {
        assert Pieces()[k..][0] == entry.piece && Pieces()[k..][1..] == Pieces()[k + 1..];
        total := total + |entry.piece.data|;
        offset := offset + |entry.piece.data|;
        entry := entry.next;
        k := k + 1;
      }
    }
  }

  /** The place found by the walk is the place of the insertion. */
  lemma {:induction false} InsertAt(s: seq<Piece>, p: Piece, k: nat)
    requires Sorted(s) && k <= |s|
    requires k > 0 ==> s[k - 1].offset <= p.offset
    requires k < |s| ==> s[k].offset > p.offset
    ensures Insert(s, p) == s[..k] + [p] + s[k..]
  {
    if k > 0 {
      var t := s[1..];
      assert s[0].offset <= s[k - 1].offset;
      InsertAt(t, p, k - 1);
      assert s[..k] == [s[0]] + t[..k - 1] && s[k..] == t[k - 1..];
      BehindHead([s[0]], t[..k - 1], p, t[k - 1..]);
    }
  }

  lemma BehindHead(head: seq<Piece>, front: seq<Piece>, p: Piece, back: seq<Piece>)
    ensures head + (front + [p] + back) == head + front + [p] + back
  {
    Associate(head, front + [p], back);
    Associate(head, front, [p]);
  }

  lemma InsertIsWithin(s: seq<Piece>, p: Piece, limit: nat)
    requires Sorted(s) && Within(s, limit)
    ensures Within(Insert(s, p), if p.End() > limit then p.End() else limit)
  {}
}
