/** The sender's connection object: sequence numbers, totals, and what a response does
    to the streams that took part in a packet. */
module SendingConnections {
  import opened HoldLedgers
  import opened Long64
  import opened PacketAssembly
  import opened Wrappers

  const MAX_PACKETS: nat := 0x8000_0000

  /** The first n streams have paid for packet k. */
  twostate predicate Paid(streams: seq<MoneyStream>, k: nat, n: nat)
    reads streams
  {
    forall i :: 0 <= i < |streams| ==>
      && streams[i].remote == old(streams[i].remote)
      && streams[i].State() ==
           if i < n then Execute(old(streams[i].State()), k) else old(streams[i].State())
  }

  class SendingConnection {
    var nextPacketSequence: nat
    var totalSent: U64
    var totalDelivered: U64

    constructor ()
      ensures nextPacketSequence == 1 && totalSent == 0 && totalDelivered == 0
    {
      nextPacketSequence, totalSent, totalDelivered := 1, 0, 0;
    }

    /** Numbers only grow, so none is handed out twice; from 2^31 on none is handed out. */
    method GetNextPacketSequence() returns (sequence: Result<nat>)
      modifies this`nextPacketSequence
      ensures nextPacketSequence == old(nextPacketSequence) + 1
      ensures sequence ==
              if old(nextPacketSequence) < 0x8000_0000 then Ok(old(nextPacketSequence)) else Err(TooManyPackets)
    {
      var next := nextPacketSequence;
      nextPacketSequence := nextPacketSequence + 1;
      sequence := if next >= MAX_PACKETS then Err(TooManyPackets) else Ok(next);
    }

    method AddTotalSent(value: U64) returns (ok: bool)
      modifies this`totalSent
      ensures ok <==> old(totalSent) + value <= MAX
      ensures totalSent == old(totalSent) + if ok then value else 0
    {
      var result := CheckedAdd(totalSent, value);
      if !result.wrapped {
        totalSent := result.value;
      }
      ok := !result.wrapped;
    }

    method AddTotalDelivered(value: U64) returns (ok: bool)
      modifies this`totalDelivered
      ensures ok <==> old(totalDelivered) + value <= MAX
      ensures totalDelivered == old(totalDelivered) + if ok then value else 0
    {
      var result := CheckedAdd(totalDelivered, value);
      if !result.wrapped {
        totalDelivered := result.value;
      }
      ok := !result.wrapped;
    }

    /** A fulfill with data: all holds are executed even when a total then overflows. */
    method OnFulfilled(streamsSentFrom: seq<MoneyStream>, sequence: nat, amount: U64, delivered: U64) returns (ok: bool)
      requires forall i, j :: 0 <= i < j < |streamsSentFrom| ==> streamsSentFrom[i] != streamsSentFrom[j]
      modifies this`totalSent, this`totalDelivered, streamsSentFrom
      ensures Paid(streamsSentFrom, sequence, |streamsSentFrom|)
      ensures ok <==> old(totalDelivered) + delivered <= MAX && old(totalSent) + amount <= MAX
      ensures totalDelivered == old(totalDelivered) + if old(totalDelivered) + delivered <= MAX then delivered else 0
      ensures totalSent == old(totalSent) + if ok then amount else 0
    {
      for i := 0 to |streamsSentFrom|
        invariant Paid(streamsSentFrom, sequence, i)
        invariant totalSent == old(totalSent) && totalDelivered == old(totalDelivered)
      {
        streamsSentFrom[i].ExecuteHold(sequence);
      }
      ok := AddTotalDelivered(delivered);
      if ok {
        ok := AddTotalSent(amount);
      }
    }

    /** A reject: the hold is released on every stream that the packet took money from and that is
        still on record, and no total moves. */
    method UndoRejectedPacket(streams: map<nat, MoneyStream>, frames: seq<MoneyFrame>, sequence: nat)
      requires forall id :: id in streams ==> streams[id].id == id
      modifies streams.Values
      ensures Undone(streams, frames, sequence)
    {
      for i := 0 to |frames|
        invariant Undone(streams, frames[..i], sequence)
      {
        var id := frames[i].streamId;
        PaidForMore(frames, i);
        if id in streams {
          streams[id].CancelHold(sequence);
        }
      }
      assert frames[..|frames|] == frames;
    }
  }

  ghost predicate TookFrom(frames: seq<MoneyFrame>, id: nat) {
    exists i :: 0 <= i < |frames| && frames[i].streamId == id
  }

  lemma PaidForMore(frames: seq<MoneyFrame>, i: nat)
    requires i < |frames|
    ensures forall id :: TookFrom(frames[..i + 1], id) <==> TookFrom(frames[..i], id) || id == frames[i].streamId
  {
    forall id ensures TookFrom(frames[..i + 1], id) <==> TookFrom(frames[..i], id) || id == frames[i].streamId {
      if TookFrom(frames[..i], id) {
        var j :| 0 <= j < i && frames[..i][j].streamId == id;
        assert frames[..i + 1][j].streamId == id;
      }
      assert frames[..i + 1][i] == frames[i];
    }
  }

  /** The holds of packet k are released on the streams its frames name. */
  twostate predicate Undone(streams: map<nat, MoneyStream>, frames: seq<MoneyFrame>, k: nat)
    reads streams.Values
  {
    forall id :: id in streams ==>
      && streams[id].remote == old(streams[id].remote)
      && streams[id].State() ==
           if TookFrom(frames, id) then Cancel(old(streams[id].State()), k) else old(streams[id].State())
  }
}
