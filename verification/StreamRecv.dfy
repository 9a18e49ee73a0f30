/** lwip_recv_tcp: reading a TCP stream through lastdata and the connection's receive mailbox. */
module StreamRecv {
  import opened Basics

  /** What the stack puts into the mailbox: received data, the end of the stream, or an error. */
  datatype Item = Data(bytes: seq<Byte>) | Fin | Failed(err: int)

  /** The outcome of one netconn_recv_tcp_pbuf_flags. */
  datatype Fetched = Pbuf(bytes: seq<Byte>) | Closed | Error

  /** Number of bytes, 0 for the end of the stream, or -1. */
  datatype Result = Received(bytes: seq<Byte>) | EndOfStream | Failure

  function Bytes(items: seq<Item>): seq<Byte> {
    if items == [] then [] else (if items[0].Data? then items[0].bytes else []) + Bytes(items[1..])
  }

  lemma {:induction false} BytesConcat(a: seq<Item>, b: seq<Item>)
    ensures Bytes(a + b) == Bytes(a) + Bytes(b)
  {
    if a == [] {
      assert a + b == b;
    } else {
      assert (a + b)[1..] == a[1..] + b;
      BytesConcat(a[1..], b);
    }
  }

  /** What arrives at one time; reset: whether the connection is reset then, which takes its pcb away. */
  datatype Delivery = Delivery(items: seq<Item>, reset: bool)

  /** The number of data bytes in front of the first end of the stream. */
  function Ahead(items: seq<Item>): nat {
    if items == [] || items[0].Fin? then 0 else (if items[0].Data? then |items[0].bytes| else 0) + Ahead(items[1..])
  }

  lemma {:induction false} AheadConcat(a: seq<Item>, b: seq<Item>)
    ensures Ahead(a + b) == if Fin in a then Ahead(a) else |Bytes(a)| + Ahead(b)
  {
    if a == [] {
      assert a + b == b;
    } else {
      assert (a + b)[1..] == a[1..] + b;
      assert a == [a[0]] + a[1..];
      AheadConcat(a[1..], b);
    }
  }

  /** The data at the front of the mailbox, up to the first item that is none. */
  function Front(items: seq<Item>): seq<Byte> {
    if items == [] || !items[0].Data? then [] else items[0].bytes + Front(items[1..])
  }

  lemma FirstOf(items: seq<Item>)
    requires items != []
    ensures Bytes(items) == (if items[0].Data? then items[0].bytes + Bytes(items[1..]) else Bytes(items[1..]))
    ensures Ahead(items) == if items[0].Fin? then 0 else (if items[0].Data? then |items[0].bytes| else 0) + Ahead(items[1..])
  {
  }

  lemma FrontOf(items: seq<Item>)
    ensures Front(items) == if items != [] && items[0].Data? then items[0].bytes + Front(items[1..]) else []
  {
  }

  lemma {:induction false} FrontGrows(a: seq<Item>, b: seq<Item>)
    ensures Front(a) <= Front(a + b) && (b == [] ==> Front(a + b) == Front(a))
  {
    if a == [] {
    } else {
      assert (a + b)[1..] == a[1..] + b;
      FrontGrows(a[1..], b);
    }
  }

  /** These items are what is left of all that arrived. */
  predicate Rest(items: seq<Item>, all: seq<Item>) {
    |items| <= |all| && items == all[|all| - |items|..]
  }

  /** The last item taken was no data. */
  predicate TookOther(items: seq<Item>, all: seq<Item>) {
    |items| < |all| && !all[|all| - |items| - 1].Data?
  }

  lemma RestArrive(items: seq<Item>, all: seq<Item>, more: seq<Item>)
    requires Rest(items, all)
    ensures Rest(items + more, all + more) && TookOther(items + more, all + more) == TookOther(items, all)
  {
    assert |items| < |all| ==> (all + more)[|all| - |items| - 1] == all[|all| - |items| - 1];
  }

  lemma RestTake(items: seq<Item>, all: seq<Item>)
    requires Rest(items, all) && items != []
    ensures Rest(items[1..], all) && TookOther(items[1..], all) == !items[0].Data?
  {
  }

  lemma Regroup(a: seq<Byte>, b: seq<Byte>, c: seq<Byte>, d: seq<Byte>)
    ensures a + (b + (c + d)) == (a + (b + c)) + d
  {
  }

  class StreamSocket {
    /** sock->lastdata, the receive mailbox, NETCONN_FIN_RX_PENDING, whether the mailbox is gone, and
        whether there is a pcb. */
    var lastdata: seq<Byte>
    var hasLast: bool
    var mbox: seq<Item>
    var finPending: bool
    var shut: bool
    var pcb: bool
    /** Bytes given back to the receive window. */
    var credit: nat
    /** The stream so far, and the part of it readers have consumed. */
    ghost var stream: seq<Byte>
    ghost var delivered: seq<Byte>
    /** How many bytes of the stream came before its end, once that has arrived. */
    ghost var finAt: Option<nat>
    /** Every item that has been put into the mailbox. */
    ghost var arrived: seq<Item>

    /** What has arrived and not been consumed. */
    ghost function Pending(): seq<Byte>
      reads `lastdata, `mbox
    {
      lastdata + Bytes(mbox)
    }

    /** The data that can be read without waiting. */
    ghost function AtHand(): seq<Byte>
      reads `lastdata, `mbox, `shut, `finPending
    {
      lastdata + if shut || finPending then [] else Front(mbox)
    }

    /** The end of the stream is the next thing to be read. */
    ghost predicate AtEnd()
      reads `hasLast, `mbox, `finPending, `shut
    {
      !hasLast && !shut && (finPending || (mbox != [] && mbox[0].Fin?))
    }

    /** There is nothing to go on with: no data is left over, and the mailbox is empty or gone, or the last item met was the
        end of the stream or an error. */
    ghost predicate Dry()
      reads `hasLast, `mbox, `shut, `arrived
    {
      !hasLast && (mbox == [] || shut || TookOther(mbox, arrived))
    }

    /** The end of the stream has not arrived, or has been reported, or has its place behind the data: where
        it is still to come, exactly the bytes in front of it are in `hand`, in the mailbox or delivered. */
    ghost predicate FinOk(hand: seq<Byte>)
      reads `mbox, `finPending, `shut, `pcb, `delivered, `finAt
    {
      && (finAt.None? ==> Fin !in mbox && !finPending && !shut)
      && (finAt.Some? && !shut && pcb ==>
            if finPending then |delivered| + |hand| == finAt.value
            else Fin in mbox && |delivered| + |hand| + Ahead(mbox) == finAt.value)
    }

    /** Nothing is lost, repeated or reordered. */
    ghost predicate Valid()
      reads `lastdata, `hasLast, `mbox, `finPending, `shut, `pcb, `stream, `delivered, `finAt, `arrived
    {
      && delivered + Pending() == stream && (!hasLast ==> lastdata == []) && (finPending ==> !hasLast && TookOther(mbox, arrived)) && FinOk(lastdata)
      && Rest(mbox, arrived)
    }

    constructor ()
      ensures Valid() && stream == [] && credit == |delivered| && !shut && !finPending && pcb && finAt.None?
      ensures mbox == arrived == []
    {
      lastdata, hasLast, mbox, finPending, shut, pcb, credit := [], false, [], false, false, true, 0;
      stream, delivered, finAt, arrived := [], [], None, [];
    }

    /** The stack delivers some items, or the connection is reset. */
    method Arrive(d: Delivery)
      requires Valid()
      modifies this
      ensures Valid() && mbox == old(mbox) + d.items && stream == old(stream) + Bytes(d.items) && (pcb <==> old(pcb) && !d.reset)
      ensures delivered == old(delivered) && lastdata == old(lastdata) && hasLast == old(hasLast)
      ensures shut == old(shut) && finPending == old(finPending) && credit == old(credit)
      ensures arrived == old(arrived) + d.items && old(AtHand()) <= AtHand() && (d.items == [] ==> AtHand() == old(AtHand()))
      ensures finAt == if old(finAt).None? && Fin in d.items then Some(|old(stream)| + Ahead(d.items)) else old(finAt)
    {
      hide Bytes, Ahead, Front, Rest, TookOther;
      FrontGrows(mbox, d.items);
      RestArrive(mbox, arrived, d.items);
      BytesConcat(mbox, d.items);
      AheadConcat(mbox, d.items);
      Regroup(delivered, lastdata, Bytes(mbox), Bytes(d.items));
      if finAt.None? && Fin in d.items {
        finAt := Some(|stream| + Ahead(d.items));
      }
      assert lastdata + Front(mbox) <= lastdata + Front(mbox + d.items);
      mbox := mbox + d.items;
      arrived := arrived + d.items;
      stream := stream + Bytes(d.items);
      if d.reset {
        pcb := false;
      }
    }

    /** netconn_recv_data_tcp with NETCONN_NOAUTORCVD. An empty mailbox ends it with an error at once if it
        must not block, else after the receive timeout. */
    method Fetch(noFin: bool) returns (r: Fetched)
      requires Valid() && !hasLast
      modifies this
      ensures stream == old(stream) && delivered == old(delivered) && credit == old(credit) && !hasLast && lastdata == []
      ensures finAt == old(finAt) && pcb == old(pcb) && arrived == old(arrived) && Rest(mbox, arrived)
      ensures if r.Pbuf? then old(AtHand()) == r.bytes + AtHand() else old(AtHand()) == [] && Dry()
      ensures r.Pbuf? ==> delivered + (r.bytes + Bytes(mbox)) == stream && FinOk(r.bytes) && |mbox| < |old(mbox)| && shut == old(shut)
      ensures r.Pbuf? ==> !finPending && !old(finPending)
      ensures !r.Pbuf? ==> Valid()
      // the end is reported behind the last byte in front of it, and not where it must not be
      ensures r.Closed? ==> !old(shut) && pcb && shut && !finPending && finAt == Some(|delivered|) && (noFin ==> old(finPending))
      // the end of the stream met while it cannot be reported is remembered, and reported the next time
      ensures noFin && !old(finPending) && !shut && old(mbox) != [] && old(mbox)[0].Fin? ==> finPending && r.Error?
      ensures old(AtEnd()) && pcb && (noFin ==> old(finPending)) ==> r.Closed?
      ensures r.Pbuf? && old(mbox) != [] ==> old(mbox)[0] == Data(r.bytes)
      ensures old(finPending) && old(shut) ==> finPending && r.Error?
    {
      hide Bytes, Ahead, Front, Rest, TookOther;
      FrontOf(mbox);
      if shut {
        return Error;
      }
      if finPending {
        finPending := false;
        r := HandleFin();
        return;
      }
      if mbox == [] {
        return Error;
      }
      r := Take(noFin);
    }

    /** The next item is taken out of the mailbox. */
    method Take(noFin: bool) returns (r: Fetched)
      requires Valid() && !hasLast && !shut && !finPending && mbox != []
      modifies `mbox, `finPending, `shut
      ensures mbox == old(mbox)[1..] && Rest(mbox, arrived) && TookOther(mbox, arrived) == !old(mbox)[0].Data?
      ensures finPending == (old(mbox)[0].Fin? && noFin) && shut == (old(mbox)[0].Fin? && !noFin && pcb)
      ensures match old(mbox)[0]
              case Data(bytes) => r == Pbuf(bytes) && delivered + (bytes + Bytes(mbox)) == stream && FinOk(bytes)
              case Fin => (r.Closed? <==> shut) && (r.Error? <==> !shut) && Valid() && (shut ==> finAt == Some(|delivered|))
              case Failed(_) => r == Error && Valid()
    {
      hide Bytes, Ahead, Front, Rest, TookOther;
      var buf := mbox[0];
      assert mbox == [buf] + mbox[1..];
      FirstOf(mbox);
      RestTake(mbox, arrived);
      mbox := mbox[1..];
      match buf {
        case Data(bytes) =>
          r := Pbuf(bytes);
        case Failed(_) =>
          r := Error;
        case Fin =>
          if noFin {
            finPending := true;
            r := Error;
          } else {
            r := HandleFin();
          }
      }
    }

    /** handle_fin: the mailbox goes, unless the connection was reset in the meantime. */
    method HandleFin() returns (r: Fetched)
      modifies `shut
      ensures if pcb then shut && r.Closed? else shut == old(shut) && r.Error?
    {
      if !pcb {
        return Error;
      }
      shut := true;
      r := Closed;
    }

    /** p is now the pbuf to read from: lastdata, or the next one from the mailbox. */
    method NextPbuf(noFin: bool, feed: Delivery) returns (err: Fetched)
      requires Valid()
      modifies this
      ensures Valid() && old(stream) <= stream && delivered == old(delivered) && credit == old(credit)
      ensures (pcb ==> old(pcb)) && (old(finAt).Some? ==> finAt == old(finAt))
      ensures err.Pbuf? <==> hasLast
      ensures old(AtHand()) <= AtHand() && (feed.items == [] && err.Pbuf? ==> AtHand() == old(AtHand()))
      ensures !err.Pbuf? ==> old(AtHand()) == [] && Dry()
      ensures old(hasLast) ==> hasLast && mbox == old(mbox) && lastdata == old(lastdata)
      ensures err.Pbuf? ==> shut == old(shut)
      ensures !old(hasLast) && hasLast && feed.items == [] ==> |mbox| < |old(mbox)|
      ensures err.Closed? ==> !old(shut) && pcb && shut && !finPending && finAt == Some(|delivered|) && delivered <= stream && (noFin ==> old(finPending))
      ensures old(AtEnd()) && pcb && (noFin ==> old(finPending)) ==> err.Closed?
      ensures old(finPending) ==> !err.Pbuf?
      ensures err.Pbuf? ==> !finPending
      ensures !old(hasLast) && hasLast && old(mbox) != [] ==> old(mbox)[0] == Data(lastdata)
    {
      hide Bytes, Ahead, Front, Rest, TookOther;
      if hasLast {
        return Pbuf(lastdata);
      }
      Arrive(feed);
      err := Fetch(noFin);
      if err.Pbuf? {
        lastdata, hasLast := err.bytes, true;
      }
    }

    /** Copy from the pbuf and, unless peeking, hide or free what was copied. */
    method Consume(copylen: nat, peek: bool) returns (bytes: seq<Byte>)
      requires Valid() && hasLast && copylen <= |lastdata|
      modifies this`lastdata, this`hasLast, this`delivered
      ensures Valid() && bytes == old(lastdata)[..copylen]
      ensures peek ==> delivered == old(delivered) && lastdata == old(lastdata) && hasLast && bytes <= Pending() && lastdata <= AtHand() == old(AtHand())
      ensures !peek ==> old(AtHand()) == bytes + AtHand()
      ensures !peek ==> delivered == old(delivered) + bytes && lastdata == old(lastdata)[copylen..] && hasLast == (lastdata != [])
    {
      hide Bytes, Ahead, Front, Rest, TookOther;
      bytes := lastdata[..copylen];
      if !peek {
        assert lastdata == lastdata[..copylen] + lastdata[copylen..];
        assert delivered + (lastdata + Bytes(mbox)) == (delivered + bytes) + (lastdata[copylen..] + Bytes(mbox));
        delivered := delivered + bytes;
        lastdata := lastdata[copylen..];
        hasLast := lastdata != [];
      }
    }

    /** One round of lwip_recv_tcp: up to `left` bytes of one pbuf. */
    method Round(recvd: nat, left: nat, noFin: bool, peek: bool, feed: Delivery) returns (err: Fetched, bytes: seq<Byte>)
      requires Valid() && recvd + left <= SSIZE_MAX
      modifies this
      ensures Valid() && old(stream) <= stream && credit == old(credit) && |bytes| <= left
      ensures (pcb ==> old(pcb)) && (old(finAt).Some? ==> finAt == old(finAt)) && (err.Pbuf? ==> shut == old(shut))
      ensures delivered == if peek then old(delivered) else old(delivered) + bytes
      ensures peek ==> bytes <= Pending()
      ensures !err.Pbuf? ==> bytes == [] && !hasLast && old(AtHand()) == [] && Dry()
      ensures err.Pbuf? && !peek ==> old(AtHand()) <= bytes + AtHand() && (feed.items == [] ==> old(AtHand()) == bytes + AtHand())
      ensures err.Pbuf? && peek ==> hasLast && bytes == lastdata[..Min(left, |lastdata|)] && old(AtHand()) <= AtHand() && lastdata <= AtHand()
      ensures old(hasLast) ==> err.Pbuf? && mbox == old(mbox)
      ensures err.Pbuf? && !peek && |bytes| < left ==> !hasLast
      ensures err.Pbuf? && !old(hasLast) && feed.items == [] ==> |mbox| < |old(mbox)|
      ensures err.Pbuf? ==> !finPending
      ensures err.Closed? ==> !old(shut) && pcb && shut && !finPending && finAt == Some(|delivered|) && delivered <= stream && (noFin ==> old(finPending))
      ensures old(AtEnd()) && pcb && (noFin ==> old(finPending)) ==> err.Closed?
      ensures old(finPending) ==> !err.Pbuf?
      ensures peek && old(hasLast) ==> lastdata == old(lastdata)
      ensures peek && err.Pbuf? && !old(hasLast) && old(mbox) != [] ==> old(mbox)[0] == Data(lastdata)
    {
      hide Valid, Pending, AtHand, Dry, FinOk;
      err := NextPbuf(noFin, feed);
      bytes := [];
      if err.Pbuf? {
        var copylen: int := if left > |lastdata| then |lastdata| else left;
        copylen := if recvd + copylen > SSIZE_MAX then SSIZE_MAX - recvd else copylen;
        bytes := Consume(copylen, peek);
      }
    }

    /** lwip_recv_tcp. feed: what arrives while it looks into the mailbox, time after time. */
    method Recv(len: nat, peek: bool, feed: seq<Delivery>) returns (r: Result)
      requires Valid()
      modifies this
      ensures Valid() && old(stream) <= stream && (pcb ==> old(pcb)) && (old(finAt).Some? ==> finAt == old(finAt))
      ensures r.Received? ==> |r.bytes| <= len
      // all that was asked for, or all there was
      ensures r.Received? && !peek ==> |r.bytes| == Min(len, SSIZE_MAX) || Dry()
      ensures r.Received? && !peek ==> |r.bytes| >= Min(Min(len, SSIZE_MAX), |old(AtHand())|)
      ensures r.Received? && !peek && feed == [] ==> |r.bytes| == Min(Min(len, SSIZE_MAX), |old(AtHand())|)
      ensures !r.Received? ==> old(AtHand()) == [] && Dry()
      // a peek shows one pbuf, and leaves it there
      ensures r.Received? && peek ==> hasLast && r.bytes == lastdata[..Min(Min(len, SSIZE_MAX), |lastdata|)] && old(AtHand()) <= AtHand()
      ensures r.Received? && peek ==> if old(hasLast) then lastdata == old(lastdata) else old(mbox) == [] || old(mbox)[0] == Data(lastdata)
      ensures r.Received? && !peek ==> delivered == old(delivered) + r.bytes && credit == old(credit) + |r.bytes|
      ensures !r.Received? || peek ==> delivered == old(delivered) && credit == old(credit)
      ensures r.Received? && peek ==> r.bytes <= Pending()
      // the end is reported when exactly the bytes in front of it have been delivered
      ensures r.EndOfStream? ==> !old(shut) && pcb && shut && finAt == Some(|delivered|) && delivered <= stream
      ensures old(AtEnd()) && pcb ==> r.EndOfStream?
    {
      hide Valid, Pending, FinOk, Bytes, Ahead, AtHand, AtEnd, TookOther;
      var out: seq<Byte>, left: nat, f: nat := [], if len <= SSIZE_MAX then len else SSIZE_MAX, 0;
      var noFin, more := false, true;
      while more
        invariant Valid() && old(stream) <= stream && credit == old(credit) && f <= |feed|
        invariant (pcb ==> old(pcb)) && (old(finAt).Some? ==> finAt == old(finAt)) && shut == old(shut)
        invariant |out| + left == if len <= SSIZE_MAX then len else SSIZE_MAX
        invariant !noFin ==> out == [] && more && finPending == old(finPending)
        invariant noFin ==> !(old(AtEnd()) && pcb) && (more ==> !hasLast)
        invariant !noFin ==> mbox == old(mbox) && hasLast == old(hasLast) && lastdata == old(lastdata) && AtEnd() == old(AtEnd()) && AtHand() == old(AtHand())
        invariant !peek || more ==> |old(AtHand())| <= |out| + |AtHand()| && (feed == [] ==> |old(AtHand())| == |out| + |AtHand()|)
        invariant peek && !more ==> hasLast && out == lastdata[..Min(Min(len, SSIZE_MAX), |lastdata|)] && old(AtHand()) <= AtHand()
        invariant peek && !more ==> if old(hasLast) then lastdata == old(lastdata) else old(mbox) == [] || old(mbox)[0] == Data(lastdata)
        invariant more == (!noFin || (left > 0 && !peek))
        invariant delivered == if peek then old(delivered) else old(delivered) + out
        invariant peek ==> out <= Pending() && (more ==> out == [])
        decreases |feed| - f, |mbox|, hasLast, more
      {
        var incoming := if hasLast || f == |feed| then Delivery([], false) else feed[f];
        f := if hasLast || f == |feed| then f else f + 1;
        var err, bytes := Round(|out|, left, noFin, peek, incoming);
        if !err.Pbuf? {
          if |out| > 0 {
            break;
          }
          return if err.Closed? then EndOfStream else Failure;
        }
        assert out == [] ==> out + bytes == bytes;
        out := out + bytes;
        left := left - |bytes|;
        noFin := true;
        more := left > 0 && !peek;
      }
      if |out| > 0 && !peek {
        credit := credit + |out|;
      }
      r := Received(out);
    }
  }
}
