/** Messages over a socket, each closed by a zero byte. */
module SocketFraming {
  import opened Options
  import opened Sequences
  import opened Strings

  type Byte = x: int | 0 <= x < 256

  const DELIMITER: Byte := 0
  const BUFFER_SIZE := 1024

  /** The pieces of a stream that a delimiter closes, and what follows the last delimiter. */
  datatype Parts = Parts(closed: seq<seq<Byte>>, open: seq<Byte>)

  function Cut(stream: seq<Byte>): Parts {
    if stream == [] then Parts([], []) else Take(Cut(stream[..|stream| - 1]), stream[|stream| - 1])
  }

  function Take(p: Parts, b: Byte): Parts {
    if b == DELIMITER then Parts(p.closed + [p.open], []) else p.(open := p.open + [b])
  }

  /** The stream that a list of pieces stands for. */
  function Stream(p: Parts): seq<Byte> {
    ClosedBytes(p.closed) + p.open
  }

  function ClosedBytes(closed: seq<seq<Byte>>): seq<Byte> {
    if closed == [] then [] else ClosedBytes(closed[..|closed| - 1]) + closed[|closed| - 1] + [DELIMITER]
  }

  predicate Clean(p: Parts) {
    DELIMITER !in p.open && forall m :: m in p.closed ==> DELIMITER !in m
  }

  lemma StreamOfTake(p: Parts, b: Byte)
    ensures Stream(Take(p, b)) == Stream(p) + [b]
  {
    if b == DELIMITER {
      assert (p.closed + [p.open])[..|p.closed|] == p.closed;
    }
  }

  lemma EmptyStream()
    ensures Stream(Parts([], [])) == []
  {
  }

  /** The pieces contain no delimiter and give back the stream, every byte of it. */
  lemma {:induction false} CutLosesNothing(stream: seq<Byte>)
    ensures Clean(Cut(stream)) && Stream(Cut(stream)) == stream
    decreases |stream|
  {
    hide Stream;
    if stream == [] {
      assert Stream(Parts([], [])) == [] by { EmptyStream(); }
    } else {
      var init, b := stream[..|stream| - 1], stream[|stream| - 1];
      CutLosesNothing(init);
      StreamOfTake(Cut(init), b);
      assert init + [b] == stream;
    }
  }

  /** And they are the only pieces that do. */
  lemma {:induction false} CutUndoesStream(p: Parts)
    requires Clean(p)
    ensures Cut(Stream(p)) == p
    decreases |p.closed|, |p.open|
  {
    hide Stream;
    var s := Stream(p);
    if p.open != [] {
      var n := |p.open| - 1;
      var q := p.(open := p.open[..n]);
      assert p.open == q.open + [p.open[n]];
      CutUndoesStream(q);
      assert Take(q, p.open[n]) == p;
      StreamOfTake(q, p.open[n]);
      assert s[..|s| - 1] == Stream(q);
    } else if p.closed != [] {
      var n := |p.closed| - 1;
      var q := Parts(p.closed[..n], p.closed[n]);
      assert q.closed + [q.open] == p.closed;
      CutUndoesStream(q);
      StreamOfTake(q, DELIMITER);
      assert s[..|s| - 1] == Stream(q);
    } else {
      EmptyStream();
    }
  }

  lemma CutNext(stream: seq<Byte>, b: Byte)
    ensures Cut(stream + [b]) == Take(Cut(stream), b)
  {
    assert (stream + [b])[..|stream + [b]| - 1] == stream;
  }

  lemma {:induction false} CutGrows(consumed: seq<Byte>, more: seq<Byte>)
    requires DELIMITER !in more
    ensures Cut(consumed + more) == Cut(consumed).(open := Cut(consumed).open + more)
    decreases |more|
  {
    hide Cut;
    if more == [] {
      assert consumed + more == consumed;
      assert Cut(consumed).open + more == Cut(consumed).open;
    } else {
      var init, b := more[..|more| - 1], more[|more| - 1];
      CutGrows(consumed, init);
      CutNext(consumed + init, b);
      assert consumed + more == consumed + init + [b];
      assert Cut(consumed).open + more == Cut(consumed).open + init + [b];
    }
  }

  lemma CutCloses(consumed: seq<Byte>, more: seq<Byte>)
    requires DELIMITER !in more
    ensures Cut(consumed + more + [DELIMITER]) == Parts(Cut(consumed).closed + [Cut(consumed).open + more], [])
  {
    hide Cut;
    CutGrows(consumed, more);
    CutNext(consumed + more, DELIMITER);
  }

  /** The first delimiter after the marker closes a piece. */
  lemma MessageEnds(before: seq<Byte>, bytes: seq<Byte>, marker: nat, i: nat)
    requires marker <= i < |bytes| && DELIMITER !in bytes[marker..i] && bytes[i] == DELIMITER
    ensures var p := Cut(before + bytes[..marker]);
            Cut(before + bytes[..i + 1]) == Parts(p.closed + [p.open + bytes[marker..i]], [])
  {
    hide Cut;
    CutCloses(before + bytes[..marker], bytes[marker..i]);
    assert before + bytes[..marker] + bytes[marker..i] + [DELIMITER] == before + bytes[..i + 1];
  }

  /** Without another delimiter the rest of the bytes stays open. */
  lemma RestStaysOpen(before: seq<Byte>, bytes: seq<Byte>, marker: nat)
    requires marker <= |bytes| && DELIMITER !in bytes[marker..]
    ensures var p := Cut(before + bytes[..marker]); Cut(before + bytes) == p.(open := p.open + bytes[marker..])
  {
    hide Cut;
    CutGrows(before + bytes[..marker], bytes[marker..]);
    assert before + bytes[..marker] + bytes[marker..] == before + bytes;
  }

  class ClientSocketHandler {
    const buf: array<Byte>
    var soFar: seq<Byte>
    // the messages given to handle
    var handled: seq<seq<Byte>>

    ghost predicate Consumed(stream: seq<Byte>)
      reads this
    {
      Parts(handled, soFar) == Cut(stream)
    }

    constructor ()
      ensures buf.Length == BUFFER_SIZE && fresh(buf) && Consumed([])
    {
      buf := new Byte[BUFFER_SIZE];
      soFar, handled := [], [];
    }

    /** The stream's read: some bytes at the front of the buffer, or the end of the stream. */
    method Fill(arrived: Option<seq<Byte>>) returns (amt: int)
      requires arrived.Some? ==> |arrived.value| <= buf.Length
      modifies buf
      ensures amt == if arrived.Some? then |arrived.value| else -1
      ensures arrived.Some? ==> buf[..amt] == arrived.value
    {
      if arrived.None? { return -1; }
      amt := 0;
      while amt < |arrived.value|
        invariant 0 <= amt <= |arrived.value|
        invariant buf[..amt] == arrived.value[..amt]
      {
        buf[amt] := arrived.value[amt];
        amt := amt + 1;
      }
    }

    /** One pass of the reading loop. */
    method ReadOnce(arrived: Option<seq<Byte>>, ghost before: seq<Byte>)
      requires arrived.Some? ==> |arrived.value| <= buf.Length
      requires Consumed(before)
      modifies this, buf
      ensures Consumed(before + if arrived.Some? then arrived.value else [])
    {
      hide Cut;
      var amt := Fill(arrived);
      var marker := 0;
      ghost var bytes := if arrived.Some? then arrived.value else [];
      assert before + bytes[..0] == before;
      for i := 0 to if amt < 0 then 0 else amt
        invariant 0 <= marker <= i <= |bytes| && buf[..|bytes|] == bytes
        invariant DELIMITER !in bytes[marker..i]
        invariant Consumed(before + bytes[..marker])
      {
        assert buf[i] == bytes[i];
        assert bytes[marker..i + 1] == bytes[marker..i] + [bytes[i]];
        if buf[i] == DELIMITER {
          MessageEnds(before, bytes, marker, i);
          SliceOfSlice(buf[..], 0, bytes, marker, i);
          soFar := soFar + buf[marker..i];
          handled := handled + [soFar];
          soFar := [];
          marker := i + 1;
        }
      }
      RestStaysOpen(before, bytes, marker);
      if marker < amt {
        SliceOfSlice(buf[..], 0, bytes, marker, amt);
        soFar := soFar + buf[marker..amt];
      }
    }

    /** However the bytes arrive, what was handled is what a delimiter closed, in order. */
    method Run(chunks: seq<seq<Byte>>)
      requires forall c :: c in chunks ==> |c| <= buf.Length
      requires Consumed([])
      modifies this, buf
      ensures Consumed(Concat(chunks))
    {
      var k := 0;
      while k < |chunks|
        invariant 0 <= k <= |chunks| && Consumed(Concat(chunks[..k]))
      {
        ReadOnce(Some(chunks[k]), Concat(chunks[..k]));
        assert chunks[..k + 1][..k] == chunks[..k];
        k := k + 1;
      }
      assert chunks[..k] == chunks;
    }
  }

  // ---- the sending side

  /** println: the message, the delimiter and the platform's line terminator. */
  function SocketWrite(msg: seq<Byte>, terminator: seq<Byte>): seq<Byte> {
    msg + [DELIMITER] + terminator
  }

  function Sent(msgs: seq<seq<Byte>>, terminator: seq<Byte>): seq<Byte> {
    if msgs == [] then [] else Sent(msgs[..|msgs| - 1], terminator) + SocketWrite(msgs[|msgs| - 1], terminator)
  }

  /** The messages as they arrive: all but the first behind a line terminator. */
  function Arriving(msgs: seq<seq<Byte>>, terminator: seq<Byte>): Parts {
    Parts(seq(|msgs|, k requires 0 <= k < |msgs| => (if k == 0 then [] else terminator) + msgs[k]),
           if msgs == [] then [] else terminator)
  }

  lemma {:induction false} MessagesArrive(msgs: seq<seq<Byte>>, terminator: seq<Byte>)
    requires DELIMITER !in terminator && forall m :: m in msgs ==> DELIMITER !in m
    ensures Cut(Sent(msgs, terminator)) == Arriving(msgs, terminator)
    decreases |msgs|
  {
    hide Cut;
    if msgs == [] {
      NothingCut();
    } else {
      var init, last := msgs[..|msgs| - 1], msgs[|msgs| - 1];
      MessagesArrive(init, terminator);
      OneMoreArrives(msgs, terminator);
    }
  }

  lemma NothingCut()
    ensures Cut([]) == Parts([], [])
  {
  }

  lemma OneMoreArrives(msgs: seq<seq<Byte>>, terminator: seq<Byte>)
    requires msgs != [] && DELIMITER !in terminator && DELIMITER !in msgs[|msgs| - 1]
    requires Cut(Sent(msgs[..|msgs| - 1], terminator)) == Arriving(msgs[..|msgs| - 1], terminator)
    ensures Cut(Sent(msgs, terminator)) == Arriving(msgs, terminator)
  {
    hide Cut;
    var init, last := msgs[..|msgs| - 1], msgs[|msgs| - 1];
    var sent, p := Sent(init, terminator), Arriving(init, terminator);
    CutCloses(sent, last);
    CutGrows(sent + last + [DELIMITER], terminator);
    assert sent + last + [DELIMITER] + terminator == Sent(msgs, terminator);
    assert Arriving(msgs, terminator).closed == p.closed + [p.open + last];
    assert [] + terminator == terminator;
  }

  /** Exactly the messages without a zero byte arrive as they were sent. */
  lemma SentIsReceived(msgs: seq<seq<Byte>>, terminator: seq<Byte>)
    requires terminator == [10] || terminator == [13, 10]
    ensures Cut(Sent(msgs, terminator)) == Arriving(msgs, terminator) <==> forall m :: m in msgs ==> DELIMITER !in m
  {
    if Cut(Sent(msgs, terminator)) == Arriving(msgs, terminator) {
      CutLosesNothing(Sent(msgs, terminator));
      forall m | m in msgs ensures DELIMITER !in m {
        var k :| 0 <= k < |msgs| && msgs[k] == m;
        assert Arriving(msgs, terminator).closed[k] in Cut(Sent(msgs, terminator)).closed;
      }
    }
    if forall m :: m in msgs ==> DELIMITER !in m { MessagesArrive(msgs, terminator); }
  }

  /** From one side's writes, through any reads, to the other side's messages. */
  method SendAndReceive(msgs: seq<seq<Byte>>, terminator: seq<Byte>, chunks: seq<seq<Byte>>)
    returns (handled: seq<seq<Byte>>, soFar: seq<Byte>)
    requires terminator == [10] || terminator == [13, 10]
    requires Concat(chunks) == Sent(msgs, terminator) && forall c :: c in chunks ==> |c| <= BUFFER_SIZE
    ensures Parts(handled, soFar) == Arriving(msgs, terminator) <==> forall m :: m in msgs ==> DELIMITER !in m
  {
    var handler := new ClientSocketHandler();
    handler.Run(chunks);
    SentIsReceived(msgs, terminator);
    return handler.handled, handler.soFar;
  }
}
