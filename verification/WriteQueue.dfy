/** The write buffer of a socket: what is accepted, what the system takes, and what remains. */
module WriteQueue {
  import opened Basics
  import Buffers

  /** `sent` was handed to the system, `buffered` waits, `accepted` is all that was given to send. */
  datatype Queue = Queue(sent: seq<int>, buffered: seq<int>, accepted: seq<int>)

  const EMPTY := Queue([], [], [])

  // iosocket_send
  function Accept(q: Queue, data: seq<int>): Queue {
    Queue(q.sent, q.buffered + data, q.accepted + data)
  }

  /** iosocket_try_write when the system took `k` bytes. As written, line 869 only shortens the
      buffer; `repaired`, the remainder is moved to the front, as the read buffer does. */
  function Take(q: Queue, k: nat, repaired: bool): Queue
    requires k <= |q.buffered|
  {
    Queue(q.sent + q.buffered[..k],
          if repaired then q.buffered[k..] else q.buffered[..|q.buffered| - k],
          q.accepted)
  }

  /** What happens to a buffer, data aside: `n` more bytes are accepted, or the system is offered
      the buffer and takes up to `k` bytes of it. */
  datatype Move = Accepts(n: nat) | Takes(k: nat)

  function Chunk(stream: nat -> int, start: nat, n: nat): seq<int> {
    seq(n, i requires 0 <= i < n => stream(start + i))
  }

  /** The buffer after a schedule whose accepted bytes are `stream(0)`, `stream(1)`, ... */
  function Run(moves: seq<Move>, stream: nat -> int, repaired: bool): Queue {
    if moves == [] then EMPTY
    else
      var q, m := Run(moves[..|moves| - 1], stream, repaired), moves[|moves| - 1];
      match m
      case Accepts(n) => Accept(q, Chunk(stream, |q.accepted|, n))
      case Takes(k) => Take(q, Min(k, |q.buffered|), repaired)
  }

  /** The bytes a schedule leaves in the buffer; the data play no part. */
  function Level(moves: seq<Move>): nat {
    if moves == [] then 0
    else
      var n, m := Level(moves[..|moves| - 1]), moves[|moves| - 1];
      match m
      case Accepts(k) => n + k
      case Takes(k) => n - Min(k, n)
  }

  /** Every write takes all of the buffer or none of it. */
  predicate AllOrNothing(moves: seq<Move>) {
    moves != [] ==>
      var before, m := moves[..|moves| - 1], moves[|moves| - 1];
      AllOrNothing(before) && (m.Takes? ==> m.k == 0 || m.k >= Level(before))
  }

  predicate InOrder(q: Queue) {
    q.sent + q.buffered == q.accepted
  }

  /** Conservation of the number of bytes, as written and repaired. */
  lemma {:induction false} Conserves(moves: seq<Move>, stream: nat -> int, repaired: bool)
    ensures var q := Run(moves, stream, repaired);
      |q.sent| + |q.buffered| == |q.accepted| && |q.buffered| == Level(moves)
  {
    if moves != [] {
      Conserves(moves[..|moves| - 1], stream, repaired);
    }
  }

  /** Repaired, what the system got followed by what waits is what was accepted, in order. */
  lemma {:induction false} RepairedInOrder(moves: seq<Move>, stream: nat -> int)
    ensures InOrder(Run(moves, stream, true))
  {
    if moves != [] {
      RepairedInOrder(moves[..|moves| - 1], stream);
      var q, m := Run(moves[..|moves| - 1], stream, true), moves[|moves| - 1];
      if m.Takes? {
        var k := Min(m.k, |q.buffered|);
        assert q.sent + q.buffered[..k] + q.buffered[k..] == q.sent + q.buffered;
      } else {
        var c := Chunk(stream, |q.accepted|, m.n);
        assert q.sent + (q.buffered + c) == q.sent + q.buffered + c;
      }
    }
  }

  lemma {:induction false} AllOrNothingInOrder(moves: seq<Move>, stream: nat -> int)
    requires AllOrNothing(moves)
    ensures Run(moves, stream, false) == Run(moves, stream, true)
  {
    if moves != [] {
      AllOrNothingInOrder(moves[..|moves| - 1], stream);
      Conserves(moves[..|moves| - 1], stream, false);
    }
  }

  // The byte after those sent, or one of those sent, is wrong; nothing can mend that.
  ghost predicate Broken(q: Queue) {
    exists p {:trigger q.accepted[p]} ::
      && 0 <= p <= |q.sent| && p < |q.sent| + |q.buffered| && p < |q.accepted|
      && (q.sent + q.buffered)[p] != q.accepted[p]
  }

  lemma BrokenStays(q: Queue, m: Move, data: seq<int>)
    requires Broken(q)
    ensures m.Accepts? ==> Broken(Accept(q, data))
    ensures m.Takes? ==> Broken(Take(q, Min(m.k, |q.buffered|), false))
  {
    var p :| 0 <= p <= |q.sent| && p < |q.sent| + |q.buffered| && p < |q.accepted|
      && (q.sent + q.buffered)[p] != q.accepted[p];
    if m.Accepts? {
      assert Accept(q, data).accepted[p] == q.accepted[p];
    } else {
      var r := Take(q, Min(m.k, |q.buffered|), false);
      assert r.accepted[p] == q.accepted[p] && (r.sent + r.buffered)[p] == (q.sent + q.buffered)[p];
    }
  }

  ghost function Positions(): (stream: nat -> int)
    ensures forall i :: stream(i) == i
  {
    (i: nat) => i
  }

  // Bytes that carry their own position show a partial write.
  lemma {:induction false} PartialWriteBreaks(moves: seq<Move>, stream: nat -> int)
    requires !AllOrNothing(moves) && forall i :: stream(i) == i
    ensures Broken(Run(moves, stream, false))
  {
    var before, m := moves[..|moves| - 1], moves[|moves| - 1];
    var q := Run(before, stream, false);
    if !AllOrNothing(before) {
      PartialWriteBreaks(before, stream);
      BrokenStays(q, m, if m.Accepts? then Chunk(stream, |q.accepted|, m.n) else []);
    } else {
      AllOrNothingInOrder(before, stream);
      RepairedInOrder(before, stream);
      Conserves(before, stream, false);
      AcceptedIsStream(before, stream);
      var r, p := Take(q, m.k, false), |q.sent| + m.k;
      assert (q.sent + q.buffered)[|q.sent|] == q.accepted[|q.sent|];
      assert (r.sent + r.buffered)[p] == q.buffered[0];
      assert r.accepted[p] == p;
    }
  }

  lemma {:induction false} AcceptedIsStream(moves: seq<Move>, stream: nat -> int)
    ensures var a := Run(moves, stream, false).accepted; forall i :: 0 <= i < |a| ==> a[i] == stream(i)
  {
    if moves != [] {
      AcceptedIsStream(moves[..|moves| - 1], stream);
    }
  }

  ghost predicate KeepsOrder(moves: seq<Move>, stream: nat -> int) {
    InOrder(Run(moves, stream, false))
  }

  /** As written a schedule keeps every stream in order if and only if all its writes take all or
      nothing. */
  lemma InOrderIffAllOrNothing(moves: seq<Move>)
    ensures (forall stream: nat -> int :: KeepsOrder(moves, stream)) <==> AllOrNothing(moves)
  {
    if AllOrNothing(moves) {
      forall stream: nat -> int
        ensures KeepsOrder(moves, stream)
      {
        AllOrNothingInOrder(moves, stream);
        RepairedInOrder(moves, stream);
      }
    } else {
      var stream := Positions();
      PartialWriteBreaks(moves, stream);
      assert !KeepsOrder(moves, stream);
    }
  }

  /** struct IOSocketBuffer as the write buffer. */
  class WriteBuffer {
    var buffer: array?<int>
    var bufpos: nat
    var buflen: nat
    ghost var sent: seq<int>
    ghost var accepted: seq<int>

    ghost predicate Valid()
      reads this
    {
      Buffers.Fits(buffer, bufpos, buflen)
    }

    ghost function View(): Queue
      requires Valid()
      reads this, buffer
    {
      Queue(sent, Buffers.Held(buffer, bufpos), accepted)
    }

    constructor ()
      ensures Valid() && View() == EMPTY
    {
      buffer, bufpos, buflen, sent, accepted := null, 0, 0, [], [];
    }

    /** iosocket_send */
    method Send(data: seq<int>)
      requires Valid()
      modifies this, buffer
      ensures Valid() && View() == Accept(old(View()), data)
    {
      if buflen < bufpos + |data| {
        buffer, buflen := Buffers.Increase(buffer, bufpos, buflen, bufpos + |data|);
      }
      ghost var q := View();
      if data != [] {
        forall i | 0 <= i < |data| {
          buffer[bufpos + i] := data[i];
        }
        assert buffer[..bufpos + |data|] == q.buffered + data;
      } else {
        assert q.buffered + data == q.buffered;
      }
      bufpos := bufpos + |data|;
      accepted := accepted + data;
    }

    /** iosocket_try_write, the system taking `res` bytes. */
    method TryWrite(res: nat, repaired: bool)
      requires Valid() && res <= bufpos
      modifies this`bufpos, this`sent, buffer
      ensures Valid() && View() == Take(old(View()), res, repaired)
    {
      if bufpos == 0 {
        return;
      }
      ghost var b := buffer[..bufpos];
      sent := sent + buffer[..res];
      bufpos := bufpos - res;
      assert b[..bufpos] == buffer[..bufpos] && b[..res] == buffer[..res];
      // Not in the source: moving what was not written to the front.
      if repaired {
        forall i | 0 <= i < bufpos {
          buffer[i] := buffer[res + i];
        }
        assert buffer[..bufpos] == b[res..];
      }
    }
  }
}
