/** The partial send and read loops (common/include/socket/tcpSocket.hpp). */
module TcpSocket {
  import opened Bytes

  const DEFAULT_SOCKET_CHUNK_SIZE: nat := 4096

  /**
   * The operating system as an oracle: for the n-th call on the socket, whether
   * `isSocketAlive` answers true, and the result of `::send` or `read` before it is
   * capped by the size of the request and by the bytes at hand.
   */
  datatype Kernel = Kernel(alive: nat -> bool, result: nat -> int)

  /** Every call succeeds and moves at least one byte, in whatever fragments it likes. */
  ghost predicate Willing(k: Kernel) {
    forall t: nat :: k.alive(t) && k.result(t) > 0
  }

  /** How many of `size` bytes the send loop hands over, from the t-th call on. */
  function SendMoved(k: Kernel, t: nat, size: nat, chunk: nat): (moved: nat)
    ensures moved <= size
    decreases size
  {
    if size == 0 || !k.alive(t) then 0
    else
      var l := Min(k.result(t), Min(chunk, size));
      if l <= 0 then 0 else l + SendMoved(k, t + 1, size - l, chunk)
  }

  /** How many of `size` bytes the read loop obtains when the peer sends `available` in all. */
  function ReadMoved(k: Kernel, t: nat, size: nat, chunk: nat, available: nat): (moved: nat)
    ensures moved <= size && moved <= available
    decreases size
  {
    if size == 0 then 0
    else
      var l := Min(k.result(t), Min(chunk, Min(size, available)));
      if l <= 0 then 0 else l + ReadMoved(k, t + 1, size - l, chunk, available - l)
  }

  lemma SendStep(k: Kernel, t: nat, size: nat, chunk: nat)
    ensures var l := Min(k.result(t), Min(chunk, size));
      SendMoved(k, t, size, chunk)
        == if size == 0 || !k.alive(t) || l <= 0 then 0 else l + SendMoved(k, t + 1, size - l, chunk)
  {}

  lemma ReadStep(k: Kernel, t: nat, size: nat, chunk: nat, available: nat)
    ensures var l := Min(k.result(t), Min(chunk, Min(size, available)));
      ReadMoved(k, t, size, chunk, available)
        == if size == 0 || l <= 0 then 0 else l + ReadMoved(k, t + 1, size - l, chunk, available - l)
  {}

  lemma ReadFits(k: Kernel, t: nat, size: nat, chunk: nat, available: nat)
    ensures var l := Min(k.result(t), Min(chunk, Min(size, available)));
      l <= size && l <= available
  {}

  /** Overwriting the next `l` places of a half-filled buffer with the next `l` bytes of the stream. */
  lemma Splice(stream: Bytes, before: Bytes, i: nat, l: nat, buffer: Bytes, after: Bytes)
    requires i + l <= |stream| && i + l <= |before|
    requires buffer == stream[..i] + before[i..]
    requires after == buffer[..i] + stream[i..][..l] + buffer[i + l..]
    ensures after == stream[..i + l] + before[i + l..] && stream[i..][l..] == stream[i + l..]
  {
    assert buffer[..i] == stream[..i];
    assert stream[..i] + stream[i..][..l] == stream[..i + l];
    assert buffer[i + l..] == before[i + l..];
  }

  lemma {:induction false} WillingSendsAll(k: Kernel, t: nat, size: nat, chunk: nat)
    requires Willing(k) && chunk > 0
    ensures SendMoved(k, t, size, chunk) == size
    decreases size
  {
    if size > 0 {
      assert k.alive(t) && k.result(t) > 0;
      WillingSendsAll(k, t + 1, size - Min(k.result(t), Min(chunk, size)), chunk);
    }
  }

  lemma {:induction false} WillingReadsAll(k: Kernel, t: nat, size: nat, chunk: nat, available: nat)
    requires Willing(k) && chunk > 0
    ensures ReadMoved(k, t, size, chunk, available) == Min(size, available)
    decreases size
  {
    if size > 0 && available > 0 {
      assert k.alive(t) && k.result(t) > 0;
      var l := Min(k.result(t), Min(chunk, Min(size, available)));
      WillingReadsAll(k, t + 1, size - l, chunk, available - l);
    }
  }

  // ---- how much moves, call by call ----

  /** The next `n` answers of the kernel from the t-th call on are good. */
  ghost predicate GoodSends(k: Kernel, t: nat, n: nat) {
    forall u: nat | t <= u < t + n :: k.alive(u) && k.result(u) > 0
  }

  ghost predicate GoodReads(k: Kernel, t: nat, n: nat) {
    forall u: nat | t <= u < t + n :: k.result(u) > 0
  }

  /** What `n` calls of at most `chunk` bytes may move. */
  function Offered(k: Kernel, t: nat, n: nat, chunk: nat): int
    decreases n
  {
    if n == 0 then 0 else Min(k.result(t), chunk) + Offered(k, t + 1, n - 1, chunk)
  }

  lemma {:induction false} OfferedIsPositive(k: Kernel, t: nat, n: nat, chunk: nat)
    requires GoodReads(k, t, n) && chunk > 0
    ensures Offered(k, t, n, chunk) >= n
    decreases n
  {
    if n > 0 {
      OfferedIsPositive(k, t + 1, n - 1, chunk);
    }
  }

  /**
   * A send moves what the good calls offer, up to the size of the buffer, and stops at the first call that
   * finds the socket dead or moves nothing.
   */
  lemma {:induction false} SendMovesWhatIsOffered(k: Kernel, t: nat, size: nat, chunk: nat, n: nat)
    requires chunk > 0 && GoodSends(k, t, n)
    requires !k.alive(t + n) || k.result(t + n) <= 0 || Offered(k, t, n, chunk) >= size
    ensures SendMoved(k, t, size, chunk) == Min(size, Offered(k, t, n, chunk))
    decreases n
  {
    if n > 0 {
      OfferedIsPositive(k, t + 1, n - 1, chunk);
      if size > 0 {
        var l := Min(k.result(t), Min(chunk, size));
        SendMovesWhatIsOffered(k, t + 1, size - l, chunk, n - 1);
      }
    }
  }

  /** A read moves what the good calls offer, up to the size of the buffer and to what the peer sends. */
  lemma {:induction false} ReadMovesWhatIsOffered(k: Kernel, t: nat, size: nat, chunk: nat, available: nat, n: nat)
    requires chunk > 0 && GoodReads(k, t, n)
    requires k.result(t + n) <= 0 || Offered(k, t, n, chunk) >= Min(size, available)
    ensures ReadMoved(k, t, size, chunk, available) == Min(Min(size, available), Offered(k, t, n, chunk))
    decreases n
  {
    hide ReadMoved;
    if n > 0 {
      OfferedIsPositive(k, t + 1, n - 1, chunk);
      ReadStep(k, t, size, chunk, available);
      if size > 0 && available > 0 {
        var l := Min(k.result(t), Min(chunk, Min(size, available)));
        ReadMovesWhatIsOffered(k, t + 1, size - l, chunk, available - l, n - 1);
      }
    } else {
      ReadStep(k, t, size, chunk, available);
    }
  }

  class TCPSocket {
    const kernel: Kernel
    var calls: nat          // calls made so far on the kernel
    var open: bool          // false once closeConnection has closed the descriptor
    var closes: nat         // how often closeConnection ran
    var outgoing: Bytes     // every byte handed to the kernel
    var incoming: Bytes     // the bytes of the peer not yet read

    constructor (kernel: Kernel, incoming: Bytes)
      ensures this.kernel == kernel && this.incoming == incoming
      ensures open && closes == 0 && outgoing == [] && (Willing(kernel) ==> Reliable())
    {
      this.kernel := kernel;
      this.incoming := incoming;
      calls, open, closes, outgoing := 0, true, 0, [];
    }

    /** The connection is fragmented but otherwise reliable. */
    ghost predicate Reliable()
      reads this
    {
      Willing(kernel) && (open || incoming == [])
    }

    method CloseConnection()
      modifies this`open, this`closes
      ensures !open && closes == old(closes) + 1
    {
      open := false;
      closes := closes + 1;
    }

    /** All of `buffer` in order, or a prefix of it followed by one close. */
    method Send(buffer: Bytes, chunkSize: nat)
      modifies this
      ensures incoming == old(incoming)
      ensures var moved := if old(open) then SendMoved(kernel, old(calls), |buffer|, chunkSize) else 0;
        && outgoing == old(outgoing) + buffer[..moved]
        && (moved == |buffer| ==> open == old(open) && closes == old(closes))
        && (moved < |buffer| ==> !open && closes == old(closes) + 1)
      ensures old(Reliable()) && old(open) && chunkSize > 0 ==>
        Reliable() && open && outgoing == old(outgoing) + buffer && closes == old(closes)
    {
      hide SendMoved;
      var i := 0;
      ghost var goal := if open then SendMoved(kernel, calls, |buffer|, chunkSize) else 0;
      while i < |buffer|
        invariant i <= |buffer|
        invariant incoming == old(incoming)
        invariant open == old(open) && closes == old(closes)
        invariant goal == i + (if open then SendMoved(kernel, calls, |buffer| - i, chunkSize) else 0)
        invariant outgoing == old(outgoing) + buffer[..i]
      {
        SendStep(kernel, calls, |buffer| - i, chunkSize);
        var alive := open && kernel.alive(calls);
        if !alive {
          CloseConnection();
          break;
        }
        var l := Min(kernel.result(calls), Min(chunkSize, |buffer| - i));
        calls := calls + 1;
        if l <= 0 {
          CloseConnection();
          break;
        }
        assert buffer[..i] + buffer[i..i + l] == buffer[..i + l];
        outgoing := outgoing + buffer[i..i + l];
        i := i + l;
      }
      SendStep(kernel, calls, 0, chunkSize);
      if old(Reliable()) && chunkSize > 0 && old(open) {
        WillingSendsAll(kernel, old(calls), |buffer|, chunkSize);
        assert buffer[..|buffer|] == buffer;
      }
    }

    /** One call of `read`, for the rest of the buffer: how many bytes it got, or nothing more to get. */
    method ReadOnce(buffer: array<byte>, i: nat, size: nat, chunkSize: nat) returns (l: int)
      requires i < size <= buffer.Length
      modifies this`calls, this`incoming, buffer
      ensures calls == old(calls) + 1
      ensures l == if open then Min(kernel.result(old(calls)), Min(chunkSize, Min(size - i, |old(incoming)|))) else -1
      ensures l <= 0 ==> incoming == old(incoming) && buffer[..] == old(buffer[..])
      ensures l > 0 ==>
        && incoming == old(incoming)[l..]
        && buffer[..] == old(buffer[..])[..i] + old(incoming)[..l] + old(buffer[..])[i + l..]
    {
      l := if open then Min(kernel.result(calls), Min(chunkSize, Min(size - i, |incoming|))) else -1;
      calls := calls + 1;
      if l > 0 {
        Fill(buffer, i, incoming[..l]);
        incoming := incoming[l..];
      }
    }

    /** Fills the first `size` places of `buffer`, or a prefix of them followed by one close. */
    method Receive(buffer: array<byte>, size: nat, chunkSize: nat)
      requires size <= buffer.Length
      modifies this, buffer
      ensures outgoing == old(outgoing)
      ensures var moved :=
          if old(open) then ReadMoved(kernel, old(calls), size, chunkSize, |old(incoming)|) else 0;
        && buffer[..] == old(incoming)[..moved] + old(buffer[..])[moved..]
        && incoming == old(incoming)[moved..]
        && (moved == size ==> open == old(open) && closes == old(closes))
        && (moved < size ==> !open && closes == old(closes) + 1)
    {
      hide ReadMoved, Min;
      var i := 0;
      ghost var goal := if open then ReadMoved(kernel, calls, size, chunkSize, |incoming|) else 0;
      ghost var stream, before := incoming, buffer[..];
      assert buffer[..] == stream[..0] + before[0..];
      while i < size
        invariant i <= size && i <= |stream|
        invariant outgoing == old(outgoing)
        invariant open == old(open) && closes == old(closes)
        invariant incoming == stream[i..]
        invariant goal == i + (if open then ReadMoved(kernel, calls, size - i, chunkSize, |stream| - i) else 0)
        invariant buffer[..] == stream[..i] + before[i..]
      {
        ReadStep(kernel, calls, size - i, chunkSize, |stream| - i);
        ReadFits(kernel, calls, size - i, chunkSize, |stream| - i);
        ghost var soFar := buffer[..];
        var l := ReadOnce(buffer, i, size, chunkSize);
        if l <= 0 {
          CloseConnection();
          break;
        }
        Splice(stream, before, i, l, soFar, buffer[..]);
        i := i + l;
      }
      ReadStep(kernel, calls, 0, chunkSize, |stream| - i);
    }

    /** A zeroed vector of `size` bytes, filled from the socket. */
    method ReceiveVector(size: nat) returns (data: Bytes)
      modifies this
      ensures outgoing == old(outgoing) && |data| == size
      ensures old(Reliable()) ==>
        var t := Take(old(incoming), size);
        && Reliable() && data == t.data && incoming == t.rest
        && (!t.closed ==> open == old(open) && closes == old(closes))
        && (t.closed ==> !open && closes == old(closes) + 1)
    {
      var buffer := new byte[size](_ => 0);
      Receive(buffer, size, DEFAULT_SOCKET_CHUNK_SIZE);
      data := buffer[..];
      if old(Reliable()) {
        WillingReadsAll(kernel, old(calls), size, DEFAULT_SOCKET_CHUNK_SIZE, |old(incoming)|);
        assert size <= |old(incoming)| ==> data == old(incoming)[..size];
        assert size > |old(incoming)| ==> data == old(incoming) + Zeros(size - |old(incoming)|);
      }
    }
  }

  /** The kernel copies `piece` to `buffer[at..]`. */
  method Fill(buffer: array<byte>, at: nat, piece: Bytes)
    requires at + |piece| <= buffer.Length
    modifies buffer
    ensures buffer[..] == old(buffer[..])[..at] + piece + old(buffer[..])[at + |piece|..]
  {
    forall j | 0 <= j < |piece| {
      buffer[at + j] := piece[j];
    }
  }
}
