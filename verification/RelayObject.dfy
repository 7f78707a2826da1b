/** `Relay::step` and `reserve_proxy_bytes` as they are written: a fixed buffer, counters updated in place, a
    bounded loop and a retry loop (serve_egress.rs and serve.rs). Whatever they do is a run of `Egress.NextHalf`. */
module RelayObject {
  import opened Utf8Syntax
  import opened Egress

  datatype Poll = Pending | Failed | Ready(count: nat)

  /** What a suspended relay waits for: a read or a write that registered for readiness, or its own wake. */
  datatype Cause = Reading | Writing | Yielded

  datatype Progress = Suspended(cause: Cause) | Broken | Finished

  method Fill(buffer: array<Byte>, bytes: seq<Byte>)
    requires |bytes| <= buffer.Length
    modifies buffer
    ensures buffer[..|bytes|] == bytes
  {
    for i := 0 to |bytes|
      invariant buffer[..i] == bytes[..i]
    {
      buffer[i] := bytes[i];
    }
  }

  /** The peer's side of a connection: what it will send, how much of it has been read, and how many reads have
      registered for readiness or failed. */
  class Source {
    const incoming: seq<Byte>
    var position: nat
    var parkings: nat
    var failures: nat

    constructor (incoming: seq<Byte>)
      ensures this.incoming == incoming && position == 0
    {
      this.incoming := incoming;
      position, parkings, failures := 0, 0, 0;
    }

    /** Reads some bytes, none at the end of the stream, or nothing yet. */
    method PollRead(buffer: array<Byte>) returns (poll: Poll)
      requires position <= |incoming| && 0 < buffer.Length
      modifies this, buffer
      ensures old(position) <= position <= |incoming|
      ensures parkings == old(parkings) + if poll.Pending? then 1 else 0
      ensures failures == old(failures) + if poll.Failed? then 1 else 0
      ensures poll.Ready? ==> poll.count <= buffer.Length && position == old(position) + poll.count
      ensures poll.Ready? && poll.count == 0 ==> position == |incoming|
      ensures !poll.Ready? ==> position == old(position)
      ensures position == old(position) ==> buffer[..] == old(buffer[..])
      ensures poll.Ready? ==> buffer[..poll.count] == incoming[old(position)..position]
    {
      if * {
        parkings := parkings + 1;
        return Pending;
      }
      if * {
        failures := failures + 1;
        return Failed;
      }
      if position == |incoming| {
        return Poll.Ready(0);
      }
      var count: nat :| 0 < count <= buffer.Length && count <= |incoming| - position;
      Fill(buffer, incoming[position..position + count]);
      position := position + count;
      return Poll.Ready(count);
    }
  }

  /** `failures` counts writes that failed or took nothing. */
  class Sink {
    var received: seq<Byte>
    var shutdowns: nat
    var parkings: nat
    var failures: nat

    constructor ()
      ensures received == [] && shutdowns == 0
    {
      received, shutdowns, parkings, failures := [], 0, 0, 0;
    }

    method PollWrite(bytes: seq<Byte>) returns (poll: Poll)
      modifies this`received, this`parkings, this`failures
      ensures failures == old(failures) + if poll.Failed? || poll == Poll.Ready(0) then 1 else 0
      ensures parkings == old(parkings) + if poll.Pending? then 1 else 0
      ensures poll.Ready? ==> poll.count <= |bytes|
      ensures received == if poll.Ready? then old(received) + bytes[..poll.count] else old(received)
    {
      if * {
        parkings := parkings + 1;
        return Pending;
      }
      var count: nat :| count <= |bytes|;
      if count == 0 {
        failures := failures + 1;
        if * {
          return Failed;
        }
      }
      received := received + bytes[..count];
      return Poll.Ready(count);
    }

    method CloseWrite()
      modifies this`shutdowns
      ensures shutdowns == old(shutdowns) + 1
    {
      shutdowns := shutdowns + 1;
    }
  }

  lemma SliceOfChunk(buffer: seq<Byte>, chunk: seq<Byte>, from: nat, to: nat, n: nat)
    requires from + n <= to <= |chunk| <= |buffer|
    ensures buffer[..|chunk|] == chunk ==> buffer[from..to][..n] == chunk[from..from + n]
  {
    assert buffer[from..to][..n] == buffer[..|chunk|][from..from + n];
  }

  // One attempt at the counter, by a relay `h` that has read and asks for its bytes.

  function Loaded(h: Half, current: nat): Half { h.(place := Exchanging(current)) }

  lemma TryOnce(t: seq<Hop>, h: Half, c: nat, current: nat)
    requires h.place.Loading? && IsTrace(t, h, c, h, current)
    ensures IsTrace(Extended(t, h, current, Load, Loaded(h, current), current), h, c, Loaded(h, current), current)
  {
    TraceNext(t, h, c, h, current, Load, Loaded(h, current), current);
  }

  lemma TryFails(t: seq<Hop>, h: Half, c: nat, current: nat, later: nat)
    requires h.place.Loading? && IsTrace(t, h, c, Loaded(h, current), current)
    requires current < MAX_PROXY_BYTES && current <= later
    ensures IsTrace(Extended(t, Loaded(h, current), later, ExchangeFails, h, later), h, c, h, later)
  {
    TraceLater(t, h, c, Loaded(h, current), current, later);
    TraceNext(t, h, c, Loaded(h, current), later, ExchangeFails, h, later);
  }

  lemma TrySucceeds(t: seq<Hop>, h: Half, c: nat, current: nat, allowed: nat)
    requires h.place.Loading? && IsTrace(t, h, c, Loaded(h, current), current) && current < MAX_PROXY_BYTES
    requires allowed == Min(|h.chunk|, MAX_PROXY_BYTES - current)
    ensures IsTrace(Extended(t, Loaded(h, current), current, Exchange, Reserved(h, allowed), current + allowed),
                    h, c, Reserved(h, allowed), current + allowed)
  {
    TraceNext(t, h, c, Loaded(h, current), current, Exchange, Reserved(h, allowed), current + allowed);
  }

  lemma TryRefused(t: seq<Hop>, h: Half, c: nat, current: nat)
    requires h.place.Loading? && IsTrace(t, h, c, Loaded(h, current), current) && current >= MAX_PROXY_BYTES
    ensures IsTrace(Extended(t, Loaded(h, current), current, Refuse, Reserved(h, 0), current),
                    h, c, Reserved(h, 0), current)
  {
    TraceNext(t, h, c, Loaded(h, current), current, Refuse, Reserved(h, 0), current);
  }

  /** The shared counter, with the grants to this relay and to all others counted apart. */
  class Budget {
    var transferred: nat
    ghost var mine: nat
    ghost var others: nat

    ghost predicate Valid()
      reads this
    {
      transferred == mine + others <= MAX_PROXY_BYTES
    }

    /** Anything other relays may do meanwhile. */
    method Interfere()
      requires Valid()
      modifies this
      ensures Valid() && mine == old(mine) && old(others) <= others
    {
      var grant: nat :| grant <= MAX_PROXY_BYTES - transferred;
      transferred := transferred + grant;
      others := others + grant;
    }

    /** One load and one exchange; uncontended they succeed. `t` is what the relay `h` has done so far. */
    method Attempt(requested: nat, contended: bool, ghost h: Half, ghost c: nat, ghost t: seq<Hop>)
      returns (done: bool, allowed: nat, ghost t': seq<Hop>)
      requires Valid() && h.place.Loading? && |h.chunk| == requested && IsTrace(t, h, c, h, transferred)
      modifies this
      ensures Valid() && old(others) <= others && mine == old(mine) + (if done then allowed else 0)
      ensures !contended ==> done
      ensures done ==> allowed <= requested && (allowed < requested ==> transferred == MAX_PROXY_BYTES)
      ensures IsTrace(t', h, c, if done then Reserved(h, allowed) else h, transferred)
    {
      var current := transferred;
      TryOnce(t, h, c, current);
      t' := Extended(t, h, current, Load, Loaded(h, current), current);
      if current >= MAX_PROXY_BYTES {
        TryRefused(t', h, c, current);
        return true, 0, Extended(t', Loaded(h, current), current, Refuse, Reserved(h, 0), current);
      }
      allowed := Min(requested, MAX_PROXY_BYTES - current);
      var spurious := false;
      if contended {
        Interfere();
        spurious := *;
      }
      if transferred == current && !spurious {
        TrySucceeds(t', h, c, current, allowed);
        t' := Extended(t', Loaded(h, current), current, Exchange, Reserved(h, allowed), current + allowed);
        transferred := current + allowed;
        mine := mine + allowed;
        return true, allowed, t';
      }
      TryFails(t', h, c, current, transferred);
      return false, 0, Extended(t', Loaded(h, current), transferred, ExchangeFails, h, transferred);
    }

    /** The retry loop; `patience` is the number of exchanges that the other relays or the hardware make fail,
        which is finite in every run that returns. */
    method ReserveProxyBytes(requested: nat, patience: nat, ghost h: Half) returns (allowed: nat, ghost t: seq<Hop>)
      requires Valid() && h.place.Loading? && |h.chunk| == requested
      modifies this
      ensures Valid() && mine == old(mine) + allowed && old(others) <= others
      ensures allowed <= requested
      ensures allowed < requested ==> transferred == MAX_PROXY_BYTES
      ensures IsTrace(t, h, old(transferred), Reserved(h, allowed), transferred)
    {
      ghost var c := transferred;
      var left := patience;
      var done := false;
      allowed, t := 0, [];
      while !done
        invariant Valid() && old(others) <= others && mine == old(mine) + (if done then allowed else 0)
        invariant done ==> allowed <= requested && (allowed < requested ==> transferred == MAX_PROXY_BYTES)
        invariant IsTrace(t, h, c, if done then Reserved(h, allowed) else h, transferred)
        decreases !done, left
      {
        done, allowed, t := Attempt(requested, 0 < left, h, c, t);
        left := if 0 < left then left - 1 else 0;
      }
    }
  }

  class Relay {
    const buffer: array<Byte>
    var length: nat
    var written: nat
    var ended: bool
    var exhausted: bool

    constructor ()
      ensures fresh(buffer) && buffer.Length == BUFFER_BYTES
      ensures length == written == 0 && !ended && !exhausted
    {
      buffer := new Byte[BUFFER_BYTES](_ => 0);
      length, written, ended, exhausted := 0, 0, false, false;
    }

    /** This object and its two sockets look like the relay `h` between two operations. */
    ghost predicate Shows(h: Half, reader: Source, writer: Sink)
      reads this, buffer, reader, writer
    {
      && h.place.Ready? && h.length == length && h.written == written && h.ended == ended && h.exhausted == exhausted
      && written <= length <= |h.chunk| <= BUFFER_BYTES == buffer.Length && buffer[..|h.chunk|] == h.chunk
      && reader.position <= |reader.incoming| && h.input == reader.incoming[..reader.position]
      && h.output == writer.received && h.shutdowns == writer.shutdowns
      && (ended ==> reader.position == |reader.incoming|)
    }

    lemma FreshShows(reader: Source, writer: Sink)
      requires buffer.Length == BUFFER_BYTES && length == written == 0 && !ended && !exhausted
      requires reader.position == 0 && writer.received == [] && writer.shutdowns == 0
      ensures Shows(FRESH, reader, writer) && Faithful(FRESH)
    {
    }

    /** Fidelity in terms of the buffer and the sockets, for any relay reached from a faithful one. */
    lemma BytesKept(t: seq<Hop>, h: Half, c: nat, h': Half, c': nat, reader: Source, writer: Sink)
      requires Faithful(h) && IsTrace(t, h, c, h', c') && Shows(h', reader, writer)
      ensures Faithful(h')
      ensures writer.received + buffer[written..length] <= reader.incoming[..reader.position]
      ensures !exhausted ==> writer.received + buffer[written..length] == reader.incoming[..reader.position]
      ensures writer.shutdowns == if ended then 1 else 0
      ensures ended ==> writer.received == reader.incoming
    {
      TraceFaithful(t, h, c, h', c');
      assert Unsent(h') == buffer[..|h'.chunk|][written..length] == buffer[written..length];
    }

    /** The write half of the loop body. */
    method Send(reader: Source, writer: Sink, ghost h: Half, ghost c: nat) returns (poll: Poll, ghost h': Half)
      requires Shows(h, reader, writer) && !ended && written < length
      modifies this`written, writer`received, writer`parkings, writer`failures
      ensures Shows(h', reader, writer)
      ensures writer.failures == old(writer.failures) + if poll.Failed? || poll == Poll.Ready(0) then 1 else 0
      ensures written == old(written) + if poll.Ready? then poll.count else 0
      ensures if poll.Ready? && 0 < poll.count then NextHalf(h, c, Event.Write(poll.count), h', c) else h' == h
      ensures writer.parkings == old(writer.parkings) + if poll.Pending? then 1 else 0
    {
      poll := writer.PollWrite(buffer[written..length]);
      h' := h;
      if poll.Ready? {
        SliceOfChunk(buffer[..], h.chunk, written, length, poll.count);
        assert buffer[written..length] == buffer[..][written..length] && buffer[..|h.chunk|] == buffer[..][..|h.chunk|];
        written := written + poll.count;
        if 0 < poll.count {
          h' := h.(output := writer.received, written := written);
        }
      }
    }

    /** The read half of the loop body; `Failed` ends the relay, `Ready(0)` is the end of the stream. */
    method Receive(reader: Source, writer: Sink, budget: Budget, ghost h: Half)
      returns (poll: Poll, ghost h': Half, ghost t: seq<Hop>)
      requires Shows(h, reader, writer) && budget.Valid() && !ended && !exhausted && written == length
      modifies this, buffer, reader, writer`shutdowns, budget
      ensures Shows(h', reader, writer) && budget.Valid()
      ensures IsTrace(t, h, old(budget.transferred), h', budget.transferred)
      ensures old(budget.transferred) <= budget.transferred
      ensures exhausted ==> budget.transferred == MAX_PROXY_BYTES
      ensures ended <==> poll == Poll.Ready(0)
      ensures reader.parkings == old(reader.parkings) + if poll.Pending? then 1 else 0
      ensures reader.failures == old(reader.failures) + if poll.Failed? then 1 else 0
      ensures poll.Ready? ==> t != []
      ensures exhausted ==> poll.Ready? && 0 < poll.count
    {
      ghost var from := reader.position;
      ghost var c := budget.transferred;
      poll := reader.PollRead(buffer);
      h', t := h, [];
      if !poll.Ready? {
        return;
      }
      if poll.count == 0 {
        writer.CloseWrite();
        ended := true;
        h' := h.(ended := true, shutdowns := h.shutdowns + 1);
        t := [Hop(h, c, Eof, h', c)];
        TraceOne(h, c, Eof, h', c);
        return;
      }
      ghost var bytes := buffer[..poll.count];
      assert bytes == reader.incoming[from..reader.position];
      ghost var asking := h.(input := h.input + bytes, chunk := bytes, length := 0, written := 0, place := Loading);
      TraceOne(h, c, Read(bytes), asking, c);
      var patience: nat := *;
      ghost var more;
      length, more := budget.ReserveProxyBytes(poll.count, patience, asking);
      written := 0;
      exhausted := length < poll.count;
      h' := Reserved(asking, length);
      t := [Hop(h, c, Read(bytes), asking, c)] + more;
      TraceConcat([Hop(h, c, Read(bytes), asking, c)], h, c, asking, c, more, h', budget.transferred);
    }

    /** One pass of the loop body: `go` says that the loop continues. */
    method Pass(reader: Source, writer: Sink, budget: Budget, ghost h: Half)
      returns (go: bool, progress: Progress, ghost h': Half, ghost t: seq<Hop>)
      requires Shows(h, reader, writer) && budget.Valid() && !ended
      requires exhausted ==> budget.transferred == MAX_PROXY_BYTES
      modifies this, buffer, reader, writer, budget
      ensures Shows(h', reader, writer) && budget.Valid()
      ensures IsTrace(t, h, old(budget.transferred), h', budget.transferred)
      ensures old(budget.transferred) <= budget.transferred
      ensures exhausted ==> budget.transferred == MAX_PROXY_BYTES
      ensures ended <==> !go && progress.Finished?
      ensures !go ==> progress != Suspended(Yielded)
      ensures go ==> progress == Suspended(Yielded) && t != []
      ensures !go && progress.Broken? <==>
        || old(reader.failures) < reader.failures || old(writer.failures) < writer.failures
        || (old(exhausted) && written == length)
      ensures old(reader.failures) <= reader.failures && old(writer.failures) <= writer.failures
      ensures exhausted && written == length ==> go || progress.Broken?
      ensures old(exhausted) ==> exhausted
      ensures reader.parkings == old(reader.parkings) + if !go && progress == Suspended(Reading) then 1 else 0
      ensures writer.parkings == old(writer.parkings) + if !go && progress == Suspended(Writing) then 1 else 0
    {
      ghost var c := budget.transferred;
      h', t := h, [];
      go, progress := true, Suspended(Yielded);
      if written < length {
        var sent;
        sent, h' := Send(reader, writer, h, c);
        if sent.Pending? {
          return false, Suspended(Writing), h', t;
        }
        if sent.Failed? || sent.count == 0 {
          return false, Broken, h', t;
        }
        t := [Hop(h, c, Event.Write(sent.count), h', c)];
        TraceOne(h, c, Event.Write(sent.count), h', c);
        if written < length {
          return;
        }
      }
      if exhausted {
        return false, Broken, h', t;
      }
      ghost var mid := h';
      var read;
      ghost var more;
      read, h', more := Receive(reader, writer, budget, mid);
      TraceConcat(t, h, c, mid, c, more, h', budget.transferred);
      t := t + more;
      if read.Pending? {
        return false, Suspended(Reading), h', t;
      }
      if read.Failed? {
        return false, Broken, h', t;
      }
      if read.count == 0 {
        return false, Finished, h', t;
      }
    }

    /** `Relay::step`: up to 64 passes, then the relay wakes itself. `woke` is `wake_by_ref`. A suspended relay has,
        in this step, registered with the socket it waits for, or woken itself after 64 passes that all did something.
        It breaks exactly when a socket fails or takes nothing, or when the budget is spent and all that was granted
        is sent. */
    method Step(reader: Source, writer: Sink, budget: Budget, ghost h: Half)
      returns (progress: Progress, woke: bool, ghost h': Half, ghost t: seq<Hop>)
      requires Shows(h, reader, writer) && budget.Valid()
      requires exhausted ==> budget.transferred == MAX_PROXY_BYTES
      modifies this, buffer, reader, writer, budget
      ensures Shows(h', reader, writer) && budget.Valid()
      ensures IsTrace(t, h, old(budget.transferred), h', budget.transferred)
      ensures old(budget.transferred) <= budget.transferred
      ensures exhausted ==> budget.transferred == MAX_PROXY_BYTES
      ensures progress.Finished? <==> ended
      ensures reader.parkings == old(reader.parkings) + if progress == Suspended(Reading) then 1 else 0
      ensures writer.parkings == old(writer.parkings) + if progress == Suspended(Writing) then 1 else 0
      ensures woke <==> progress == Suspended(Yielded)
      ensures old(reader.failures) <= reader.failures && old(writer.failures) <= writer.failures
      ensures progress.Broken? <==>
        || old(reader.failures) < reader.failures || old(writer.failures) < writer.failures
        || (!ended && exhausted && written == length && progress != Suspended(Yielded))
      ensures progress == Suspended(Yielded) ==> 64 <= |t|
    {
      h', t := h, [];
      if ended {
        return Finished, false, h', t;
      }
      var turn := 0;
      while turn < 64
        invariant Shows(h', reader, writer) && budget.Valid() && !ended
        invariant IsTrace(t, h, old(budget.transferred), h', budget.transferred)
        invariant old(budget.transferred) <= budget.transferred
        invariant exhausted ==> budget.transferred == MAX_PROXY_BYTES
        invariant reader.parkings == old(reader.parkings) && writer.parkings == old(writer.parkings)
        invariant reader.failures == old(reader.failures) && writer.failures == old(writer.failures)
        invariant turn <= |t|
      {
        ghost var mid, c := h', budget.transferred;
        var go, result;
        ghost var more;
        go, result, h', more := Pass(reader, writer, budget, mid);
        TraceConcat(t, h, old(budget.transferred), mid, c, more, h', budget.transferred);
        t := t + more;
        if !go {
          return result, false, h', t;
        }
        turn := turn + 1;
      }
      return Suspended(Yielded), true, h', t;
    }
  }

  // A tunnel: two relays between the same two peers.

  /** The objects of the two directions are distinct. */
  ghost predicate Apart(
    sending: Relay, receiving: Relay, clientIn: Source, clientOut: Sink, upstreamIn: Source, upstreamOut: Sink)
  {
    && sending != receiving && sending.buffer != receiving.buffer
    && clientIn != upstreamIn && clientOut != upstreamOut
  }

  /** Two new relays meet what `PollTunnel` asks for. */
  method OpenTunnel(clientIn: Source, clientOut: Sink, upstreamIn: Source, upstreamOut: Sink)
    returns (sending: Relay, receiving: Relay)
    requires clientIn != upstreamIn && clientOut != upstreamOut
    requires clientIn.position == upstreamIn.position == 0
    requires clientOut.received == upstreamOut.received == [] && clientOut.shutdowns == upstreamOut.shutdowns == 0
    ensures Apart(sending, receiving, clientIn, clientOut, upstreamIn, upstreamOut)
    ensures sending.Shows(FRESH, clientIn, upstreamOut) && receiving.Shows(FRESH, upstreamIn, clientOut)
    ensures Faithful(FRESH) && !sending.exhausted && !receiving.exhausted
  {
    sending := new Relay();
    receiving := new Relay();
    sending.FreshShows(clientIn, upstreamOut);
    receiving.FreshShows(upstreamIn, clientOut);
  }

  /** Why a relay broke in a step that began with these counts of failures. */
  ghost predicate Blamed(relay: Relay, reader: Source, writer: Sink, badReads: nat, badWrites: nat)
    reads relay, reader, writer
  {
    || badReads < reader.failures || badWrites < writer.failures
    || (relay.exhausted && relay.written == relay.length)
  }

  ghost predicate NoFailure(reader: Source, writer: Sink, badReads: nat, badWrites: nat)
    reads reader, writer
  {
    reader.failures == badReads && writer.failures == badWrites
  }

  /** `relay` takes a step beside `other`, which it leaves alone. */
  method StepBeside(
    relay: Relay, reader: Source, writer: Sink, budget: Budget, other: Relay, otherIn: Source, otherOut: Sink,
    ghost h: Half, ghost g: Half)
    returns (progress: Progress, woke: bool, ghost h': Half)
    requires Apart(relay, other, reader, otherOut, otherIn, writer) && budget.Valid()
    requires relay.Shows(h, reader, writer) && other.Shows(g, otherIn, otherOut)
    requires relay.exhausted || other.exhausted ==> budget.transferred == MAX_PROXY_BYTES
    modifies relay, relay.buffer, reader, writer, budget
    ensures budget.Valid() && relay.Shows(h', reader, writer) && other.Shows(g, otherIn, otherOut)
    ensures relay.exhausted || other.exhausted ==> budget.transferred == MAX_PROXY_BYTES
    ensures Faithful(h) ==> Faithful(h')
    ensures progress.Finished? <==> relay.ended
    ensures reader.parkings == old(reader.parkings) + (if progress == Suspended(Reading) then 1 else 0)
    ensures writer.parkings == old(writer.parkings) + (if progress == Suspended(Writing) then 1 else 0)
    ensures woke <==> progress == Suspended(Yielded)
    ensures progress.Broken? ==> Blamed(relay, reader, writer, old(reader.failures), old(writer.failures))
    ensures !progress.Broken? ==> NoFailure(reader, writer, old(reader.failures), old(writer.failures))
  {
    ghost var c := budget.transferred;
    ghost var t;
    progress, woke, h', t := relay.Step(reader, writer, budget, h);
    if Faithful(h) {
      TraceFaithful(t, h, c, h', budget.transferred);
    }
  }

  /** One poll of `tunnel`: both relays take a step. It is done exactly when one has failed or both have ended; when
      it is not, a relay that has not ended has, in this very poll, registered with its socket or woken itself. */
  method PollTunnel(
    sending: Relay, receiving: Relay, clientIn: Source, clientOut: Sink, upstreamIn: Source, upstreamOut: Sink,
    budget: Budget, ghost h: Half, ghost g: Half)
    returns (done: bool, sent: Progress, received: Progress, woke: bool, ghost h': Half, ghost g': Half)
    requires Apart(sending, receiving, clientIn, clientOut, upstreamIn, upstreamOut) && budget.Valid()
    requires sending.Shows(h, clientIn, upstreamOut) && receiving.Shows(g, upstreamIn, clientOut)
    requires sending.exhausted || receiving.exhausted ==> budget.transferred == MAX_PROXY_BYTES
    modifies sending, sending.buffer, receiving, receiving.buffer, clientIn, clientOut, upstreamIn, upstreamOut, budget
    ensures budget.Valid() && sending.Shows(h', clientIn, upstreamOut) && receiving.Shows(g', upstreamIn, clientOut)
    ensures sending.exhausted || receiving.exhausted ==> budget.transferred == MAX_PROXY_BYTES
    ensures Faithful(h) ==> Faithful(h')
    ensures Faithful(g) ==> Faithful(g')
    ensures (sent.Finished? <==> sending.ended) && (received.Finished? <==> receiving.ended)
    ensures done <==> sent.Broken? || received.Broken? || (sending.ended && receiving.ended)
    ensures !done ==> (!sending.ended && sent.Suspended?) || (!receiving.ended && received.Suspended?)
    ensures clientIn.parkings == old(clientIn.parkings) + (if sent == Suspended(Reading) then 1 else 0)
    ensures upstreamOut.parkings == old(upstreamOut.parkings) + (if sent == Suspended(Writing) then 1 else 0)
    ensures upstreamIn.parkings == old(upstreamIn.parkings) + (if received == Suspended(Reading) then 1 else 0)
    ensures clientOut.parkings == old(clientOut.parkings) + (if received == Suspended(Writing) then 1 else 0)
    ensures woke <==> sent == Suspended(Yielded) || received == Suspended(Yielded)
    ensures sent.Broken? ==>
      Blamed(sending, clientIn, upstreamOut, old(clientIn.failures), old(upstreamOut.failures))
    ensures received.Broken? ==>
      Blamed(receiving, upstreamIn, clientOut, old(upstreamIn.failures), old(clientOut.failures))
    ensures !done ==> NoFailure(clientIn, upstreamOut, old(clientIn.failures), old(upstreamOut.failures))
    ensures !done ==> NoFailure(upstreamIn, clientOut, old(upstreamIn.failures), old(clientOut.failures))
  {
    var first, second;
    sent, first, h' := StepBeside(
      sending, clientIn, upstreamOut, budget, receiving, upstreamIn, clientOut, h, g);
    received, second, g' := StepBeside(
      receiving, upstreamIn, clientOut, budget, sending, clientIn, upstreamOut, g, h');
    woke := first || second;
    done := sent.Broken? || received.Broken? || (sending.ended && receiving.ended);
  }
}
