/** The byte budget and the connection leases of the private egress filter (serve.rs, `reserve_proxy_bytes`;
    serve_egress.rs, `Active`, `Lease`, `enqueue` and the accept loop), over every interleaving of any number of
    relays. */
module Egress {
  import opened Utf8Syntax

  const MAX_PROXY_BYTES: nat := 32 * 1024 * 1024
  const MAX_PROXY_CONNECTIONS: nat := 16
  const BUFFER_BYTES: nat := 8192

  function Min(a: nat, b: nat): nat { if a < b then a else b }

  // One direction of a tunnel.

  /** Where a relay is: between operations, or inside `reserve_proxy_bytes` before the load or before the
      compare-exchange with the value it loaded. */
  datatype Place = Ready | Loading | Exchanging(current: nat) | Stopped

  /** `input` is everything read from the peer, `output` everything delivered to the other; `chunk` is what the
      last read left in the buffer, of which `written..length` is still to be sent; `granted` sums the
      reservations. */
  datatype Half = Half(
    input: seq<Byte>, output: seq<Byte>, chunk: seq<Byte>, length: nat, written: nat,
    ended: bool, exhausted: bool, shutdowns: nat, granted: nat, place: Place)

  const FRESH := Half([], [], [], 0, 0, false, false, 0, 0, Ready)

  datatype Event =
    | Read(bytes: seq<Byte>)
    | Load
    | Exchange
    | ExchangeFails
    | Refuse
    | Write(count: nat)
    | Eof
    | Stop

  function Reserved(h: Half, allowed: nat): Half {
    h.(length := allowed, written := 0, exhausted := allowed < |h.chunk|, granted := h.granted + allowed,
       place := Ready)
  }

  /** The step of one relay against the shared counter. A weak compare-exchange may fail without cause. */
  predicate NextHalf(h: Half, counter: nat, e: Event, h': Half, counter': nat) {
    match e
    case Read(bytes) =>
      && h.place.Ready? && !h.ended && h.written == h.length && !h.exhausted && 0 < |bytes| <= BUFFER_BYTES
      && h' == h.(input := h.input + bytes, chunk := bytes, length := 0, written := 0, place := Loading)
      && counter' == counter
    case Load => h.place.Loading? && h' == h.(place := Exchanging(counter)) && counter' == counter
    case Exchange =>
      && h.place.Exchanging? && h.place.current < MAX_PROXY_BYTES && counter == h.place.current
      && var allowed := Min(|h.chunk|, MAX_PROXY_BYTES - h.place.current);
      && h' == Reserved(h, allowed) && counter' == counter + allowed
    case ExchangeFails =>
      && h.place.Exchanging? && h.place.current < MAX_PROXY_BYTES
      && h' == h.(place := Loading) && counter' == counter
    case Refuse =>
      && h.place.Exchanging? && h.place.current >= MAX_PROXY_BYTES
      && h' == Reserved(h, 0) && counter' == counter
    case Write(count) =>
      && h.place.Ready? && 0 < count && h.written + count <= h.length <= |h.chunk|
      && h' == h.(output := h.output + h.chunk[h.written..h.written + count], written := h.written + count)
      && counter' == counter
    case Eof =>
      && h.place.Ready? && !h.ended && h.written == h.length && !h.exhausted
      && h' == h.(ended := true, shutdowns := h.shutdowns + 1) && counter' == counter
    case Stop => h' == h.(place := Stopped) && counter' == counter
  }

  /** A step taken by one relay, with the shared counter before and after it. */
  datatype Hop = Hop(from: Half, before: nat, event: Event, to: Half, after: nat)

  /** Hop `i` is a step, and the next one goes on from there; other relays may have raised the counter between. */
  ghost predicate IsHop(trace: seq<Hop>, i: nat)
    requires i < |trace|
  {
    && NextHalf(trace[i].from, trace[i].before, trace[i].event, trace[i].to, trace[i].after)
    && (i + 1 < |trace| ==> trace[i].to == trace[i + 1].from && trace[i].after <= trace[i + 1].before)
  }

  /** A run of one relay from `h` to `h'`, while the counter goes from `c` to `c'`. */
  ghost predicate IsTrace(trace: seq<Hop>, h: Half, c: nat, h': Half, c': nat) {
    && (forall i :: 0 <= i < |trace| ==> IsHop(trace, i))
    && if trace == [] then h == h' && c <= c'
       else
         && trace[0].from == h && c <= trace[0].before
         && trace[|trace| - 1].to == h' && trace[|trace| - 1].after <= c'
  }

  lemma TraceLater(trace: seq<Hop>, h: Half, c: nat, h': Half, c': nat, later: nat)
    requires IsTrace(trace, h, c, h', c') && c' <= later
    ensures IsTrace(trace, h, c, h', later)
  {
  }

  lemma TraceConcat(a: seq<Hop>, h: Half, c: nat, h': Half, c': nat, b: seq<Hop>, h'': Half, c'': nat)
    requires IsTrace(a, h, c, h', c') && IsTrace(b, h', c', h'', c'')
    ensures IsTrace(a + b, h, c, h'', c'')
  {
    var t := a + b;
    forall i | 0 <= i < |t| ensures IsHop(t, i) {
      if i < |a| {
        assert IsHop(a, i);
      } else {
        assert IsHop(b, i - |a|);
      }
    }
  }

  lemma TraceOne(h: Half, c: nat, e: Event, h': Half, c': nat)
    requires NextHalf(h, c, e, h', c')
    ensures IsTrace([Hop(h, c, e, h', c')], h, c, h', c')
  {
    assert IsHop([Hop(h, c, e, h', c')], 0);
  }

  function Extended(trace: seq<Hop>, h': Half, c': nat, e: Event, h'': Half, c'': nat): seq<Hop> {
    trace + [Hop(h', c', e, h'', c'')]
  }

  lemma TraceNext(trace: seq<Hop>, h: Half, c: nat, h': Half, c': nat, e: Event, h'': Half, c'': nat)
    requires IsTrace(trace, h, c, h', c') && NextHalf(h', c', e, h'', c'')
    ensures IsTrace(Extended(trace, h', c', e, h'', c''), h, c, h'', c'')
  {
    TraceOne(h', c', e, h'', c'');
    TraceConcat(trace, h, c, h', c', [Hop(h', c', e, h'', c'')], h'', c'');
  }

  /** Granted and not yet delivered. */
  function Unsent(h: Half): seq<Byte>
    requires h.written <= h.length <= |h.chunk|
  {
    h.chunk[h.written..h.length]
  }

  /** Bytes leave in the order they came, none twice and none invented, and only the budget can hold any back;
      the write side is shut at most once, and only behind the last byte. */
  ghost predicate Faithful(h: Half) {
    && h.written <= h.length <= |h.chunk|
    && h.granted == |h.output| + |Unsent(h)|
    && h.output + Unsent(h) <= h.input
    && (h.place.Ready? && !h.exhausted ==> h.output + Unsent(h) == h.input)
    && (h.place.Loading? || h.place.Exchanging? ==>
          h.written == h.length && !h.exhausted && !h.ended && h.output + h.chunk == h.input)
    && h.shutdowns == (if h.ended then 1 else 0)
    && (h.ended ==> !h.exhausted && h.output == h.input && h.written == h.length)
  }

  lemma FaithfulNext(h: Half, counter: nat, e: Event, h': Half, counter': nat)
    requires Faithful(h) && NextHalf(h, counter, e, h', counter')
    ensures Faithful(h')
    ensures counter' - counter == h'.granted - h.granted >= 0
  {
    match e
    case Read(bytes) =>
      assert h'.output + Unsent(h') == h.output + Unsent(h);
    case Exchange =>
      assert h'.chunk[..h'.length] <= h'.chunk;
    case Write(count) =>
      assert h.chunk[h.written..h.length] ==
        h.chunk[h.written..h.written + count] + h.chunk[h.written + count..h.length];
      assert h'.output + Unsent(h') == h.output + Unsent(h);
    case _ =>
  }

  /** Whatever a faithful relay does, it stays faithful. */
  lemma {:induction false} TraceFaithful(trace: seq<Hop>, h: Half, c: nat, h': Half, c': nat)
    requires Faithful(h) && IsTrace(trace, h, c, h', c')
    ensures Faithful(h')
    decreases |trace|
  {
    if trace == [] {
    } else {
      var n := |trace| - 1;
      var last := trace[n];
      TraceFront(trace, h, c, h', c');
      TraceFaithful(trace[..n], h, c, last.from, last.before);
      assert IsHop(trace, n);
      FaithfulNext(last.from, last.before, last.event, last.to, last.after);
    }
  }

  lemma TraceFront(trace: seq<Hop>, h: Half, c: nat, h': Half, c': nat)
    requires IsTrace(trace, h, c, h', c') && trace != []
    ensures var n := |trace| - 1; IsTrace(trace[..n], h, c, trace[n].from, trace[n].before)
  {
    var n := |trace| - 1;
    forall i | 0 <= i < n ensures IsHop(trace[..n], i) {
      assert IsHop(trace, i);
    }
    if 0 < n {
      assert IsHop(trace, n - 1);
    }
  }

  // All tunnels together.

  datatype State = State(counter: nat, halves: seq<Half>)

  /** Relay `i` takes step `e`, or a new tunnel adds two fresh relays. */
  datatype Step = Take(i: nat, e: Event) | Open

  ghost predicate Next(s: State, step: Step, t: State) {
    match step
    case Take(i, e) =>
      && i < |s.halves| && |t.halves| == |s.halves| && t.halves == s.halves[i := t.halves[i]]
      && NextHalf(s.halves[i], s.counter, e, t.halves[i], t.counter)
    case Open => t == s.(halves := s.halves + [FRESH, FRESH])
  }

  /** Step `i`, under a name: a run is unfolded only where this name is used. */
  ghost predicate IsStep(states: seq<State>, steps: seq<Step>, i: nat)
    requires |states| == |steps| + 1 && i < |steps|
  {
    Next(states[i], steps[i], states[i + 1])
  }

  ghost predicate IsRun(states: seq<State>, steps: seq<Step>) {
    && |states| == |steps| + 1
    && states[0] == State(0, [])
    && forall i :: 0 <= i < |steps| ==> IsStep(states, steps, i)
  }

  function Granted(halves: seq<Half>): nat {
    if halves == [] then 0 else halves[0].granted + Granted(halves[1..])
  }

  function Delivered(halves: seq<Half>): nat {
    if halves == [] then 0 else |halves[0].output| + Delivered(halves[1..])
  }

  lemma {:induction false} GrantedUpdate(halves: seq<Half>, i: nat, h: Half)
    requires i < |halves|
    ensures Granted(halves[i := h]) == Granted(halves) - halves[i].granted + h.granted
  {
    if i == 0 {
      assert halves[0 := h][1..] == halves[1..];
    } else {
      GrantedUpdate(halves[1..], i - 1, h);
      assert halves[i := h][1..] == halves[1..][i - 1 := h];
    }
  }

  lemma {:induction false} GrantedAppend(a: seq<Half>, b: seq<Half>)
    ensures Granted(a + b) == Granted(a) + Granted(b)
  {
    if a == [] {
      assert a + b == b;
    } else {
      GrantedAppend(a[1..], b);
      assert (a + b)[1..] == a[1..] + b;
    }
  }

  lemma {:induction false} DeliveredBound(halves: seq<Half>)
    requires forall i :: 0 <= i < |halves| ==> Faithful(halves[i])
    ensures Delivered(halves) <= Granted(halves)
  {
    if halves == [] {
    } else {
      DeliveredBound(halves[1..]);
    }
  }

  ghost predicate Inv(s: State) {
    && s.counter == Granted(s.halves)
    && s.counter <= MAX_PROXY_BYTES
    && (forall i :: 0 <= i < |s.halves| ==> Faithful(s.halves[i]))
    && (forall i :: 0 <= i < |s.halves| && s.halves[i].exhausted ==> s.counter == MAX_PROXY_BYTES)
    && (forall i :: 0 <= i < |s.halves| && s.halves[i].place.Exchanging? ==> s.halves[i].place.current <= s.counter)
  }

  ghost predicate InBudget(h: Half, counter: nat) {
    && counter <= MAX_PROXY_BYTES
    && (h.exhausted ==> counter == MAX_PROXY_BYTES)
    && (h.place.Exchanging? ==> h.place.current <= counter)
  }

  lemma HalfInBudget(h: Half, counter: nat, e: Event, h': Half, counter': nat)
    requires Faithful(h) && InBudget(h, counter) && NextHalf(h, counter, e, h', counter')
    ensures InBudget(h', counter') && counter <= counter'
  {
  }

  lemma InvNext(s: State, step: Step, t: State)
    requires Inv(s) && Next(s, step, t)
    ensures Inv(t) && s.counter <= t.counter
  {
    match step
    case Take(i, e) =>
      HalfInBudget(s.halves[i], s.counter, e, t.halves[i], t.counter);
      FaithfulNext(s.halves[i], s.counter, e, t.halves[i], t.counter);
      GrantedUpdate(s.halves, i, t.halves[i]);
    case Open =>
      GrantedAppend(s.halves, [FRESH, FRESH]);
      assert Granted([FRESH, FRESH]) == Granted([FRESH]) == 0;
  }

  lemma {:induction false} InvRun(states: seq<State>, steps: seq<Step>, k: nat)
    requires IsRun(states, steps) && k < |states|
    ensures Inv(states[k])
  {
    if k == 0 {
      assert Inv(states[0]);
    } else {
      InvRun(states, steps, k - 1);
      assert IsStep(states, steps, k - 1);
      InvNext(states[k - 1], steps[k - 1], states[k]);
    }
  }

  /** The counter is the sum of the grants, stays within the budget and bounds every byte delivered; a relay is
      cut short only when the whole budget has been granted. */
  lemma SharedBudget(states: seq<State>, steps: seq<Step>, k: nat)
    requires IsRun(states, steps) && k < |states|
    ensures Delivered(states[k].halves) <= states[k].counter == Granted(states[k].halves) <= 33_554_432
    ensures forall i :: 0 <= i < |states[k].halves| && states[k].halves[i].exhausted ==>
      states[k].counter == MAX_PROXY_BYTES
  {
    InvRun(states, steps, k);
    DeliveredBound(states[k].halves);
  }

  /** Every relay of every run is faithful. */
  lemma RelayFidelity(states: seq<State>, steps: seq<Step>, k: nat, i: nat)
    requires IsRun(states, steps) && k < |states| && i < |states[k].halves|
    ensures var h := states[k].halves[i];
      && Faithful(h) && h.output <= h.input && h.shutdowns <= 1
      && (0 < h.shutdowns ==> h.output == h.input)
      && (h.place.Ready? && states[k].counter < MAX_PROXY_BYTES ==> h.output + Unsent(h) == h.input)
  {
    InvRun(states, steps, k);
  }

  // Connections.

  /** The single accept loop between loading the count and acting on it. */
  datatype Acceptor = Accepting | Saw(count: nat)

  datatype Pool = Pool(count: nat, leases: set<nat>, issued: nat, acceptor: Acceptor)

  datatype PoolEvent = LoadCount | Admit | TurnAway | DropLease(lease: nat)

  ghost predicate NextPool(s: Pool, e: PoolEvent, t: Pool) {
    match e
    case LoadCount => s.acceptor.Accepting? && t == s.(acceptor := Saw(s.count))
    case Admit =>
      && s.acceptor.Saw? && s.acceptor.count < MAX_PROXY_CONNECTIONS
      && t == s.(count := s.count + 1, leases := s.leases + {s.issued}, issued := s.issued + 1, acceptor := Accepting)
    case TurnAway =>
      s.acceptor.Saw? && s.acceptor.count >= MAX_PROXY_CONNECTIONS && t == s.(acceptor := Accepting)
    case DropLease(lease) => // `fetch_sub`, which would wrap below zero
      && lease in s.leases
      && t == s.(count := if s.count == 0 then 0xFFFF_FFFF_FFFF_FFFF else s.count - 1, leases := s.leases - {lease})
  }

  ghost predicate PoolInv(s: Pool) {
    && s.count == |s.leases| <= MAX_PROXY_CONNECTIONS
    && (s.acceptor.Saw? ==> s.count <= s.acceptor.count <= MAX_PROXY_CONNECTIONS)
    && (forall l :: l in s.leases ==> l < s.issued)
  }

  lemma PoolInvNext(s: Pool, e: PoolEvent, t: Pool)
    requires PoolInv(s) && NextPool(s, e, t)
    ensures PoolInv(t)
  {
  }

  ghost predicate IsPoolStep(pools: seq<Pool>, events: seq<PoolEvent>, i: nat)
    requires |pools| == |events| + 1 && i < |events|
  {
    NextPool(pools[i], events[i], pools[i + 1])
  }

  ghost predicate IsPoolRun(pools: seq<Pool>, events: seq<PoolEvent>) {
    && |pools| == |events| + 1
    && pools[0] == Pool(0, {}, 0, Accepting)
    && forall i :: 0 <= i < |events| ==> IsPoolStep(pools, events, i)
  }

  /** However drops interleave with the check and the increment, the count is the number of live leases and
      never passes the limit. */
  lemma {:induction false} ConnectionsBounded(pools: seq<Pool>, events: seq<PoolEvent>, k: nat)
    requires IsPoolRun(pools, events) && k < |pools|
    ensures PoolInv(pools[k])
    ensures pools[k].count == |pools[k].leases| <= MAX_PROXY_CONNECTIONS
  {
    if k == 0 {
    } else {
      ConnectionsBounded(pools, events, k - 1);
      assert IsPoolStep(pools, events, k - 1);
      PoolInvNext(pools[k - 1], events[k - 1], pools[k]);
    }
  }

  /** The accept loop admits a connection, with a lease of its own, exactly when the count it saw is below the limit,
      and turns it away otherwise. */
  lemma AcceptorDecides(s: Pool, e: PoolEvent, t: Pool)
    requires PoolInv(s) && s.acceptor.Saw? && NextPool(s, e, t) && (e.Admit? || e.TurnAway?)
    ensures e.Admit? <==> s.acceptor.count < 16
    ensures e.Admit? ==> t.count == s.count + 1 && s.issued !in s.leases && t.leases == s.leases + {s.issued}
    ensures e.TurnAway? ==> t == s.(acceptor := Accepting)
  {
  }

  /** It can always do one of the two, and a lease can always be dropped. */
  lemma AcceptorGoesOn(s: Pool) returns (e: PoolEvent, t: Pool)
    ensures NextPool(s, e, t) && !e.DropLease?
  {
    if s.acceptor.Accepting? {
      e, t := LoadCount, s.(acceptor := Saw(s.count));
    } else if s.acceptor.count < MAX_PROXY_CONNECTIONS {
      e := Admit;
      t := s.(count := s.count + 1, leases := s.leases + {s.issued}, issued := s.issued + 1, acceptor := Accepting);
    } else {
      e, t := TurnAway, s.(acceptor := Accepting);
    }
  }
}
