/** The document request channel (serve_page_control.rs): a bounded single-producer ring, two open flags under
    a lock, a page flag, and one `Notify`.

    A step is one lock region, one ring operation, one atomic or one notification. The sender holds the lock
    from its check of `consumer_open` until it has notified, while the receiver pops without the lock. */
module RequestChannel {

  /** A request is only ever moved, so its identity will do. */
  type Request = nat

  /** Where the sender is. `Checked` and `Pushed` hold the lock; `Dropping` has closed its side and not yet
      notified. */
  datatype Sender = Quiet | Checked | Pushed | Dropping | Gone

  /** The places of `receive` after `notification.enable()`: before the pop, after an empty pop, after the open
      check, and at the await. */
  datatype Stage = Armed | Empty | Open | Parked

  /** `enabled`: the stored permit was taken by `enable`; `notified`: the registered future was notified since. */
  datatype Receiver =
    | Idle
    | Peeking // in `try_recv`, after an empty pop
    | Trying(stage: Stage, enabled: bool, notified: bool)
    | Draining
    | Dropped

  /** `wakers` counts page wakes between the store of the flag and the notification; `seen` is the number of
      requests accepted when the last pop came up empty. */
  datatype State = State(
    capacity: nat, queue: seq<Request>, producerOpen: bool, consumerOpen: bool, permit: bool, page: bool,
    wakers: nat, sender: Sender, receiver: Receiver,
    accepted: seq<Request>, received: seq<Request>, abandoned: seq<Request>, seen: nat)

  datatype Event =
    | SendCheck | SendFull | SendPush(request: Request) | SendNotify
    | SenderClose | SenderCloseNotify
    | PageStore | PageNotify
    | Arm | Pop(keep: bool) | OpenCheck | PageSwap | TimeOut(keep: bool) | TryPop | TryCheck
    | ReceiverClose | Drain

  predicate Locked(s: State) { s.sender.Checked? || s.sender.Pushed? }

  /** A future that is registered and has not been notified. */
  predicate Waits(r: Receiver) { r.Trying? && !r.enabled && !r.notified }

  /** `notify_one`: to the registered future if there is one, else into the permit. */
  function Notified(s: State): State {
    if Waits(s.receiver) then s.(receiver := s.receiver.(notified := true)) else s.(permit := true)
  }

  /** Leaving `receive`. Whether a notification that nobody awaited is kept as a permit does not matter. */
  function Left(s: State, keep: bool): State {
    s.(receiver := Idle, permit := s.permit || (keep && s.receiver.Trying? && s.receiver.notified))
  }

  ghost predicate NextSender(s: State, e: Event, t: State) {
    match e
    case SendCheck => s.sender.Quiet? && s.consumerOpen && t == s.(sender := Checked)
    case SendFull => s.sender.Checked? && |s.queue| >= s.capacity && t == s.(sender := Quiet)
    case SendPush(request) =>
      && s.sender.Checked? && |s.queue| < s.capacity
      && t == s.(sender := Pushed, queue := s.queue + [request], accepted := s.accepted + [request])
    case SendNotify => s.sender.Pushed? && t == Notified(s).(sender := Quiet)
    case SenderClose => s.sender.Quiet? && t == s.(sender := Dropping, producerOpen := false)
    case SenderCloseNotify => s.sender.Dropping? && t == Notified(s).(sender := Gone)
    case PageStore => t == s.(page := true, wakers := s.wakers + 1)
    case PageNotify => 0 < s.wakers && t == Notified(s).(wakers := s.wakers - 1)
    case _ => false
  }

  ghost predicate NextReceiver(s: State, e: Event, t: State) {
    match e
    case Arm =>
      && (s.receiver.Idle?
          || (s.receiver.Trying? && s.receiver.stage.Parked? && (s.receiver.enabled || s.receiver.notified)))
      && t == s.(receiver := Trying(Armed, s.permit, false), permit := false)
    case Pop(keep) =>
      && s.receiver.Trying? && s.receiver.stage.Armed?
      && if s.queue != []
         then t == Left(s, keep).(queue := s.queue[1..], received := s.received + [s.queue[0]])
         else t == s.(receiver := s.receiver.(stage := Empty), seen := |s.accepted|)
    case OpenCheck => // answers Disconnected when the producer has closed
      && s.receiver.Trying? && s.receiver.stage.Empty? && !Locked(s)
      && t == if s.producerOpen then s.(receiver := s.receiver.(stage := Open)) else Left(s, true)
    case PageSwap => // answers Timeout when a page wake is due
      && s.receiver.Trying? && s.receiver.stage.Open?
      && t == if s.page then Left(s, true).(page := false) else s.(receiver := s.receiver.(stage := Parked))
    case TimeOut(keep) => s.receiver.Trying? && s.receiver.stage.Parked? && t == Left(s, keep)
    case TryPop =>
      && s.receiver.Idle?
      && t == if s.queue != [] then s.(queue := s.queue[1..], received := s.received + [s.queue[0]])
              else s.(receiver := Peeking, seen := |s.accepted|)
    case TryCheck => // answers Empty or Disconnected
      s.receiver.Peeking? && !Locked(s) && t == s.(receiver := Idle)
    case ReceiverClose =>
      s.receiver.Idle? && !Locked(s) && t == s.(receiver := Draining, consumerOpen := false)
    case Drain =>
      && s.receiver.Draining?
      && t == if s.queue == [] then s.(receiver := Dropped)
              else s.(queue := s.queue[1..], abandoned := s.abandoned + [s.queue[0]])
    case _ => false
  }

  ghost predicate Next(s: State, e: Event, t: State) {
    NextSender(s, e, t) || NextReceiver(s, e, t)
  }

  ghost predicate Init(s: State) {
    s == State(s.capacity, [], true, true, false, false, 0, Quiet, Idle, [], [], [], 0)
  }

  /** Step `i`, under a name: a run is unfolded only where this name is used. */
  ghost predicate IsStep(states: seq<State>, events: seq<Event>, i: nat)
    requires |states| == |events| + 1 && i < |events|
  {
    Next(states[i], events[i], states[i + 1])
  }

  ghost predicate IsRun(states: seq<State>, events: seq<Event>) {
    && |states| == |events| + 1
    && Init(states[0])
    && forall i :: 0 <= i < |events| ==> IsStep(states, events, i)
  }

  lemma StepAt(states: seq<State>, events: seq<Event>, i: nat)
    requires IsRun(states, events) && i < |events|
    ensures Next(states[i], events[i], states[i + 1])
  {
    assert IsStep(states, events, i);
  }

  // The invariant.

  /** Received, then abandoned, then queued: the accepted requests in order. */
  predicate Accounted(s: State) {
    && s.accepted == s.received + s.abandoned + s.queue
    && |s.queue| <= s.capacity
    && (s.abandoned != [] ==> s.receiver.Draining? || s.receiver.Dropped?)
    && (s.receiver.Dropped? ==> s.queue == [])
  }

  /** The consumer's side closes for good, and never under a sender that has already checked it. */
  predicate Shut(s: State) {
    && (s.consumerOpen <==> !s.receiver.Draining? && !s.receiver.Dropped?)
    && (Locked(s) ==> s.consumerOpen)
    && (s.producerOpen <==> !s.sender.Dropping? && !s.sender.Gone?)
  }

  /** What an unnotified receiver has already looked at can only have changed through a sender or a waker that
      still owes its notification. */
  predicate Watched(s: State) {
    Waits(s.receiver) ==>
      && (!s.receiver.stage.Armed? && s.queue != [] ==> s.sender.Pushed?)
      && ((s.receiver.stage.Open? || s.receiver.stage.Parked?) && !s.producerOpen ==> s.sender.Dropping?)
      && (s.receiver.stage.Parked? && s.page ==> 0 < s.wakers)
  }

  /** After an empty pop the queue holds exactly what was accepted since. */
  predicate Recent(s: State) {
    s.receiver.Peeking? || (s.receiver.Trying? && !s.receiver.stage.Armed?) ==>
      s.seen <= |s.accepted| && s.queue == s.accepted[s.seen..]
  }

  predicate Inv(s: State) {
    Accounted(s) && Shut(s) && Watched(s) && Recent(s)
  }

  /** Taking the head of the queue moves it to the end of what has been taken. */
  lemma HeadMoves(accepted: seq<Request>, taken: seq<Request>, queue: seq<Request>)
    requires accepted == taken + queue && queue != []
    ensures accepted == taken + [queue[0]] + queue[1..]
  {
    assert queue == [queue[0]] + queue[1..];
  }

  lemma AccountedSender(s: State, e: Event, t: State)
    requires Accounted(s) && Shut(s) && NextSender(s, e, t)
    ensures Accounted(t)
  {
    match e
    case SendPush(request) =>
      assert s.received + s.abandoned + (s.queue + [request]) == s.received + s.abandoned + s.queue + [request];
    case _ =>
  }

  lemma AccountedTaken(s: State, t: State)
    requires Accounted(s) && s.queue != [] && t.queue == s.queue[1..] && t.capacity == s.capacity
    requires t.accepted == s.accepted && t.abandoned == s.abandoned && t.received == s.received + [s.queue[0]]
    requires s.abandoned == [] && !t.receiver.Dropped?
    ensures Accounted(t)
  {
    HeadMoves(s.accepted, s.received + s.abandoned, s.queue);
    assert s.received + s.abandoned == s.received && t.received + t.abandoned == t.received;
  }

  lemma AccountedDrained(s: State, t: State)
    requires Accounted(s) && s.receiver.Draining? && NextReceiver(s, Drain, t)
    ensures Accounted(t)
  {
    if s.queue != [] {
      HeadMoves(s.accepted, s.received + s.abandoned, s.queue);
      assert s.received + s.abandoned + [s.queue[0]] == s.received + (s.abandoned + [s.queue[0]]);
    }
  }

  lemma AccountedReceiver(s: State, e: Event, t: State)
    requires Accounted(s) && NextReceiver(s, e, t)
    ensures Accounted(t)
  {
    if (e.Pop? || e.TryPop?) && s.queue != [] {
      AccountedTaken(s, t);
    } else if e.Drain? {
      AccountedDrained(s, t);
    }
  }

  lemma WatchedNext(s: State, e: Event, t: State)
    requires Watched(s) && Shut(s) && Next(s, e, t)
    ensures Watched(t) && Shut(t)
  {
  }

  lemma InvNext(s: State, e: Event, t: State)
    requires Inv(s) && Next(s, e, t)
    ensures Inv(t)
  {
    if NextSender(s, e, t) {
      AccountedSender(s, e, t);
    } else {
      AccountedReceiver(s, e, t);
    }
    WatchedNext(s, e, t);
  }

  lemma {:induction false} InvRun(states: seq<State>, events: seq<Event>, k: nat)
    requires IsRun(states, events) && k < |states|
    ensures Inv(states[k])
  {
    if k == 0 {
      assert Inv(states[0]);
    } else {
      InvRun(states, events, k - 1);
      StepAt(states, events, k - 1);
      InvNext(states[k - 1], events[k - 1], states[k]);
    }
  }

  // What the channel promises.

  /** Every accepted request is received once and in order, still queued, or abandoned; once the receiver is
      gone none is queued. */
  lemma ExactlyOnce(states: seq<State>, events: seq<Event>, k: nat)
    requires IsRun(states, events) && k < |states|
    ensures states[k].accepted == states[k].received + states[k].abandoned + states[k].queue
    ensures states[k].abandoned != [] ==> states[k].receiver.Draining? || states[k].receiver.Dropped?
    ensures states[k].receiver.Dropped? ==> states[k].accepted == states[k].received + states[k].abandoned
  {
    InvRun(states, events, k);
  }

  lemma {:induction false} ClosedStaysClosed(states: seq<State>, events: seq<Event>, j: nat, k: nat)
    requires IsRun(states, events) && j <= k < |states| && !states[j].consumerOpen
    ensures !states[k].consumerOpen
    decreases k - j
  {
    if j == k {
    } else {
      ClosedStaysClosed(states, events, j, k - 1);
      StepAt(states, events, k - 1);
    }
  }

  /** No request is accepted once the receiver has begun to close. */
  lemma NoneAcceptedAfterClose(states: seq<State>, events: seq<Event>, j: nat, k: nat)
    requires IsRun(states, events) && j < k < |events| && events[j].ReceiverClose?
    ensures !events[k].SendPush? && states[k + 1].accepted == states[k].accepted
  {
    StepAt(states, events, j);
    ClosedStaysClosed(states, events, j + 1, k);
    InvRun(states, events, k);
    StepAt(states, events, k);
  }

  /** A receiver parked without a notification has nothing to be woken for, unless the party that gave it
      something is about to notify. */
  lemma NoLostWakeup(states: seq<State>, events: seq<Event>, k: nat)
    requires IsRun(states, events) && k < |states|
    requires Waits(states[k].receiver) && states[k].receiver.stage.Parked?
    ensures states[k].queue != [] ==> states[k].sender.Pushed?
    ensures !states[k].producerOpen ==> states[k].sender.Dropping?
    ensures states[k].page ==> 0 < states[k].wakers
  {
    InvRun(states, events, k);
  }

  // Disconnected.

  /** The step answers Disconnected, from `receive` or from `try_recv`. */
  predicate Disconnects(s: State, e: Event) {
    (e.OpenCheck? || e.TryCheck?) && !s.producerOpen
  }

  predicate IsPop(e: Event) { e.Pop? || e.TryPop? }

  /** The receiver has popped nothing and has not yet looked at the open flag. */
  predicate Between(r: Receiver) {
    r.Peeking? || (r.Trying? && r.stage.Empty?)
  }

  predicate EmptyPop(s: State, e: Event) { IsPop(e) && s.queue == [] }

  /** A step that leaves the receiver between pop and check is an empty pop or finds it there already. */
  predicate Stays(s: State, e: Event, t: State) {
    && |t.accepted| == |s.accepted| + (if e.SendPush? then 1 else 0)
    && if IsPop(e) then EmptyPop(s, e) && t.seen == |s.accepted| else Between(s.receiver) && t.seen == s.seen
  }

  lemma SenderStays(s: State, e: Event, t: State)
    requires NextSender(s, e, t) && Between(t.receiver)
    ensures Stays(s, e, t)
  {
  }

  lemma ReceiverStays(s: State, e: Event, t: State)
    requires NextReceiver(s, e, t) && Between(t.receiver)
    ensures Stays(s, e, t)
  {
  }

  lemma StaysAt(states: seq<State>, events: seq<Event>, k: nat)
    requires IsRun(states, events) && k < |events| && Between(states[k + 1].receiver)
    ensures Stays(states[k], events[k], states[k + 1])
  {
    StepAt(states, events, k);
    if NextSender(states[k], events[k], states[k + 1]) {
      SenderStays(states[k], events[k], states[k + 1]);
    } else {
      ReceiverStays(states[k], events[k], states[k + 1]);
    }
  }

  /** Where the receiver is between pop and check, `i` is its last pop: it came up empty, and what has been
      accepted since then was pushed by the steps after it. */
  lemma {:induction false} EmptyPopOf(states: seq<State>, events: seq<Event>, k: nat) returns (i: nat)
    requires IsRun(states, events) && k < |states| && Between(states[k].receiver)
    ensures i < k && EmptyPop(states[i], events[i])
    ensures forall m :: i < m < k ==> !IsPop(events[m])
    ensures states[k].seen == |states[i].accepted| <= |states[k].accepted|
    ensures |states[k].accepted| == |states[i].accepted| <==> forall m :: i < m < k ==> !events[m].SendPush?
    decreases k
  {
    StaysAt(states, events, k - 1);
    if IsPop(events[k - 1]) {
      i := k - 1;
    } else {
      i := EmptyPopOf(states, events, k - 1);
    }
  }

  lemma GoneAt(states: seq<State>, events: seq<Event>, k: nat)
    requires IsRun(states, events) && k < |events| && !states[k].producerOpen
    ensures !states[k + 1].producerOpen && !events[k].SendPush?
  {
    InvRun(states, events, k);
    StepAt(states, events, k);
  }

  /** A sender that has gone pushes nothing more. */
  lemma {:induction false} GonePushesNothing(states: seq<State>, events: seq<Event>, j: nat, k: nat)
    requires IsRun(states, events) && j <= k < |states| && !states[j].producerOpen
    ensures !states[k].producerOpen
    ensures forall m :: j <= m < k ==> !events[m].SendPush?
    decreases k - j
  {
    if j == k {
    } else {
      GonePushesNothing(states, events, j, k - 1);
      GoneAt(states, events, k - 1);
    }
  }

  /** `Disconnected` leaves the queue empty if and only if no request was pushed between the pop and the check;
      it does so whenever the sender was already gone at some point up to that pop, as when the call began. */
  lemma DisconnectedIff(states: seq<State>, events: seq<Event>, k: nat) returns (i: nat)
    requires IsRun(states, events) && k < |events| && Disconnects(states[k], events[k])
    ensures i < k && EmptyPop(states[i], events[i]) && forall m :: i < m < k ==> !IsPop(events[m])
    ensures states[k + 1].queue == [] <==> forall m :: i < m < k ==> !events[m].SendPush?
    ensures |states[i].accepted| <= |states[k].accepted|
    ensures states[k + 1].queue == states[k].accepted[|states[i].accepted|..]
    ensures (exists j :: 0 <= j <= i && !states[j].producerOpen) ==> states[k + 1].queue == []
  {
    InvRun(states, events, k);
    StepAt(states, events, k);
    i := EmptyPopOf(states, events, k);
    if j :| 0 <= j <= i && !states[j].producerOpen {
      GonePushesNothing(states, events, j, k);
    }
  }

  // And requests can be left.

  ghost predicate Ends(states: seq<State>, events: seq<Event>, s: State) {
    IsRun(states, events) && states[|events|] == s
  }

  lemma Extend(states: seq<State>, events: seq<Event>, s: State, e: Event, t: State)
    requires Ends(states, events, s) && Next(s, e, t)
    ensures Ends(states + [t], events + [e], t)
  {
    forall i | 0 <= i < |events| + 1 ensures IsStep(states + [t], events + [e], i) {
      assert i < |events| ==> IsStep(states, events, i);
    }
  }

  /** Between an empty pop and the check the sender pushes a request, notifies and leaves. */
  function LastWords(s: State, r: Request): seq<State> {
    var s1 := s.(sender := Checked);
    var s2 := s1.(sender := Pushed, queue := [r], accepted := s.accepted + [r]);
    var s3 := Notified(s2).(sender := Quiet);
    var s4 := s3.(sender := Dropping, producerOpen := false);
    var s5 := Notified(s4).(sender := Gone);
    [s1, s2, s3, s4, s5]
  }

  lemma SenderLeaves(states: seq<State>, events: seq<Event>, s: State, r: Request)
    returns (states': seq<State>, events': seq<Event>)
    requires Ends(states, events, s) && s.sender.Quiet? && s.queue == [] && s.consumerOpen && 0 < s.capacity
    ensures Ends(states', events', LastWords(s, r)[4])
  {
    var w := LastWords(s, r);
    Extend(states, events, s, SendCheck, w[0]);
    states', events' := states + [w[0]], events + [SendCheck];
    Extend(states', events', w[0], SendPush(r), w[1]);
    states', events' := states' + [w[1]], events' + [SendPush(r)];
    Extend(states', events', w[1], SendNotify, w[2]);
    states', events' := states' + [w[2]], events' + [SendNotify];
    Extend(states', events', w[2], SenderClose, w[3]);
    states', events' := states' + [w[3]], events' + [SenderClose];
    Extend(states', events', w[3], SenderCloseNotify, w[4]);
    states', events' := states' + [w[4]], events' + [SenderCloseNotify];
  }

  function Opened(capacity: nat): State {
    State(capacity, [], true, true, false, false, 0, Quiet, Idle, [], [], [], 0)
  }

  lemma PopNothing(capacity: nat, peek: bool) returns (states: seq<State>, events: seq<Event>)
    ensures Ends(states, events,
                 Opened(capacity).(receiver := if peek then Peeking else Trying(Empty, false, false)))
  {
    var s := Opened(capacity);
    states, events := [s], [];
    if peek {
      var t := s.(receiver := Peeking);
      Extend(states, events, s, TryPop, t);
      states, events := states + [t], events + [TryPop];
    } else {
      var t := s.(receiver := Trying(Armed, false, false));
      Extend(states, events, s, Arm, t);
      states, events := states + [t], events + [Arm];
      var u := s.(receiver := Trying(Empty, false, false));
      Extend(states, events, t, Pop(false), u);
      states, events := states + [u], events + [Pop(false)];
    }
  }

  /** Both `receive` and `try_recv` (`peek`) can answer Disconnected and leave a request behind. */
  lemma DisconnectedWithRequestQueued(capacity: nat, r: Request, peek: bool)
    returns (states: seq<State>, events: seq<Event>, k: nat)
    requires 0 < capacity
    ensures IsRun(states, events) && k + 1 == |events| && Disconnects(states[k], events[k])
    ensures events[k] == if peek then TryCheck else OpenCheck
    ensures states[k + 1].receiver.Idle? && states[k + 1].queue == [r]
  {
    states, events := PopNothing(capacity, peek);
    var s := Opened(capacity).(receiver := if peek then Peeking else Trying(Empty, false, false));
    states, events := SenderLeaves(states, events, s, r);
    var t := LastWords(s, r)[4];
    var e := if peek then TryCheck else OpenCheck;
    var u := if peek then t.(receiver := Idle) else Left(t, true);
    Extend(states, events, t, e, u);
    k := |events|;
    states, events := states + [u], events + [e];
  }

  // Page wakes.

  /** How many page wakes the steps before `k` have stored. */
  function PageWakes(events: seq<Event>): nat {
    if events == [] then 0
    else PageWakes(events[..|events| - 1]) + if events[|events| - 1].PageStore? then 1 else 0
  }

  /** How many times `receive` has answered for a page wake in the first `k` steps. */
  function PageAnswers(states: seq<State>, events: seq<Event>, k: nat): nat
    requires k <= |events| < |states|
  {
    if k == 0 then 0
    else PageAnswers(states, events, k - 1) + if events[k - 1].PageSwap? && states[k - 1].page then 1 else 0
  }

  lemma PageAt(states: seq<State>, events: seq<Event>, k: nat)
    requires IsRun(states, events) && k < |events|
    ensures var s, e, t := states[k], events[k], states[k + 1];
      t.page <==> e.PageStore? || (s.page && !e.PageSwap?)
  {
    StepAt(states, events, k);
  }

  /** Every answer for a page wake uses one up, and a page wake stays until it is answered. */
  lemma {:induction false} PageWakesCounted(states: seq<State>, events: seq<Event>, k: nat)
    requires IsRun(states, events) && k <= |events|
    ensures PageAnswers(states, events, k) + (if states[k].page then 1 else 0) <= PageWakes(events[..k])
    ensures forall j :: 0 <= j < k && events[j].PageStore? && (forall m :: j < m < k ==> !events[m].PageSwap?) ==>
      states[k].page
  {
    if k == 0 {
    } else {
      PageWakesCounted(states, events, k - 1);
      PageAt(states, events, k - 1);
      assert events[..k][..k - 1] == events[..k - 1];
    }
  }

  /** A receiver that is neither parked nor held up by the sender's lock can go on. */
  lemma ReceiverGoesOn(s: State) returns (e: Event, t: State)
    requires !s.receiver.Dropped? && !Locked(s)
    requires Waits(s.receiver) ==> !s.receiver.stage.Parked?
    ensures NextReceiver(s, e, t)
  {
    match s.receiver
    case Idle => e, t := Arm, s.(receiver := Trying(Armed, s.permit, false), permit := false);
    case Peeking => e, t := TryCheck, s.(receiver := Idle);
    case Draining =>
      e := Drain;
      t := if s.queue == [] then s.(receiver := Dropped)
           else s.(queue := s.queue[1..], abandoned := s.abandoned + [s.queue[0]]);
    case Trying(stage, enabled, notified) =>
      match stage
      case Armed =>
        e := Pop(false);
        t := if s.queue != []
             then Left(s, false).(queue := s.queue[1..], received := s.received + [s.queue[0]])
             else s.(receiver := s.receiver.(stage := Empty), seen := |s.accepted|);
      case Empty =>
        e := OpenCheck;
        t := if s.producerOpen then s.(receiver := s.receiver.(stage := Open)) else Left(s, true);
      case Open =>
        e := PageSwap;
        t := if s.page then Left(s, true).(page := false) else s.(receiver := s.receiver.(stage := Parked));
      case Parked => e, t := Arm, s.(receiver := Trying(Armed, s.permit, false), permit := false);
  }

  // The same operations on the object, each as its caller runs it.

  datatype SendResult = Sent | Full | NoReceiver

  datatype ReceiveResult = Got(request: Request) | NothingYet | NoSender

  class Channel {
    const capacity: nat
    var queue: seq<Request>
    var producerOpen: bool
    var consumerOpen: bool
    var permit: bool
    ghost var accepted: seq<Request>
    ghost var received: seq<Request>
    ghost var abandoned: seq<Request>

    ghost predicate Valid()
      reads this
    {
      |queue| <= capacity && accepted == received + abandoned + queue && (abandoned != [] ==> !consumerOpen)
    }

    constructor (capacity: nat)
      ensures Valid() && this.capacity == capacity && accepted == [] && producerOpen && consumerOpen
    {
      this.capacity := capacity;
      queue, producerOpen, consumerOpen, permit := [], true, true, false;
      accepted, received, abandoned := [], [], [];
    }

    method TrySend(request: Request) returns (result: SendResult)
      requires Valid()
      modifies this
      ensures Valid() && received == old(received) && abandoned == old(abandoned)
      ensures producerOpen == old(producerOpen) && consumerOpen == old(consumerOpen)
      ensures result ==
        if !old(consumerOpen) then NoReceiver else if |old(queue)| == capacity then Full else Sent
      ensures accepted == if result.Sent? then old(accepted) + [request] else old(accepted)
      ensures result.Sent? ==> permit
    {
      if !consumerOpen {
        return NoReceiver;
      }
      if |queue| >= capacity {
        return Full;
      }
      queue := queue + [request];
      accepted := accepted + [request];
      permit := true;
      return Sent;
    }

    /** Whatever the sender may do while the receiver is between two operations. */
    method SenderActs()
      requires Valid()
      modifies this
      ensures Valid() && received == old(received) && abandoned == old(abandoned) && consumerOpen == old(consumerOpen)
      ensures old(accepted) <= accepted
      ensures !old(producerOpen) ==> !producerOpen && accepted == old(accepted)
    {
      var count: nat :| 0 <= count;
      for i := 0 to count
        invariant Valid() && received == old(received) && abandoned == old(abandoned)
        invariant consumerOpen == old(consumerOpen) && old(accepted) <= accepted
        invariant !old(producerOpen) ==> !producerOpen && accepted == old(accepted)
      {
        if producerOpen {
          if * {
            DropSender();
          } else {
            var request: Request := *;
            var _ := TrySend(request);
          }
        }
      }
    }

    /** The pop and the look at the open flag are two operations, and the sender may act between them: Disconnected
        promises an empty queue only if the sender had gone before the call. */
    method TryRecv() returns (result: ReceiveResult)
      requires Valid() && consumerOpen
      modifies this
      ensures Valid() && abandoned == old(abandoned) && consumerOpen
      ensures if |old(received)| < |old(accepted)| then
                && result == Got(old(accepted)[|old(received)|]) && accepted == old(accepted)
                && received == accepted[..|old(received)| + 1]
              else
                && result == (if producerOpen then NothingYet else NoSender) && received == old(received)
                && old(accepted) <= accepted && queue == accepted[|old(accepted)|..]
                && (!old(producerOpen) ==> result == NoSender && queue == [])
    {
      if queue != [] {
        result := Got(queue[0]);
        received := received + [queue[0]];
        queue := queue[1..];
        return;
      }
      SenderActs();
      if producerOpen {
        return NothingYet;
      }
      return NoSender;
    }

    method DropSender()
      requires Valid()
      modifies this`producerOpen, this`permit
      ensures Valid() && !producerOpen && permit
    {
      producerOpen := false;
      permit := true;
    }

    /** The receiver's `Drop`: every request it had not received is abandoned. */
    method DropReceiver()
      requires Valid() && consumerOpen
      modifies this
      ensures Valid() && !consumerOpen && queue == []
      ensures accepted == old(accepted) && received == old(received) && accepted == received + abandoned
    {
      consumerOpen := false;
      while queue != []
        invariant Valid() && !consumerOpen && accepted == old(accepted) && received == old(received)
        decreases |queue|
      {
        abandoned := abandoned + [queue[0]];
        assert queue == [queue[0]] + queue[1..];
        queue := queue[1..];
      }
    }
  }
}
