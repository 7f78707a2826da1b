/** The cookie persistence protocol (cookie_store.rs): mutators publish whole-jar snapshots under a gate,
    flush and close requests travel through a bounded ring, and one writer picks its next action under the
    publication lock and performs it outside.

    Each lock region and each await is one step. A run interleaves any number of mutators, flushers and
    notifiers with the writer. */
module CookiePersistence {
  import opened Wrappers
  import opened Utf8Syntax
  import opened RowStore

  /** The text of a durable jar; `RowStore` cuts it at UTF-8 character boundaries. */
  type Text = seq<Byte>

  const RING_CAPACITY: nat := 128

  /** A published jar, numbered by the generation its `enqueue` produced. */
  datatype Snapshot = Snapshot(text: Text, generation: nat)

  /** `promised` is the last text published when the request was made, or what the table read as at the start. */
  datatype Command = Command(snapshot: Option<Snapshot>, close: bool, promised: Text)

  /** What the publication mutex guards. */
  datatype Pending = Pending(ring: seq<Command>, slot: Option<Snapshot>, generation: nat, open: bool)

  datatype Action = Run(command: Command) | Write(snapshot: Snapshot) | Debounce(generation: nat) | Wait | Close

  // The lock regions.

  function Enqueued(p: Pending, text: Text): Pending {
    p.(generation := p.generation + 1, slot := Some(Snapshot(text, p.generation + 1)))
  }

  predicate Accepts(p: Pending) {
    p.open && |p.ring| < RING_CAPACITY
  }

  function Requested(p: Pending, close: bool, promised: Text): Pending {
    p.(ring := p.ring + [Command(p.slot, close, promised)], slot := None, open := p.open && !close)
  }

  function Dropped(p: Pending): Pending {
    p.(open := false)
  }

  function Choice(p: Pending, due: Option<nat>): Action {
    if p.ring != [] then Run(p.ring[0])
    else if p.slot.Some? && (!p.open || due == Some(p.generation)) then Write(p.slot.value)
    else if !p.open then Close
    else if p.slot.Some? then Debounce(p.generation)
    else Wait
  }

  function Picked(p: Pending, due: Option<nat>): Pending {
    match Choice(p, due)
    case Run(_) => if p.ring != [] then p.(ring := p.ring[1..]) else p
    case Write(_) => p.(slot := None)
    case _ => p
  }

  /** `CookiePersistence` and the writer's view of it, field by field. */
  class PendingPersistence {
    var ring: seq<Command>
    var slot: Option<Snapshot>
    var generation: nat
    var open: bool

    ghost function View(): Pending
      reads this
    {
      Pending(ring, slot, generation, open)
    }

    constructor ()
      ensures View() == Pending([], None, 0, true)
    {
      ring, slot, generation, open := [], None, 0, true;
    }

    method Enqueue(text: Text) returns (ok: bool)
      modifies this
      ensures ok == old(open)
      ensures View() == if ok then Enqueued(old(View()), text) else old(View())
    {
      if !open {
        return false;
      }
      generation := generation + 1;
      slot := Some(Snapshot(text, generation));
      return true;
    }

    method Request(close: bool, promised: Text) returns (ok: bool)
      modifies this
      ensures ok == Accepts(old(View()))
      ensures View() == if ok then Requested(old(View()), close, promised) else old(View())
    {
      if !open || |ring| >= RING_CAPACITY {
        return false;
      }
      ring := ring + [Command(slot, close, promised)];
      slot := None;
      if close {
        open := false;
      }
      return true;
    }

    method DropHandle()
      modifies this
      ensures View() == Dropped(old(View()))
    {
      open := false;
    }

    /** The writer's choice, made under the publication lock. */
    method Pick(due: Option<nat>) returns (action: Action)
      modifies this
      ensures action == Choice(old(View()), due)
      ensures View() == Picked(old(View()), due)
    {
      if ring != [] {
        action := Run(ring[0]);
        ring := ring[1..];
      } else if slot.Some? && (!open || due == Some(generation)) {
        action := Write(slot.value);
        slot := None;
      } else if !open {
        action := Close;
      } else if slot.Some? {
        action := Debounce(generation);
      } else {
        action := Wait;
      }
    }
  }

  // The protocol as a step relation.

  /** `Changed`: a mutator holds the gate, has written the jar and has not published it yet. */
  datatype Gate = Free | Held | Changed

  datatype Writer = Picking | Performing(action: Action) | Answering(command: Command) | Stopped

  /** `permit` is the stored permit of `Notify`; `unnotified` counts threads that have left the lock and not
      yet called `notify_one`. `published` is the last snapshot enqueued, `stored` the last one whose write
      was attempted, `accepted` the commands taken by the ring so far, in order; `answers[i]` says whether
      command `i` was answered Ok. Before the first publication `published` and `stored` stand for what the table
      reads as. */
  datatype State = State(
    jar: Text, gate: Gate, pending: Pending, permit: bool, unnotified: nat,
    writer: Writer, due: Option<nat>, rows: Rows, failed: bool,
    accepted: seq<Command>, answers: seq<bool>, published: Snapshot, stored: Snapshot)

  datatype Event =
    | LockGate
    | UnlockGate
    | ChangeJar
    | Publish(text: Text)
    | PublishRefused
    | Request(id: nat, close: bool)
    | RequestRefused(close: bool)
    | DropHandle
    | Notify
    | Pick
    | Skip
    | Store(generation: nat, ok: bool)
    | Answer(id: nat, ok: bool)
    | Timeout
    | Notified
    | CloseTable

  predicate IsWriterEvent(e: Event) {
    e.Pick? || e.Skip? || e.Store? || e.Answer? || e.Timeout? || e.Notified? || e.CloseTable?
  }

  /** `open_table` leaves any table and any jar: a text that does not parse gives an empty jar and stays where it
      is, and so does the empty text of a fresh table. */
  ghost predicate Init(s: State) {
    && s.gate == Free && s.pending == Pending([], None, 0, true)
    && !s.permit && s.unnotified == 0 && s.writer == Picking && s.due == None
    && !s.failed && s.accepted == [] && s.answers == []
    && s.published == s.stored == Snapshot(Read(s.rows), 0)
  }

  /** `request` needs the gate for a flush; `close` consumes the store, so nobody else holds the gate. */
  predicate MayRequest(s: State, close: bool) {
    if close then s.gate.Free? else s.gate.Held?
  }

  /** The snapshot the writer is about to record, if any. */
  function Recording(w: Writer): Option<Snapshot> {
    match w
    case Performing(Run(command)) => command.snapshot
    case Performing(Write(snapshot)) => Some(snapshot)
    case _ => None
  }

  function AfterRecord(w: Writer): Writer {
    match w
    case Performing(Run(command)) => Answering(command)
    case _ => Picking
  }

  ghost predicate NextProducer(s: State, e: Event, t: State) {
    match e
    case LockGate => s.gate.Free? && t == s.(gate := Held)
    case UnlockGate => s.gate.Held? && t == s.(gate := Free)
    case ChangeJar => s.gate.Held? && t == s.(gate := Changed, jar := t.jar)
    case Publish(text) =>
      && s.gate.Changed? && s.pending.open && text == s.jar
      && t == s.(gate := Held, pending := Enqueued(s.pending, text), unnotified := s.unnotified + 1,
                 published := Snapshot(text, s.pending.generation + 1))
    case PublishRefused => s.gate.Changed? && !s.pending.open && t == s.(gate := Held)
    case Request(id, close) =>
      && MayRequest(s, close) && Accepts(s.pending) && id == |s.accepted|
      && t == s.(pending := Requested(s.pending, close, s.published.text), unnotified := s.unnotified + 1,
                 accepted := s.accepted + [Command(s.pending.slot, close, s.published.text)])
    case RequestRefused(close) => MayRequest(s, close) && !Accepts(s.pending) && t == s
    case DropHandle =>
      && s.gate.Free?
      && t == s.(pending := Dropped(s.pending), unnotified := s.unnotified + 1)
    case Notify => 0 < s.unnotified && t == s.(permit := true, unnotified := s.unnotified - 1)
    case _ => false
  }

  ghost predicate NextWriter(s: State, e: Event, t: State) {
    match e
    case Pick =>
      && s.writer.Picking?
      && t == s.(pending := Picked(s.pending, s.due), writer := Performing(Choice(s.pending, s.due)))
    case Skip => // `record_durable_snapshot` without a snapshot
      && s.writer.Performing? && s.writer.action.Run? && s.writer.action.command.snapshot.None?
      && t == s.(writer := AfterRecord(s.writer))
    case Store(generation, ok) =>
      && Recording(s.writer).Some? && generation == Recording(s.writer).value.generation
      && t == s.(writer := AfterRecord(s.writer), stored := Recording(s.writer).value,
                 due := if AfterRecord(s.writer).Picking? then None else s.due,
                 rows := t.rows, failed := s.failed || !ok)
      && (ok ==> exists slices ::
            IsSlicing(Recording(s.writer).value.text, slices) && Applied(s.rows, slices, t.rows))
    case Answer(id, ok) => // Err when a write has failed or when the table's own flush or close fails
      && s.writer.Answering? && id == |s.answers| && (ok ==> !s.failed)
      && t == s.(writer := if s.writer.command.close then Stopped else Picking, due := None,
                 answers := s.answers + [ok])
    case Timeout =>
      && s.writer.Performing? && s.writer.action.Debounce?
      && t == s.(writer := Picking, due := Some(s.writer.action.generation))
    case Notified =>
      && s.permit && s.writer.Performing? && (s.writer.action.Wait? || s.writer.action.Debounce?)
      && t == s.(writer := Picking, permit := false, due := if s.writer.action.Wait? then s.due else None)
    case CloseTable => s.writer == Performing(Close) && t == s.(writer := Stopped)
    case _ => false
  }

  ghost predicate Next(s: State, e: Event, t: State) {
    NextProducer(s, e, t) || NextWriter(s, e, t)
  }

  /** Step `i`, under a name: a run is unfolded only where this name is used. */
  ghost predicate IsStep(states: seq<State>, events: seq<Event>, i: nat)
    requires |states| == |events| + 1 && i < |events|
  {
    Next(states[i], events[i], states[i + 1])
  }

  ghost predicate IsRun(states: seq<State>, events: seq<Event>) {
    && |states| == |events| + 1
    && Init(states[0])
    && forall i :: 0 <= i < |events| ==> IsStep(states, events, i)
  }

  ghost predicate IsWriterStep(states: seq<State>, events: seq<Event>, i: nat)
    requires |states| == |events| + 1 && i < |events|
  {
    NextWriter(states[i], events[i], states[i + 1])
  }

  ghost predicate IsWriterRun(states: seq<State>, events: seq<Event>) {
    && |states| == |events| + 1
    && forall i :: 0 <= i < |events| ==> IsWriterStep(states, events, i)
  }

  lemma StepAt(states: seq<State>, events: seq<Event>, i: nat)
    requires IsRun(states, events) && i < |events|
    ensures Next(states[i], events[i], states[i + 1])
  {
    assert IsStep(states, events, i);
  }

  // The invariant.

  /** From the table outwards (`base`, then the ring, then the slot) the generations strictly increase, the
      outermost snapshot is the last one published, and each ring command, once recorded, leaves the text
      that was promised to its requester. */
  ghost predicate Chain(base: Snapshot, ring: seq<Command>, slot: Option<Snapshot>, last: Snapshot)
    decreases |ring|
  {
    if ring == [] then
      match slot
      case None => base == last
      case Some(snapshot) => base.generation < snapshot.generation && snapshot == last
    else
      var base' := Newer(base, ring[0].snapshot);
      && (ring[0].snapshot.Some? ==> base.generation < base'.generation)
      && ring[0].promised == base'.text
      && Chain(base', ring[1..], slot, last)
  }

  function Newer(base: Snapshot, snapshot: Option<Snapshot>): Snapshot {
    if snapshot.Some? then snapshot.value else base
  }

  lemma {:induction false} ChainPublish(
    base: Snapshot, ring: seq<Command>, slot: Option<Snapshot>, last: Snapshot, next: Snapshot)
    requires Chain(base, ring, slot, last) && last.generation < next.generation
    ensures Chain(base, ring, Some(next), next)
    decreases |ring|
  {
    if ring == [] {
    } else {
      ChainPublish(Newer(base, ring[0].snapshot), ring[1..], slot, last, next);
    }
  }

  lemma {:induction false} ChainRequest(
    base: Snapshot, ring: seq<Command>, slot: Option<Snapshot>, last: Snapshot, close: bool)
    requires Chain(base, ring, slot, last)
    ensures Chain(base, ring + [Command(slot, close, last.text)], None, last)
    decreases |ring|
  {
    if ring == [] {
      assert (ring + [Command(slot, close, last.text)])[1..] == [];
    } else {
      ChainRequest(Newer(base, ring[0].snapshot), ring[1..], slot, last, close);
      assert (ring + [Command(slot, close, last.text)])[1..] == ring[1..] + [Command(slot, close, last.text)];
    }
  }

  /** What the table will hold once the action in progress is recorded. */
  function Base(s: State): Snapshot {
    Newer(s.stored, Recording(s.writer))
  }

  function Current(w: Writer): seq<Command> {
    match w
    case Performing(Run(command)) => [command]
    case Answering(command) => [command]
    case _ => []
  }

  /** The writer is bound to stop: it is closing, or runs the close command. */
  predicate Ending(w: Writer) {
    || w.Stopped? || w == Performing(Close)
    || (Current(w) != [] && Current(w)[0].close)
  }

  /** A close command is the last thing ever accepted. */
  predicate ClosesLast(s: State) {
    && (forall i :: 0 <= i < |s.pending.ring| && s.pending.ring[i].close ==>
          i == |s.pending.ring| - 1 && !s.pending.open && s.pending.slot.None?)
    && (Ending(s.writer) ==> s.pending.ring == [] && s.pending.slot.None? && !s.pending.open)
  }

  predicate HasWork(p: Pending) {
    p.ring != [] || p.slot.Some? || !p.open
  }

  /** The writer, the ring and the slot in publication order. */
  ghost predicate Ordered(s: State) {
    && Chain(Base(s), s.pending.ring, s.pending.slot, s.published)
    && s.published.generation == s.pending.generation
    && (Recording(s.writer).Some? ==> s.stored.generation < Recording(s.writer).value.generation)
    && (Current(s.writer) != [] ==> Current(s.writer)[0].promised == Base(s).text)
    && (s.pending.open && !s.gate.Changed? && 0 < s.pending.generation ==> s.jar == s.published.text)
  }

  ghost predicate Stores(s: State) {
    !s.failed ==> Read(s.rows) == s.stored.text
  }

  /** First in, first answered. */
  ghost predicate Queued(s: State) {
    && |s.answers| <= |s.accepted|
    && s.accepted[|s.answers|..] == Current(s.writer) + s.pending.ring
  }

  predicate Woken(s: State) {
    s.writer == Performing(Wait) && HasWork(s.pending) ==> s.permit || 0 < s.unnotified
  }

  /** A debounce is started only for a generation that is not due yet. */
  predicate Undue(s: State) {
    && (s.due.Some? ==> s.due.value <= s.pending.generation)
    && (s.writer.Performing? && s.writer.action.Debounce? ==>
          && s.writer.action.generation <= s.pending.generation
          && (s.due.Some? ==> s.due.value < s.writer.action.generation))
  }

  ghost predicate Inv(s: State) {
    Ordered(s) && Stores(s) && Queued(s) && ClosesLast(s) && Woken(s) && Undue(s)
  }

  lemma OrderedWriter(s: State, e: Event, t: State)
    requires Ordered(s) && NextWriter(s, e, t)
    ensures Ordered(t)
  {
  }

  lemma OrderedProducer(s: State, e: Event, t: State)
    requires Ordered(s) && NextProducer(s, e, t)
    ensures Ordered(t)
  {
    match e
    case Publish(text) =>
      ChainPublish(Base(s), s.pending.ring, s.pending.slot, s.published, t.published);
    case Request(id, close) =>
      ChainRequest(Base(s), s.pending.ring, s.pending.slot, s.published, close);
    case _ =>
  }

  lemma StoresNext(s: State, e: Event, t: State)
    requires Stores(s) && Next(s, e, t)
    ensures Stores(t)
  {
    if e.Store? && e.ok {
      var slices :| IsSlicing(Recording(s.writer).value.text, slices) && Applied(s.rows, slices, t.rows);
      AppliedReadsBack(s.rows, Recording(s.writer).value.text, slices, t.rows);
    }
  }

  lemma QueuedProducer(s: State, e: Event, t: State)
    requires Queued(s) && NextProducer(s, e, t)
    ensures Queued(t)
  {
    match e
    case Request(id, close) =>
      var command := Command(s.pending.slot, close, s.published.text);
      assert t.accepted[|s.answers|..] == s.accepted[|s.answers|..] + [command];
    case _ =>
  }

  lemma QueuedWriter(s: State, e: Event, t: State)
    requires Queued(s) && NextWriter(s, e, t)
    ensures Queued(t)
  {
    match e
    case Pick =>
      if s.pending.ring != [] {
        assert s.pending.ring == [s.pending.ring[0]] + s.pending.ring[1..];
      }
    case Answer(id, ok) =>
      assert s.accepted[|t.answers|..] == s.accepted[|s.answers|..][1..];
    case _ =>
  }

  lemma ClosesLastNext(s: State, e: Event, t: State)
    requires ClosesLast(s) && Next(s, e, t)
    ensures ClosesLast(t)
  {
  }

  lemma WokenNext(s: State, e: Event, t: State)
    requires Woken(s) && Next(s, e, t)
    ensures Woken(t)
  {
  }

  lemma UndueNext(s: State, e: Event, t: State)
    requires Undue(s) && Next(s, e, t)
    ensures Undue(t)
  {
  }

  lemma InvNext(s: State, e: Event, t: State)
    requires Inv(s) && Next(s, e, t)
    ensures Inv(t)
  {
    StoresNext(s, e, t);
    if NextProducer(s, e, t) {
      OrderedProducer(s, e, t);
      QueuedProducer(s, e, t);
    } else {
      OrderedWriter(s, e, t);
      QueuedWriter(s, e, t);
    }
    ClosesLastNext(s, e, t);
    WokenNext(s, e, t);
    UndueNext(s, e, t);
  }

  lemma {:induction false} InvRun(states: seq<State>, events: seq<Event>, k: nat)
    requires IsRun(states, events) && k < |states|
    ensures Inv(states[k])
  {
    if k == 0 {
      assert Inv(states[0]);
    } else {
      InvRun(states, events, k - 1);
      StepAt(states, events, k - 1);
      InvNext(states[k - 1], events[k - 1], states[k]);
    }
  }
}
