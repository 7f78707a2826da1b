/** `run_persistence` and `record_durable_snapshot` (cookie_store.rs) as the code runs them: one writer owns the
    table, the first error and the due generation. Whatever it does is a run of writer steps of `CookiePersistence`,
    so what is proved of those runs holds of the code. Producers may act between `Pick` and `Perform`: each speaks of
    any protocol state that looks like the objects at that moment. */
module CookieWriter {
  import opened Wrappers
  import opened Utf8Syntax
  import opened RowStore
  import opened CookiePersistence
  import opened CookieGuarantees

  /** At most one stored permit. */
  class Notify {
    var permit: bool

    constructor ()
      ensures !permit
    {
      permit := false;
    }

    method NotifyOne()
      modifies this
      ensures permit
    {
      permit := true;
    }

    /** Takes the permit, or finds that it would have to wait. */
    method Poll() returns (ready: bool)
      modifies this
      ensures ready == old(permit) && !permit
    {
      ready := permit;
      permit := false;
    }
  }

  /** Where a turn of the loop leaves the writer. */
  datatype Status = Running | Waiting | Finished

  /** The texts are Rust strings. */
  predicate IsText(snapshot: Option<Snapshot>) { snapshot.Some? ==> WellFormed(snapshot.value.text) }

  predicate AllText(p: Pending) {
    IsText(p.slot) && forall i :: 0 <= i < |p.ring| ==> IsText(p.ring[i].snapshot)
  }

  predicate ActionText(a: Action) {
    match a
    case Run(command) => IsText(command.snapshot)
    case Write(snapshot) => WellFormed(snapshot.text)
    case _ => true
  }

  lemma PickedText(p: Pending, due: Option<nat>)
    requires AllText(p)
    ensures AllText(Picked(p, due)) && ActionText(Choice(p, due))
  {
  }

  class Writer {
    const table: Table
    const shared: PendingPersistence
    const changed: Notify
    var firstError: Option<string>
    var due: Option<nat>

    constructor (table: Table, shared: PendingPersistence, changed: Notify)
      ensures this.table == table && this.shared == shared && this.changed == changed
      ensures firstError.None? && due.None?
    {
      this.table, this.shared, this.changed := table, shared, changed;
      firstError, due := None, None;
    }

    /** The protocol state looks like these objects. */
    ghost predicate Shows(s: State)
      reads this, table, shared, changed
    {
      && s.rows == table.rows && (s.failed <==> firstError.Some?) && s.due == due
      && s.pending == shared.View() && s.permit == changed.permit
    }

    /** There is no new error unless an operation on the table has failed. */
    ghost predicate Blameless(before: Option<string>, failures: nat)
      reads this, table
    {
      failures <= table.failures && (firstError == before || failures < table.failures)
    }

    /** A table that was healthy and settled answers Ok. */
    ghost predicate AnswersWell(before: Option<string>, failures: nat, unsettled: nat, events: seq<Event>)
      reads this, table
    {
      && unsettled <= table.unsettled && Blameless(before, failures)
      && (before.None? && table.failures == failures && table.unsettled == unsettled ==>
            forall i :: 0 <= i < |events| && events[i].Answer? ==> events[i].ok)
    }

    /** Keeps the first error of all writes; a write that fails may leave the table half changed. */
    method RecordDurableSnapshot(snapshot: Option<Snapshot>, ghost s: State) returns (ghost e: Event, ghost t: State)
      requires Shows(s) && IsText(snapshot) && s.writer.Performing? && Recording(s.writer) == snapshot
      requires snapshot.None? ==> s.writer.action.Run?
      modifies this`firstError, table`rows, table`failures
      ensures Blameless(old(firstError), old(table.failures))
      ensures NextWriter(s, e, t) && t.writer == AfterRecord(s.writer)
      ensures t.rows == table.rows && (t.failed <==> firstError.Some?) && (e.Skip? || e.Store?)
      ensures old(firstError).Some? ==> firstError == old(firstError)
    {
      if snapshot.None? {
        e, t := Skip, s.(writer := AfterRecord(s.writer));
        return;
      }
      var text: RustString := snapshot.value.text;
      var outcome, slices := table.ApplyDurableSnapshot(text);
      if firstError.None? && outcome.Failed? {
        firstError := Some(outcome.message);
      }
      e := Store(snapshot.value.generation, outcome.Done?);
      t := s.(writer := AfterRecord(s.writer), stored := snapshot.value, rows := table.rows,
              due := if AfterRecord(s.writer).Picking? then None else s.due, failed := s.failed || outcome.Failed?);
    }

    /** A command: its snapshot is recorded, then the table settles, then the answer is given. */
    method RunCommand(command: Command, ghost s: State)
      returns (ok: bool, ghost states: seq<State>, ghost events: seq<Event>)
      requires Shows(s) && s.writer == Performing(Run(command)) && IsText(command.snapshot)
      modifies this, table
      ensures IsWriterRun(states, events) && states[0] == s && |events| == 2
      ensures Shows(states[2]) && states[2].writer == (if command.close then Stopped else Picking)
      ensures ok <==> firstError.None? && table.unsettled == old(table.unsettled)
      ensures events[1] == Answer(|s.answers|, ok) && !events[0].Answer?
      ensures Blameless(old(firstError), old(table.failures)) && old(table.unsettled) <= table.unsettled
    {
      ghost var e, t := RecordDurableSnapshot(command.snapshot, s);
      RecordKeeps(s, e, t);
      var settled := table.Settle();
      ok := firstError.None? && settled;
      due := None;
      ghost var u := Answered(t, command, ok);
      WriterTwo(s, e, t, Answer(|s.answers|, ok), u);
      states, events := [s, t, u], [e, Answer(|s.answers|, ok)];
    }

    method RunWrite(snapshot: Snapshot, ghost s: State) returns (ghost states: seq<State>, ghost events: seq<Event>)
      requires Shows(s) && s.writer == Performing(Write(snapshot)) && WellFormed(snapshot.text)
      modifies this, table
      ensures IsWriterRun(states, events) && states[0] == s && |events| == 1 && !events[0].Answer?
      ensures Shows(states[1]) && states[1].writer == Picking && Blameless(old(firstError), old(table.failures))
      ensures table.unsettled == old(table.unsettled)
    {
      ghost var e, t := RecordDurableSnapshot(Some(snapshot), s);
      RecordKeeps(s, e, t);
      due := None;
      WriterOne(s, e, t);
      states, events := [s, t], [e];
    }

    /** The debounce: cut short by a notification, or run out. A permit need not win against the timer. */
    method RunDebounce(generation: nat, timely: bool, ghost s: State)
      returns (ghost states: seq<State>, ghost events: seq<Event>)
      requires Shows(s) && s.writer == Performing(Debounce(generation))
      modifies this`due, changed
      ensures IsWriterRun(states, events) && states[0] == s && |events| == 1 && !events[0].Answer?
      ensures Shows(states[1]) && states[1].writer == Picking
      ensures due == if timely && old(changed.permit) then None else Some(generation)
    {
      var notified := false;
      if timely {
        notified := changed.Poll();
      }
      due := if notified then None else Some(generation);
      ghost var e := if notified then Notified else Timeout;
      ghost var t := s.(writer := Picking, permit := changed.permit, due := due);
      WriterOne(s, e, t);
      states, events := [s, t], [e];
    }

    /** The wait for a notification, which may not have come yet. */
    method RunWait(ghost s: State) returns (ready: bool, ghost states: seq<State>, ghost events: seq<Event>)
      requires Shows(s) && s.writer == Performing(Wait)
      modifies changed
      ensures IsWriterRun(states, events) && states[0] == s && Shows(states[|events|])
      ensures ready == old(changed.permit)
      ensures if ready then states[|events|].writer == Picking && events == [Notified] else events == [] && Blocked(s)
    {
      ready := changed.Poll();
      if ready {
        ghost var t := s.(writer := Picking, permit := false);
        WriterOne(s, Notified, t);
        states, events := [s, t], [Notified];
      } else {
        states, events := [s], [];
      }
    }

    /** The choice under the publication lock is the pick step. */
    method Pick(ghost s: State) returns (action: Action, ghost t: State)
      requires Shows(s) && s.writer.Picking? && AllText(s.pending)
      modifies shared
      ensures NextWriter(s, Event.Pick, t) && Shows(t) && t.writer == Performing(action)
      ensures AllText(t.pending) && ActionText(action)
    {
      PickedText(s.pending, s.due);
      action := shared.Pick(due);
      t := s.(pending := Picked(s.pending, s.due), writer := Performing(action));
    }

    /** What the loop does with the action it picked, whatever producers have done since. */
    method Perform(action: Action, ghost s: State)
      returns (status: Status, ghost states: seq<State>, ghost events: seq<Event>)
      requires Shows(s) && s.writer == Performing(action) && ActionText(action)
      modifies this, table, changed
      ensures IsWriterRun(states, events) && states[0] == s && Shows(states[|events|])
      ensures AnswersWell(old(firstError), old(table.failures), old(table.unsettled), events)
      ensures states[|events|].pending == s.pending
      ensures match status
        case Running => states[|events|].writer == Picking
        case Waiting => action == Wait && Blocked(states[|events|])
        case Finished => states[|events|].writer == Stopped
    {
      match action
      case Run(command) =>
        var ok;
        ok, states, events := RunCommand(command, s);
        status := if command.close then Finished else Running;
      case Write(snapshot) =>
        states, events := RunWrite(snapshot, s);
        status := Running;
      case Debounce(generation) =>
        var timely := *;
        states, events := RunDebounce(generation, timely, s);
        status := Running;
      case Wait =>
        var ready;
        ready, states, events := RunWait(s);
        status := if ready then Running else Waiting;
      case Close =>
        ghost var t := s.(writer := Stopped);
        WriterOne(s, CloseTable, t);
        states, events := [s, t], [CloseTable];
        status := Finished;
    }

    /** One turn of the loop. */
    method Turn(ghost s: State) returns (status: Status, ghost states: seq<State>, ghost events: seq<Event>)
      requires Shows(s) && s.writer.Picking? && AllText(s.pending)
      modifies this, table, shared, changed
      ensures IsWriterRun(states, events) && states[0] == s && Shows(states[|events|])
      ensures AnswersWell(old(firstError), old(table.failures), old(table.unsettled), events)
      ensures AllText(states[|events|].pending) && events != []
      ensures match status
        case Running => states[|events|].writer == Picking
        case Waiting => Blocked(states[|events|])
        case Finished => states[|events|].writer == Stopped
    {
      var action;
      ghost var t;
      action, t := Pick(s);
      ghost var rest, more;
      status, rest, more := Perform(action, t);
      WriterOne(s, Event.Pick, t);
      WriterConcat([s, t], [Event.Pick], rest, more);
      states, events := [s] + rest, [Event.Pick] + more;
      assert [s, t][..1] == [s];
    }

    /** The loop, with producers quiet: it comes to an end within the measure, stopped or waiting, with everything
        accepted answered and, unless a write has failed, the table holding the last published text. Over a table
        that neither fails nor stays unsettled every answer is Ok. */
    method RunPersistence(ghost s: State) returns (ghost states: seq<State>, ghost events: seq<Event>)
      requires Shows(s) && s.writer.Picking? && AllText(s.pending) && Inv(s) && s.unnotified == 0
      modifies this, table, shared, changed
      ensures IsWriterRun(states, events) && states[0] == s && |events| <= Measure(s)
      ensures Shows(states[|events|]) && Blocked(states[|events|])
      ensures AnswersWell(old(firstError), old(table.failures), old(table.unsettled), events)
      ensures shared.ring == [] && shared.slot.None?
      ensures |states[|events|].answers| == |states[|events|].accepted|
      ensures firstError.None? ==> Read(table.rows) == s.published.text
    {
      var status := Running;
      states, events := [s], [];
      while status.Running?
        invariant IsWriterRun(states, events) && states[0] == s && Shows(states[|events|])
        invariant AllText(states[|events|].pending)
        invariant AnswersWell(old(firstError), old(table.failures), old(table.unsettled), events)
        invariant if status.Running? then states[|events|].writer == Picking else Blocked(states[|events|])
        decreases Measure(s) - |events|, status.Running?
      {
        ghost var rest, more;
        status, rest, more := Turn(states[|events|]);
        WriterConcat(states, events, rest, more);
        states, events := states[..|events|] + rest, events + more;
        WriterRunBound(states, events, |events|);
      }
      WriterRunBound(states, events, |events|);
      BlockedIsDone(states[|events|]);
    }
  }

  lemma WriterConcat(states: seq<State>, events: seq<Event>, rest: seq<State>, more: seq<Event>)
    requires IsWriterRun(states, events) && IsWriterRun(rest, more) && rest[0] == states[|events|]
    ensures IsWriterRun(states[..|events|] + rest, events + more)
  {
    var s, e := states[..|events|] + rest, events + more;
    forall i | 0 <= i < |e| ensures IsWriterStep(s, e, i) {
      if i < |events| {
        assert IsWriterStep(states, events, i);
      } else {
        assert IsWriterStep(rest, more, i - |events|);
      }
    }
  }

  function Answered(t: State, command: Command, ok: bool): State {
    t.(writer := if command.close then Stopped else Picking, due := None, answers := t.answers + [ok])
  }

  lemma RecordKeeps(s: State, e: Event, t: State)
    requires NextWriter(s, e, t) && (e.Skip? || e.Store?)
    ensures t.answers == s.answers && t.pending == s.pending && t.permit == s.permit
    ensures t.due == if e.Store? && t.writer.Picking? then None else s.due
  {
  }

  lemma WriterOne(s: State, e: Event, t: State)
    requires NextWriter(s, e, t)
    ensures IsWriterRun([s, t], [e])
  {
    assert IsWriterStep([s, t], [e], 0);
  }

  lemma WriterTwo(s: State, e: Event, t: State, f: Event, u: State)
    requires NextWriter(s, e, t) && NextWriter(t, f, u)
    ensures IsWriterRun([s, t, u], [e, f])
  {
    assert IsWriterStep([s, t, u], [e, f], 0) && IsWriterStep([s, t, u], [e, f], 1);
  }
}
