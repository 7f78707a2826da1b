/** What the cookie persistence protocol promises, over every run of `CookiePersistence`. */
module CookieGuarantees {
  import opened Wrappers
  import opened RowStore
  import opened CookiePersistence

  // Flush barrier.

  lemma FailureStep(s: State, e: Event, t: State)
    requires Next(s, e, t) && !t.failed
    ensures !s.failed && !(e.Store? && !e.ok)
  {
  }

  lemma {:induction false} NoFailureYet(states: seq<State>, events: seq<Event>, k: nat)
    requires IsRun(states, events) && k < |states| && !states[k].failed
    ensures forall i :: 0 <= i < k ==> !(events[i].Store? && !events[i].ok)
  {
    if k == 0 {
    } else {
      assert !states[k - 1].failed && !(events[k - 1].Store? && !events[k - 1].ok) by {
        StepAt(states, events, k - 1);
        FailureStep(states[k - 1], events[k - 1], states[k]);
      }
      NoFailureYet(states, events, k - 1);
    }
  }

  /** A request appends its command, with the last text published; no other step accepts any. */
  predicate Accepting(s: State, e: Event, t: State) {
    if e.Request? then
      && e.id == |s.accepted| && |t.accepted| == e.id + 1
      && t.accepted[..e.id] == s.accepted && t.accepted[e.id].close == e.close
      && t.accepted[e.id].promised == s.published.text
    else t.accepted == s.accepted
  }

  lemma AcceptingAt(states: seq<State>, events: seq<Event>, k: nat)
    requires IsRun(states, events) && k < |events|
    ensures Accepting(states[k], events[k], states[k + 1])
  {
    StepAt(states, events, k);
  }

  /** Every accepted command was accepted by exactly one request step, which recorded the last text published by
      then. */
  lemma {:induction false} RequestOf(states: seq<State>, events: seq<Event>, k: nat, id: nat) returns (j: nat)
    requires IsRun(states, events) && k < |states| && id < |states[k].accepted|
    ensures j < k && events[j] == Request(id, states[k].accepted[id].close)
    ensures states[k].accepted[id].promised == states[j].published.text
    ensures forall i :: 0 <= i < k && events[i].Request? && events[i].id == id ==> i == j
    decreases k
  {
    assert k > 0 by {
      assert states[0].accepted == [];
    }
    AcceptingAt(states, events, k - 1);
    EarlierRequests(states, events, k - 1);
    if id < |states[k - 1].accepted| {
      j := RequestOf(states, events, k - 1, id);
      assert states[k].accepted[id] == states[k - 1].accepted[id];
    } else {
      j := k - 1;
    }
  }

  lemma {:induction false} EarlierRequests(states: seq<State>, events: seq<Event>, k: nat)
    requires IsRun(states, events) && k < |states|
    ensures forall i :: 0 <= i < k && events[i].Request? ==> events[i].id < |states[k].accepted|
  {
    if k == 0 {
    } else {
      EarlierRequests(states, events, k - 1);
      AcceptingAt(states, events, k - 1);
    }
  }

  /** A command answered Ok is the oldest unanswered one, and the table reads back as it was promised. */
  lemma AnsweredAt(states: seq<State>, events: seq<Event>, k: nat, id: nat)
    requires IsRun(states, events) && k < |events| && events[k] == Answer(id, true)
    ensures id < |states[k].accepted| && Read(states[k].rows) == states[k].accepted[id].promised
    ensures states[k + 1].rows == states[k].rows && !states[k].failed
  {
    InvRun(states, events, k);
    StepAt(states, events, k);
    assert states[k].accepted[id..][0] == states[k].writer.command;
  }

  lemma JarAt(states: seq<State>, events: seq<Event>, k: nat)
    requires IsRun(states, events) && k < |events|
    requires states[k + 1].pending.open && states[k + 1].pending.generation == 0 && !states[k + 1].gate.Changed?
    ensures states[k].pending.open && states[k].pending.generation == 0 && !states[k].gate.Changed?
    ensures states[k].jar == states[k + 1].jar
  {
    StepAt(states, events, k);
  }

  /** Until something is published the jar is the one the store was opened with. */
  lemma {:induction false} UnpublishedJar(states: seq<State>, events: seq<Event>, k: nat)
    requires IsRun(states, events) && k < |states|
    requires states[k].pending.open && states[k].pending.generation == 0 && !states[k].gate.Changed?
    ensures states[k].jar == states[0].jar
  {
    if k == 0 {
    } else {
      JarAt(states, events, k - 1);
      UnpublishedJar(states, events, k - 1);
    }
  }

  lemma {:induction false} GenerationCounts(states: seq<State>, events: seq<Event>, k: nat)
    requires IsRun(states, events) && k < |states|
    ensures 0 < states[k].pending.generation <==> exists i :: 0 <= i < k && events[i].Publish?
  {
    if k == 0 {
    } else {
      GenerationCounts(states, events, k - 1);
      GenerationAt(states, events, k - 1);
    }
  }

  /** The jar at a request against the text promised to it: they differ only before the first publication, when
      the table the store was opened on reads otherwise than its jar. */
  lemma PromiseIsJar(states: seq<State>, events: seq<Event>, j: nat)
    requires IsRun(states, events) && j < |events| && events[j].Request?
    ensures states[j].published.text == states[j].jar <==>
      (exists i :: 0 <= i < j && events[i].Publish?) || Read(states[0].rows) == states[0].jar
  {
    GenerationCounts(states, events, j);
    RequestOpen(states, events, j);
    InvRun(states, events, j);
    if states[j].pending.generation == 0 {
      UnpublishedJar(states, events, j);
      PublishedIsLast(states, events, j);
      NothingPublished(Read(states[0].rows), events[..j]);
    }
  }

  lemma RequestOpen(states: seq<State>, events: seq<Event>, j: nat)
    requires IsRun(states, events) && j < |events| && events[j].Request?
    ensures states[j].pending.open && !states[j].gate.Changed?
  {
    StepAt(states, events, j);
  }

  /** A flush or close answered Ok: the table reads back exactly the last text published before the request, no
      write failed before, and that text is the jar of the moment of the request if and only if something had been
      published by then or the store was opened on a table that read as its jar. */
  lemma FlushBarrier(states: seq<State>, events: seq<Event>, k: nat, id: nat) returns (j: nat)
    requires IsRun(states, events) && k < |events| && events[k] == Answer(id, true)
    ensures j < k && events[j].Request? && events[j].id == id
    ensures forall i :: 0 <= i < k && events[i].Request? && events[i].id == id ==> i == j
    ensures Read(states[k].rows) == LastPublished(Read(states[0].rows), events[..j])
    ensures Read(states[k].rows) == states[j].jar <==>
      (exists i :: 0 <= i < j && events[i].Publish?) || Read(states[0].rows) == states[0].jar
    ensures states[k + 1].rows == states[k].rows
    ensures forall i :: 0 <= i < k ==> !(events[i].Store? && !events[i].ok)
  {
    AnsweredAt(states, events, k, id);
    j := RequestOf(states, events, k, id);
    PublishedIsLast(states, events, j);
    PromiseIsJar(states, events, j);
    NoFailureYet(states, events, k);
  }

  // The condition is needed: a table that is not the jar's is flushed as it is.

  ghost predicate Ends(states: seq<State>, events: seq<Event>, s: State) {
    IsRun(states, events) && states[|events|] == s
  }

  lemma Extend(states: seq<State>, events: seq<Event>, s: State, e: Event, t: State)
    requires Ends(states, events, s) && Next(s, e, t)
    ensures Ends(states + [t], events + [e], t)
  {
    forall i | 0 <= i < |events| + 1 ensures IsStep(states + [t], events + [e], i) {
      assert i < |events| ==> IsStep(states, events, i);
    }
  }

  function Opened(jar: Text, rows: Rows): State {
    State(jar, Free, Pending([], None, 0, true), false, 0, Picking, None, rows, false, [], [],
          Snapshot(Read(rows), 0), Snapshot(Read(rows), 0))
  }

  /** The flush of a store just opened, up to its answer. */
  lemma FlushUntouched(jar: Text, rows: Rows) returns (states: seq<State>, events: seq<Event>, s: State)
    ensures Ends(states, events, s) && s.rows == rows && !s.failed && s.answers == [] && s.writer.Answering?
    ensures |events| == 4 && events[1] == Request(0, false) && states[1].jar == jar
    ensures states[0] == Opened(jar, rows)
  {
    var command := Command(None, false, Read(rows));
    var s0 := Opened(jar, rows);
    states, events := [s0], [];
    var s1 := s0.(gate := Held);
    Extend(states, events, s0, LockGate, s1);
    states, events := states + [s1], events + [LockGate];
    var s2 := s1.(pending := Requested(s1.pending, false, Read(rows)), unnotified := 1, accepted := [command]);
    Extend(states, events, s1, Request(0, false), s2);
    states, events := states + [s2], events + [Request(0, false)];
    var s3 := s2.(pending := Picked(s2.pending, None), writer := Performing(Run(command)));
    Extend(states, events, s2, Pick, s3);
    states, events := states + [s3], events + [Pick];
    s := s3.(writer := Answering(command));
    Extend(states, events, s3, Skip, s);
    states, events := states + [s], events + [Skip];
  }

  /** Whatever table and jar a store is opened with, a flush before any mutation is answered Ok with the table as it
      was: where a torn text did not parse, it is still there. */
  lemma TornTableFlushed(jar: Text, rows: Rows) returns (states: seq<State>, events: seq<Event>, k: nat)
    ensures IsRun(states, events) && k == 4 && |events| == 5 && events[4] == Answer(0, true)
    ensures states[0].jar == jar && states[0].rows == rows
    ensures events[1] == Request(0, false) && states[1].jar == jar && states[k + 1].rows == rows
  {
    var s;
    states, events, s := FlushUntouched(jar, rows);
    var t := s.(writer := if s.writer.command.close then Stopped else Picking, due := None, answers := [true]);
    Extend(states, events, s, Answer(0, true), t);
    k := |events|;
    states, events := states + [t], events + [Answer(0, true)];
  }

  // Order of writes.

  lemma StoredStep(s: State, e: Event, t: State)
    requires Ordered(s) && Next(s, e, t)
    ensures s.stored.generation <= t.stored.generation
  {
  }

  lemma StoredAt(states: seq<State>, events: seq<Event>, k: nat)
    requires IsRun(states, events) && k < |events|
    ensures states[k].stored.generation <= states[k + 1].stored.generation
  {
    InvRun(states, events, k);
    StepAt(states, events, k);
    StoredStep(states[k], events[k], states[k + 1]);
  }

  lemma {:induction false} StoredGrows(states: seq<State>, events: seq<Event>, j: nat, k: nat)
    requires IsRun(states, events) && j <= k < |states|
    ensures states[j].stored.generation <= states[k].stored.generation
    decreases k - j
  {
    if j == k {
    } else {
      StoredGrows(states, events, j, k - 1);
      StoredAt(states, events, k - 1);
    }
  }

  /** The writer never writes an older snapshot after a newer one. */
  lemma WritesInOrder(states: seq<State>, events: seq<Event>, j: nat, k: nat)
    requires IsRun(states, events) && j < k < |events| && events[j].Store? && events[k].Store?
    ensures events[j].generation < events[k].generation
  {
    StoredGrows(states, events, j + 1, k);
    StepAt(states, events, j);
    StepAt(states, events, k);
    InvRun(states, events, k);
  }

  // Drain on stop.

  function LastPublished(initial: Text, events: seq<Event>): Text {
    if events == [] then initial
    else if events[|events| - 1].Publish? then events[|events| - 1].text
    else LastPublished(initial, events[..|events| - 1])
  }

  lemma LastPublishedSnoc(initial: Text, events: seq<Event>, e: Event)
    ensures LastPublished(initial, events + [e]) == if e.Publish? then e.text else LastPublished(initial, events)
  {
    assert (events + [e])[..|events|] == events;
  }

  lemma {:induction false} NothingPublished(initial: Text, events: seq<Event>)
    requires forall i :: 0 <= i < |events| ==> !events[i].Publish?
    ensures LastPublished(initial, events) == initial
    decreases |events|
  {
    if events == [] {
    } else {
      NothingPublished(initial, events[..|events| - 1]);
    }
  }

  lemma PublishedAt(states: seq<State>, events: seq<Event>, k: nat)
    requires IsRun(states, events) && k < |events|
    ensures states[k + 1].published.text ==
      if events[k].Publish? then events[k].text else states[k].published.text
  {
    StepAt(states, events, k);
  }

  lemma {:induction false} PublishedIsLast(states: seq<State>, events: seq<Event>, k: nat)
    requires IsRun(states, events) && k < |states|
    ensures states[k].published.text == LastPublished(Read(states[0].rows), events[..k])
  {
    if k == 0 {
      assert events[..0] == [];
    } else {
      PublishedIsLast(states, events, k - 1);
      PublishedAt(states, events, k - 1);
      LastPublishedSnoc(Read(states[0].rows), events[..k - 1], events[k - 1]);
      assert events[..k] == events[..k - 1] + [events[k - 1]];
    }
  }

  /** Once the writer has stopped, whichever of the three ways it took, every accepted command is answered,
      nothing is left in the ring or the slot, and an error-free table holds the last published jar, or what it held
      at the start when nothing was published. */
  lemma DrainOnStop(states: seq<State>, events: seq<Event>, k: nat)
    requires IsRun(states, events) && k < |states| && states[k].writer.Stopped?
    ensures |states[k].answers| == |states[k].accepted|
    ensures states[k].pending.ring == [] && states[k].pending.slot.None? && !states[k].pending.open
    ensures !states[k].failed ==> Read(states[k].rows) == LastPublished(Read(states[0].rows), events[..k])
  {
    InvRun(states, events, k);
    assert |states[k].accepted[|states[k].answers|..]| == 0;
    PublishedIsLast(states, events, k);
  }

  // Progress.

  /** Weights make the order lexicographic: ring, then slot, then stored permit, then whether the debounce of
      the current generation is still to come, then the place in the loop. */
  function Measure(s: State): nat {
    var p := s.pending;
    10 * |p.ring| + (if p.slot.Some? then 10 else 0) + (if s.permit then 10 else 0)
    + (if p.open && p.slot.Some? && s.due != Some(p.generation) then 5 else 0)
    + match s.writer
      case Stopped => 0
      case Picking => 2
      case Answering(_) => 8
      case Performing(Run(_)) => 9
      case Performing(Write(_)) => 8
      case Performing(Debounce(g)) => if p.open && p.slot.Some? && g == p.generation then 1 else 4
      case Performing(Wait) => 1
      case Performing(Close) => 1
  }

  lemma WriterStepDecreases(s: State, e: Event, t: State)
    requires Undue(s) && NextWriter(s, e, t)
    ensures Measure(t) < Measure(s)
  {
  }

  predicate Blocked(s: State) {
    s.writer.Stopped? || (s.writer == Performing(Wait) && !s.permit)
  }

  /** A writer that is not blocked has a step. */
  lemma WriterCanStep(s: State) returns (e: Event, t: State)
    requires !Blocked(s)
    ensures IsWriterEvent(e) && NextWriter(s, e, t)
  {
    match s.writer
    case Picking =>
      e := Pick;
      t := s.(pending := Picked(s.pending, s.due), writer := Performing(Choice(s.pending, s.due)));
    case Answering(command) =>
      e := Answer(|s.answers|, false);
      t := s.(writer := if command.close then Stopped else Picking, due := None, answers := s.answers + [false]);
    case Performing(action) =>
      if Recording(s.writer).Some? {
        e := Store(Recording(s.writer).value.generation, false);
        t := s.(writer := AfterRecord(s.writer), stored := Recording(s.writer).value, failed := true,
                due := if AfterRecord(s.writer).Picking? then None else s.due);
      } else {
        match action
        case Run(command) => e := Skip; t := s.(writer := Answering(command));
        case Debounce(g) => e := Timeout; t := s.(writer := Picking, due := Some(g));
        case Wait => e := Notified; t := s.(writer := Picking, permit := false);
        case Close => e := CloseTable; t := s.(writer := Stopped);
      }
  }

  lemma WriterOnly(s: State, e: Event, t: State)
    requires Inv(s) && NextWriter(s, e, t)
    ensures Inv(t) && Measure(t) < Measure(s) && t.unnotified == s.unnotified && t.published == s.published
  {
    InvNext(s, e, t);
    WriterStepDecreases(s, e, t);
  }

  /** What one writer step does to the bound. */
  ghost predicate Shrinks(s: State, t: State) {
    (Inv(s) ==> Inv(t)) && Measure(t) < Measure(s) && t.unnotified == s.unnotified && t.published == s.published
  }

  lemma WriterAt(states: seq<State>, events: seq<Event>, k: nat)
    requires IsWriterRun(states, events) && k < |events| && Inv(states[k])
    ensures Shrinks(states[k], states[k + 1])
  {
    assert IsWriterStep(states, events, k);
    WriterOnly(states[k], events[k], states[k + 1]);
  }

  lemma {:induction false} WriterRunBound(states: seq<State>, events: seq<Event>, k: nat)
    requires IsWriterRun(states, events) && k < |states| && Inv(states[0])
    ensures k + Measure(states[k]) <= Measure(states[0])
    ensures Inv(states[k])
    ensures states[k].unnotified == states[0].unnotified && states[k].published == states[0].published
  {
    if k == 0 {
    } else {
      WriterRunBound(states, events, k - 1);
      WriterAt(states, events, k - 1);
    }
  }

  /** Producers quiet: from any reachable state the writer takes at most `Measure` further steps, and where it
      can go no further nothing is pending and the error-free table holds the last published jar. */
  lemma WriterProgress(
    states: seq<State>, events: seq<Event>, more: seq<State>, moreEvents: seq<Event>)
    requires IsRun(states, events) && IsWriterRun(more, moreEvents)
    requires more[0] == states[|events|] && more[0].unnotified == 0
    ensures |moreEvents| <= Measure(more[0])
    ensures var last := more[|moreEvents|];
      Blocked(last) ==>
        && last.pending.ring == [] && last.pending.slot.None? && |last.answers| == |last.accepted|
        && (!last.failed ==> Read(last.rows) == LastPublished(Read(states[0].rows), events))
  {
    InvRun(states, events, |events|);
    WriterRunBound(more, moreEvents, |moreEvents|);
    PublishedIsLast(states, events, |events|);
    assert events[..|events|] == events;
    if Blocked(more[|moreEvents|]) {
      BlockedIsDone(more[|moreEvents|]);
    }
  }

  /** A writer that can go no further, with nobody about to notify it, has nothing left to do. */
  lemma BlockedIsDone(s: State)
    requires Inv(s) && Blocked(s) && s.unnotified == 0
    ensures s.pending.ring == [] && s.pending.slot.None? && |s.answers| == |s.accepted|
    ensures !s.failed ==> Read(s.rows) == s.published.text
  {
    assert |s.accepted[|s.answers|..]| == 0;
  }

  // Debounce.

  lemma GenerationAt(states: seq<State>, events: seq<Event>, k: nat)
    requires IsRun(states, events) && k < |events|
    ensures states[k + 1].pending.generation == states[k].pending.generation + if events[k].Publish? then 1 else 0
  {
    StepAt(states, events, k);
  }

  lemma {:induction false} GenerationGrows(states: seq<State>, events: seq<Event>, j: nat, k: nat)
    requires IsRun(states, events) && j <= k < |states|
    ensures states[j].pending.generation <= states[k].pending.generation
    decreases k - j
  {
    if j == k {
    } else {
      GenerationGrows(states, events, j, k - 1);
      GenerationAt(states, events, k - 1);
    }
  }

  ghost predicate DebounceBegins(states: seq<State>, events: seq<Event>, i: nat, g: nat)
    requires |states| == |events| + 1 && i < |events|
  {
    events[i].Pick? && states[i + 1].writer == Performing(Debounce(g)) && states[i].pending.generation == g
  }

  lemma DebounceAt(states: seq<State>, events: seq<Event>, k: nat, g: nat)
    requires IsRun(states, events) && k < |events| && states[k + 1].writer == Performing(Debounce(g))
    ensures states[k].writer == Performing(Debounce(g)) || DebounceBegins(states, events, k, g)
  {
    StepAt(states, events, k);
  }

  lemma DueAt(states: seq<State>, events: seq<Event>, k: nat, g: nat)
    requires IsRun(states, events) && k < |events| && states[k + 1].due == Some(g)
    ensures (events[k].Timeout? && states[k].writer == Performing(Debounce(g)))
         || (!events[k].Timeout? && states[k].due == Some(g))
  {
    StepAt(states, events, k);
  }

  lemma {:induction false} DebounceStart(states: seq<State>, events: seq<Event>, k: nat, g: nat) returns (i: nat)
    requires IsRun(states, events) && k < |states| && states[k].writer == Performing(Debounce(g))
    ensures i < k && DebounceBegins(states, events, i, g)
    ensures forall m :: i < m <= k ==> states[m].writer == Performing(Debounce(g))
    decreases k
  {
    assert k > 0;
    DebounceAt(states, events, k - 1, g);
    if states[k - 1].writer == Performing(Debounce(g)) {
      i := DebounceStart(states, events, k - 1, g);
    } else {
      i := k - 1;
    }
  }

  lemma {:induction false} DueSince(states: seq<State>, events: seq<Event>, k: nat, g: nat)
    returns (i: nat, j: nat)
    requires IsRun(states, events) && k < |states| && states[k].due == Some(g)
    ensures i < j < k && DebounceBegins(states, events, i, g) && events[j].Timeout?
    ensures forall m :: i < m <= j ==> states[m].writer == Performing(Debounce(g))
    decreases k
  {
    assert k > 0;
    DueAt(states, events, k - 1, g);
    if !events[k - 1].Timeout? {
      i, j := DueSince(states, events, k - 1, g);
    } else {
      j := k - 1;
      i := DebounceStart(states, events, j, g);
    }
  }

  lemma DueWritten(states: seq<State>, events: seq<Event>, k: nat, x: Snapshot)
    requires IsRun(states, events) && k < |events| && events[k].Pick? && states[k].pending.open
    requires states[k + 1].writer == Performing(Write(x))
    ensures x.generation == states[k].pending.generation && states[k].due == Some(x.generation)
  {
    InvRun(states, events, k);
    StepAt(states, events, k);
  }

  /** While the store is open the timer path writes only a snapshot that sat in the slot for one whole
      debounce wait: no mutation was published from the start of the wait until the write was picked. */
  lemma DebouncedWrite(states: seq<State>, events: seq<Event>, k: nat, x: Snapshot) returns (i: nat, j: nat)
    requires IsRun(states, events) && k < |events| && events[k].Pick? && states[k].pending.open
    requires states[k + 1].writer == Performing(Write(x))
    ensures i < j < k && DebounceBegins(states, events, i, x.generation) && events[j].Timeout?
    ensures forall m :: i < m <= j ==> states[m].writer == Performing(Debounce(x.generation))
    ensures forall m :: i <= m < k ==> !events[m].Publish?
  {
    DueWritten(states, events, k, x);
    i, j := DueSince(states, events, k, x.generation);
    forall m | i <= m < k ensures !events[m].Publish? {
      GenerationGrows(states, events, i, m);
      GenerationAt(states, events, m);
      GenerationGrows(states, events, m + 1, k);
    }
  }

  // What is taken and what is refused.

  /** A request is refused exactly when the store is closed or 128 commands wait; one that is taken goes behind the
      others with what the slot held, and a close closes. */
  lemma RequestOutcome(s: State, e: Event, t: State)
    requires Next(s, e, t) && (e.Request? || e.RequestRefused?)
    ensures e.RequestRefused? <==> !s.pending.open || |s.pending.ring| >= 128
    ensures e.RequestRefused? ==> t == s
    ensures e.Request? ==>
      && |t.pending.ring| == |s.pending.ring| + 1 && t.pending.ring[..|s.pending.ring|] == s.pending.ring
      && t.pending.ring[|s.pending.ring|].snapshot == s.pending.slot
      && t.pending.ring[|s.pending.ring|].close == e.close
      && t.pending.slot.None? && t.pending.open == !e.close && t.jar == s.jar && t.rows == s.rows
  {
  }

  /** A publication is refused exactly when the store is closed; one that is taken replaces what the slot held. */
  lemma PublishOutcome(s: State, e: Event, t: State)
    requires Next(s, e, t) && (e.Publish? || e.PublishRefused?)
    ensures e.PublishRefused? <==> !s.pending.open
    ensures e.Publish? ==>
      && t.pending.slot.Some? && t.pending.slot.value.text == s.jar
      && t.pending.slot.value.generation == t.pending.generation == s.pending.generation + 1
      && t.pending.ring == s.pending.ring && t.pending.open
  {
  }
}
