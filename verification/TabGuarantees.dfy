/** What the tab machine promises, over every run of `TabLifecycle`. */
module TabGuarantees {
  import opened Wrappers
  import opened SessionHistory
  import opened TabLifecycle

  // Stale loads.

  /** Over every run the generations of mounted pages strictly increase. */
  lemma MountsIncrease(states: seq<State>, events: seq<Event>, k: nat)
    requires IsRun(states, events) && k < |states|
    ensures forall i, j :: 0 <= i < j < |states[k].mounts| ==> states[k].mounts[i] < states[k].mounts[j]
  {
    InvRun(states, events, k);
  }

  predicate StartsLoad(s: State, t: State) {
    exists g :: g in t.inFlight && g !in s.inFlight
  }

  predicate Commits(s: State, e: Event) {
    && e.Handle? && e.message.Sleep? && e.able
    && MaySleep(s.tab, e.message.generation, e.message.epoch, e.message.automatic, s.now)
  }

  /** The steps that make a load obsolete: a newer load, a committed sleep, a restore timeout. */
  predicate Supersedes(s: State, e: Event, t: State) {
    || StartsLoad(s, t)
    || Commits(s, e)
    || (e.Handle? && e.message.RestoreTimeout? && MayTimeOut(s.tab, e.message.generation))
  }

  lemma SupersedingRaises(s: State, e: Event, t: State)
    requires Inv(s) && Next(s, e, t) && Supersedes(s, e, t)
    ensures s.tab.generation < t.tab.generation
  {
    if Commits(s, e) {
      FreezeCommits(s.tab, e.navigations, s.now, s.delay);
    } else {
      InvNext(s, e, t);
      if e.Load? {
        InvLoad(s, e.generation, e.error, e.scripts, e.document, e.url, e.slow);
      }
    }
  }

  /** A load in flight when a superseding step is taken is never mounted, by that step or any later one. */
  lemma StaleLoadNeverMounts(states: seq<State>, events: seq<Event>, j: nat, k: nat, g: nat)
    requires IsRun(states, events) && j <= k < |events|
    requires Supersedes(states[j], events[j], states[j + 1])
    requires g in states[j].inFlight
    ensures !Mounts(states[k], states[k + 1], g)
  {
    InvRun(states, events, j);
    InvRun(states, events, k);
    StepAt(states, events, j);
    StepAt(states, events, k);
    SupersedingRaises(states[j], events[j], states[j + 1]);
    InvNext(states[k], events[k], states[k + 1]);
    assert Mounts(states[k], states[k + 1], g) ==> states[k + 1].mounts[|states[k].mounts|] == g;
    if j < k {
      NumbersGrow(states, events, j + 1, k);
    }
    if events[k].Load? {
      var e := events[k];
      InvLoad(states[k], e.generation, e.error, e.scripts, e.document, e.url, e.slow);
    }
  }

  // Sleep timer.

  /** `Commits` is what it says, whatever the freeze handlers do. */
  lemma CommitDiscards(s: State, e: Event, t: State)
    requires Inv(s) && Next(s, e, t)
    ensures Commits(s, e) <==> !s.tab.life.phase.Discarding? && t.tab.life.phase.Discarding?
    ensures Commits(s, e) ==> t.tab.life.release == Some(s.receipts) && t.receipts == s.receipts + 1
  {
    match e
    case Command(command) => InvCommand(s, command);
    case Handle(message, able, navigations, preview) =>
      var s' := s.(messages := s.messages - multiset{message});
      if message.Sleep? {
        InvSleep(s', message, able, navigations, preview);
      } else {
        InvMessage(s', message, able, navigations, preview);
      }
    case Load(generation, error, scripts, document, url, slow) =>
      InvLoad(s, generation, error, scripts, document, url, slow);
    case _ =>
  }

  /** An automatic sleep commits only for a hidden tab, a full delay after the recorded `hiddenAt`. */
  lemma AutomaticSleepIsDue(states: seq<State>, events: seq<Event>, k: nat)
    requires IsRun(states, events) && k < |events|
    requires Commits(states[k], events[k]) && events[k].message.automatic
    ensures !states[k].tab.life.visible
    ensures SaturatingAdd(states[k].tab.life.hiddenAt, states[k].delay) <= states[k].now
  {
    InvRun(states, events, k);
  }

  /** The steps that void a queued sleep: a visibility change, a navigation, a load started. */
  predicate Voids(s: State, e: Event, t: State) {
    || (e.Handle? && e.message.Visibility? && SeesVisibility(s.tab, e.message.page, e.message.visible))
    || (e.Command? && e.command.Go?)
    || StartsLoad(s, t)
  }

  lemma VoidingRaises(s: State, e: Event, t: State)
    requires Inv(s) && Next(s, e, t) && Voids(s, e, t)
    ensures s.tab.life.epoch < t.tab.life.epoch
  {
    if StartsLoad(s, t) {
      InvNext(s, e, t);
      if e.Load? {
        InvLoad(s, e.generation, e.error, e.scripts, e.document, e.url, e.slow);
      }
    } else if e.Command? {
      InvNavigate(s, e.command.request);
    }
  }

  /** A sleep message that is queued before a voiding step never commits after it. */
  lemma VoidedSleepNeverCommits(states: seq<State>, events: seq<Event>, j: nat, k: nat, m: Message)
    requires IsRun(states, events) && j < k < |events|
    requires m.Sleep? && m in states[j].messages
    requires Voids(states[j], events[j], states[j + 1])
    requires events[k].Handle? && events[k].message == m
    ensures !Commits(states[k], events[k])
  {
    InvRun(states, events, j);
    StepAt(states, events, j);
    VoidingRaises(states[j], events[j], states[j + 1]);
    NumbersGrow(states, events, j + 1, k);
  }

  // Discard barrier.

  /** The commands that ask for a page. A move in the history that is not possible asks for nothing. */
  predicate Asks(s: State, c: Command) {
    match c
    case GoBack => CanGoBack(s.tab.history)
    case GoForward => CanGoForward(s.tab.history)
    case AskSleep => false
    case _ => true
  }

  /** Nothing starts, nothing mounts, and the barrier and any pending request stay. */
  ghost predicate Holding(s: State, t: State) {
    && t.tab.life.phase.Discarding? && t.tab.mounted.None? && t.tab.life.release == s.tab.life.release
    && t.mounts == s.mounts && t.inFlight.Keys <= s.inFlight.Keys
    && (s.tab.life.wakeRequested ==> t.tab.life.wakeRequested)
  }

  lemma HoldingSchedule(s: State)
    requires Inv(s) && s.tab.life.phase.Discarding?
    ensures Holding(s, Schedule(s)) && Schedule(s).tab.life.wakeRequested
  {
  }

  lemma HoldingCommand(s: State, c: Command)
    requires Inv(s) && s.tab.life.phase.Discarding?
    ensures Holding(s, Commanded(s, c))
    ensures Asks(s, c) ==> Commanded(s, c).tab.life.wakeRequested
  {
    match c
    case Go(request) => HoldingSchedule(s.(tab := Redirected(s.tab, request)));
    case GoBack => HoldingSchedule(s.(tab := s.tab.(history := Back(s.tab.history))));
    case GoForward => HoldingSchedule(s.(tab := s.tab.(history := Forward(s.tab.history))));
    case SetUserAgent => HoldingSchedule(s);
    case _ =>
  }

  /** The phase a teardown ends in. */
  function AfterRelease(s: State): Phase
    requires Valid(s.tab.history)
  {
    if !s.tab.life.wakeRequested then Sleeping
    else if Replayable(Current(s.tab.history)) then Waking
    else RestoreFailed
  }

  lemma SleeperSchedules(s: State)
    requires Valid(s.tab.history) && s.tab.life.phase.Waking? && s.tab.mounted.None?
    requires Replayable(Current(s.tab.history))
    ensures var t := Schedule(s); t.tab.life.phase.Waking? && t.tab.mounted.None? && t.mounts == s.mounts
  {
  }

  lemma SleeperWakes(s: State)
    requires Valid(s.tab.history) && s.tab.life.phase.Sleeping? && s.tab.life.release.None? && s.tab.mounted.None?
    ensures var t := Wake(s);
      && t.tab.life.phase == (if Replayable(Current(s.tab.history)) then Waking else RestoreFailed)
      && t.tab.mounted.None? && t.mounts == s.mounts
  {
    if Replayable(Current(s.tab.history)) {
      SleeperSchedules(Put(s, Awoken(s.tab)));
    }
  }

  lemma ReleaseEnds(s: State)
    requires Inv(s) && s.tab.life.phase.Discarding?
    ensures var s' := Put(s, ReleasedTab(s.tab));
      var t := if s.tab.life.wakeRequested then Wake(s') else s';
      t.tab.life.phase == AfterRelease(s) && t.tab.mounted.None? && t.mounts == s.mounts
  {
    SleeperWakes(Put(s, ReleasedTab(s.tab)));
  }

  lemma DiscardMessage(s: State, m: Message, able: bool, navigations: seq<Entry>, preview: bool)
    requires Inv(s) && s.tab.life.phase.Discarding?
    ensures var t := MessageHandled(s, m, able, navigations, preview);
      if m.Released? && s.tab.life.release == Some(m.receipt) && m.receipt in s.completed then
        t.tab.life.phase == AfterRelease(s) && t.tab.mounted.None? && t.mounts == s.mounts
      else Holding(s, t)
  {
    if m.Released? && s.tab.life.release == Some(m.receipt) && m.receipt in s.completed {
      ReleaseEnds(s);
    }
  }

  /** One step from a tab that is being discarded. */
  lemma DiscardStep(s: State, e: Event, t: State)
    requires Inv(s) && Next(s, e, t) && s.tab.life.phase.Discarding?
    ensures
      || (Holding(s, t) && (e.Command? && Asks(s, e.command) ==> t.tab.life.wakeRequested))
      || (&& e.Handle? && e.message.Released? && s.tab.life.release == Some(e.message.receipt)
          && e.message.receipt in s.completed
          && t.tab.life.phase == AfterRelease(s) && t.tab.mounted.None? && t.mounts == s.mounts)
  {
    match e
    case Command(command) => HoldingCommand(s, command);
    case Handle(message, able, navigations, preview) =>
      DiscardMessage(s.(messages := s.messages - multiset{message}), message, able, navigations, preview);
    case Load(generation, error, scripts, document, url, slow) =>
      assert generation != s.tab.generation;
    case _ =>
  }

  lemma TeardownBegins(states: seq<State>, events: seq<Event>, i: nat)
    requires IsRun(states, events) && i < |events|
    requires !states[i].tab.life.phase.Discarding? && states[i + 1].tab.life.phase.Discarding?
    ensures Commits(states[i], events[i]) && states[i + 1].tab.life.release == Some(states[i].receipts)
  {
    StepAt(states, events, i);
    InvRun(states, events, i);
    CommitDiscards(states[i], events[i], states[i + 1]);
  }

  lemma TeardownEnds(states: seq<State>, events: seq<Event>, j: nat)
    requires IsRun(states, events) && j < |events|
    requires states[j].tab.life.phase.Discarding? && !states[j + 1].tab.life.phase.Discarding?
    ensures Valid(states[j].tab.history) && states[j + 1].tab.life.phase == AfterRelease(states[j])
    ensures events[j].Handle? && events[j].message.Released?
    ensures states[j].tab.life.release == Some(events[j].message.receipt)
    ensures events[j].message.receipt in states[j].completed
    ensures states[j + 1].mounts == states[j].mounts && states[j + 1].tab.mounted.None?
  {
    StepAt(states, events, j);
    InvRun(states, events, j);
    DiscardStep(states[j], events[j], states[j + 1]);
  }

  /** A whole teardown, from the commit in step `i` to the step `j` that leaves `Discarding`: it is ended by the
      receipt that the commit was given, once that teardown is complete; nothing is mounted meanwhile, and no
      load is started before step `j`; and a page asked for in between is not forgotten. */
  lemma {:induction false} DiscardBarrier(states: seq<State>, events: seq<Event>, i: nat, j: nat)
    requires IsRun(states, events) && i < j < |events|
    requires !states[i].tab.life.phase.Discarding? && !states[j + 1].tab.life.phase.Discarding?
    requires forall k :: i < k <= j ==> states[k].tab.life.phase.Discarding?
    ensures Commits(states[i], events[i])
    ensures events[j].Handle? && events[j].message == Released(states[i].receipts)
    ensures states[i].receipts in states[j].completed
    ensures forall k :: i < k <= j ==> Holding(states[i + 1], states[k])
    ensures states[j + 1].mounts == states[i + 1].mounts && states[j + 1].tab.mounted.None?
    ensures (exists k :: i < k < j && events[k].Command? && Asks(states[k], events[k].command)) ==>
      Valid(states[j].tab.history)
      && states[j + 1].tab.life.phase == if Replayable(Current(states[j].tab.history)) then Waking else RestoreFailed
  {
    TeardownBegins(states, events, i);
    TeardownHolds(states, events, i + 1, j);
    TeardownEnds(states, events, j);
    if k :| i < k < j && events[k].Command? && Asks(states[k], events[k].command) {
      TeardownStep(states, events, k);
      TeardownHolds(states, events, k + 1, j);
    }
  }

  lemma {:induction false} TeardownHolds(states: seq<State>, events: seq<Event>, i: nat, j: nat)
    requires IsRun(states, events) && i <= j < |states|
    requires forall k :: i <= k <= j ==> states[k].tab.life.phase.Discarding?
    ensures forall k :: i <= k <= j ==> Holding(states[i], states[k])
    decreases j - i
  {
    InvRun(states, events, i);
    if i == j {
    } else {
      TeardownHolds(states, events, i, j - 1);
      TeardownStep(states, events, j - 1);
    }
  }

  lemma TeardownStep(states: seq<State>, events: seq<Event>, k: nat)
    requires IsRun(states, events) && k < |events|
    requires states[k].tab.life.phase.Discarding? && states[k + 1].tab.life.phase.Discarding?
    ensures Holding(states[k], states[k + 1])
    ensures events[k].Command? && Asks(states[k], events[k].command) ==> states[k + 1].tab.life.wakeRequested
  {
    InvRun(states, events, k);
    StepAt(states, events, k);
    DiscardStep(states[k], events[k], states[k + 1]);
  }

  // Which history entry a mounted page belongs to.

  /** The load that can still mount was started for the entry on show. */
  ghost predicate Aligned(s: State) {
    s.tab.generation in s.inFlight ==> s.inFlight[s.tab.generation] == s.tab.history.current
  }

  /** Moving to an entry that `schedule_current` refuses to reload, while a load is in flight: the position
      changes and the load is neither aborted nor superseded. */
  predicate Diverts(s: State, e: Event)
    requires Valid(s.tab.history)
  {
    && e.Command? && s.tab.generation in s.inFlight
    && ((e.command.GoBack? && CanGoBack(s.tab.history) && Refuses(s.tab.(history := Back(s.tab.history))))
        || (e.command.GoForward? && CanGoForward(s.tab.history) && Refuses(s.tab.(history := Forward(s.tab.history)))))
  }

  lemma AlignedSchedule(s: State)
    requires Inv(s)
    ensures Starts(s.tab) || s.tab.generation !in s.inFlight ==> Aligned(Schedule(s))
    ensures Aligned(s) ==> Aligned(Schedule(s))
    ensures !Starts(s.tab) ==>
      Schedule(s).tab.generation == s.tab.generation && Schedule(s).inFlight == s.inFlight
      && Schedule(s).tab.history == s.tab.history
  {
  }

  lemma AlignedWake(s: State)
    requires Inv(s) && Aligned(s)
    ensures Aligned(Wake(s))
  {
    InvAwoken(s);
    AlignedSchedule(Put(s, Awoken(s.tab)));
  }

  lemma AlignedNavigate(s: State, request: Entry)
    requires Inv(s)
    ensures Aligned(TabLifecycle.Navigate(s, request))
  {
    var s' := s.(tab := Redirected(s.tab, request));
    assert Inv(s');
    AlignedSchedule(s');
  }

  lemma AlignedMove(s: State, h: History)
    requires Inv(s) && Aligned(s) && Valid(h) && h.current != s.tab.history.current
    ensures var s' := s.(tab := s.tab.(history := h));
      Aligned(Schedule(s')) <==> !(s.tab.generation in s.inFlight && Refuses(s'.tab))
  {
    var s' := s.(tab := s.tab.(history := h));
    assert Inv(s');
    AlignedSchedule(s');
  }

  lemma AlignedCommand(s: State, c: Command)
    requires Inv(s) && Aligned(s)
    ensures Aligned(Commanded(s, c)) <==> !Diverts(s, Command(c))
  {
    match c
    case Go(request) => AlignedNavigate(s, request);
    case GoBack =>
      if CanGoBack(s.tab.history) {
        AlignedMove(s, Back(s.tab.history));
      }
    case GoForward =>
      if CanGoForward(s.tab.history) {
        AlignedMove(s, Forward(s.tab.history));
      }
    case Reload => AlignedWake(s); AlignedSchedule(s);
    case AskSleep =>
    case AskWake => AlignedWake(s);
    case Select(dormant) => AlignedWake(s); AlignedSchedule(s);
    case SetUserAgent => AlignedSchedule(s);
  }

  lemma AlignedMessage(s: State, m: Message, able: bool, navigations: seq<Entry>, preview: bool)
    requires Inv(s) && Aligned(s)
    ensures Aligned(MessageHandled(s, m, able, navigations, preview))
  {
    match m
    case Sleep(_, _, _) => InvSleep(s, m, able, navigations, preview);
    case Released(receipt) => AlignedReleased(s);
    case Painted(page) => AlignedPreview(s);
    case _ =>
  }

  lemma AlignedReleased(s: State)
    requires Inv(s) && Aligned(s)
    ensures var s' := Put(s, ReleasedTab(s.tab)); Aligned(s') && Aligned(Wake(s'))
  {
    var s' := Put(s, ReleasedTab(s.tab));
    assert Inv(s');
    AlignedWake(s');
  }

  lemma AlignedPreview(s: State)
    requires Inv(s) && Aligned(s)
    ensures Aligned(Schedule(s.(tab := s.tab.(life := s.tab.life.(awaitPreview := false)))))
  {
    var s' := s.(tab := s.tab.(life := s.tab.life.(awaitPreview := false)));
    assert Inv(s');
    AlignedSchedule(s');
  }

  lemma {:induction false} AlignedNavigateAll(s: State, requests: seq<Entry>)
    requires Inv(s) && Aligned(s)
    ensures Aligned(NavigateAll(s, requests))
    decreases |requests|
  {
    if requests == [] {
    } else {
      InvNavigate(s, requests[0]);
      AlignedNavigate(s, requests[0]);
      AlignedNavigateAll(TabLifecycle.Navigate(s, requests[0]), requests[1..]);
    }
  }

  lemma AlignedLoad(
    s: State, generation: nat, error: bool, scripts: seq<Entry>, document: nat, url: Option<string>, slow: bool)
    requires Inv(s) && Aligned(s) && generation in s.inFlight
    ensures Aligned(LoadHandled(s, generation, error, scripts, document, url, slow))
  {
    var gone := s.(inFlight := s.inFlight - {generation});
    AlignedNavigateAll(gone, scripts);
    InvNavigateAll(gone, scripts);
  }

  /** Alignment is kept by a step exactly when the step does not divert. */
  lemma AlignedIff(s: State, e: Event, t: State)
    requires Inv(s) && Aligned(s) && Next(s, e, t)
    ensures Aligned(t) <==> !Diverts(s, e)
  {
    match e
    case Command(command) => AlignedCommand(s, command);
    case Handle(message, able, navigations, preview) =>
      AlignedMessage(s.(messages := s.messages - multiset{message}), message, able, navigations, preview);
    case Load(generation, error, scripts, document, url, slow) =>
      AlignedLoad(s, generation, error, scripts, document, url, slow);
    case _ => InvEnvironment(s, e, t);
  }

  lemma {:induction false} AlignedRun(states: seq<State>, events: seq<Event>, k: nat)
    requires IsRun(states, events) && k < |states|
    requires forall i :: 0 <= i < k ==> !(Valid(states[i].tab.history) && Diverts(states[i], events[i]))
    ensures Aligned(states[k])
  {
    if k == 0 {
    } else {
      AlignedRun(states, events, k - 1);
      InvRun(states, events, k - 1);
      StepAt(states, events, k - 1);
      AlignedIff(states[k - 1], events[k - 1], states[k]);
    }
  }

  /** On a run without diversions the URL a load resolved to is written into the entry it was started for. */
  lemma MountResolvesItsEntry(states: seq<State>, events: seq<Event>, k: nat)
    requires IsRun(states, events) && k < |events| && events[k].Load? && events[k].url.Some?
    requires Mounts(states[k], states[k + 1], events[k].generation)
    requires forall i :: 0 <= i < k ==> !(Valid(states[i].tab.history) && Diverts(states[i], events[i]))
    ensures var s, t, g := states[k], states[k + 1], events[k].generation;
      && g in s.inFlight && s.inFlight[g] < |s.tab.history.entries|
      && t.tab.history.entries ==
         s.tab.history.entries[s.inFlight[g] := s.tab.history.entries[s.inFlight[g]].(url := events[k].url.value)]
  {
    InvRun(states, events, k);
    AlignedRun(states, events, k);
    StepAt(states, events, k);
    var e := events[k];
    InvLoad(states[k], e.generation, e.error, e.scripts, e.document, e.url, e.slow);
    assert !Onward(states[k], states[k + 1]);
  }
}
