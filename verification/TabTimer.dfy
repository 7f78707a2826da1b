/** The automatic sleep timer against the clock and the events (tab_lifecycle.rs, `arm_hidden` and the visibility
    message; browser.rs, the mount): when hiding a tab starts the delay, and when a hidden tab has a timer at all. */
module TabTimer {
  import opened Wrappers
  import opened SessionHistory
  import opened TabLifecycle
  import opened TabGuarantees
  import opened TabDiversion

  // The recorded time of hiding.

  /** Neither the clock, nor the delay, nor the recorded time moves. */
  predicate SameClock(s: State, t: State) {
    t.tab.life.hiddenAt == s.tab.life.hiddenAt && t.now == s.now && t.delay == s.delay
  }

  lemma ClockSchedule(s: State)
    requires Valid(s.tab.history)
    ensures SameClock(s, Schedule(s))
  {
  }

  lemma ClockNavigate(s: State, request: Entry)
    requires Valid(s.tab.history)
    ensures SameClock(s, TabLifecycle.Navigate(s, request)) && Valid(TabLifecycle.Navigate(s, request).tab.history)
  {
    ClockSchedule(s.(tab := Redirected(s.tab, request)));
  }

  lemma ClockWake(s: State)
    requires Valid(s.tab.history)
    ensures SameClock(s, Wake(s))
  {
    ClockSchedule(Put(s, Awoken(s.tab)));
  }

  lemma ClockCommand(s: State, c: Command)
    requires Valid(s.tab.history)
    ensures SameClock(s, Commanded(s, c))
  {
    match c
    case Go(request) => ClockNavigate(s, request);
    case GoBack => ClockSchedule(s.(tab := s.tab.(history := Back(s.tab.history))));
    case GoForward => ClockSchedule(s.(tab := s.tab.(history := Forward(s.tab.history))));
    case Reload => ClockWake(s); ClockSchedule(s);
    case AskSleep =>
    case AskWake => ClockWake(s);
    case Select(dormant) => ClockWake(s); ClockSchedule(s);
    case SetUserAgent => ClockSchedule(s);
  }

  lemma {:induction false} ClockNavigateAll(s: State, requests: seq<Entry>)
    requires Valid(s.tab.history)
    ensures SameClock(s, NavigateAll(s, requests))
    ensures NavigateAll(s, requests).tab.life.everLive == s.tab.life.everLive
    decreases |requests|
  {
    if requests == [] {
    } else {
      var next := TabLifecycle.Navigate(s, requests[0]);
      ClockNavigate(s, requests[0]);
      ClockNavigateAll(next, requests[1..]);
      assert NavigateAll(s, requests) == NavigateAll(next, requests[1..]);
    }
  }

  lemma {:induction false} ClockFrozen(t: Tab, navigations: seq<Entry>, now: nat, delay: nat)
    requires Valid(t.history) && (t.life.phase.Freezing? || t.life.phase.Live?)
    ensures Frozen(t, navigations, now, delay).life.hiddenAt == t.life.hiddenAt
    decreases |navigations|
  {
    if navigations == [] {
    } else {
      var f := t.(life := t.life.(phase := Freezing));
      ClockFrozen(Scheduled(Redirected(f, navigations[0]), now, delay), navigations[1..], now, delay);
    }
  }

  /** `e` hides the tab: a visibility message that is for the page on show and finds it visible. */
  predicate Hides(s: State, e: Event) {
    e.Handle? && e.message.Visibility? && !e.message.visible && SeesVisibility(s.tab, e.message.page, false)
  }

  /** The first page of the tab is mounted. */
  predicate FirstMount(s: State, e: Event, t: State) {
    e.Load? && Mounts(s, t, e.generation) && !s.tab.life.everLive
  }

  lemma ClockSleep(s: State, m: Message, able: bool, navigations: seq<Entry>, preview: bool)
    requires Inv(s) && m.Sleep?
    ensures SameClock(s, SleepHandled(s, m, able, navigations, preview))
  {
    if able && MaySleep(s.tab, m.generation, m.epoch, m.automatic, s.now) {
      ClockFrozen(s.tab, navigations, s.now, s.delay);
    }
  }

  lemma ClockReleased(s: State)
    requires Inv(s)
    ensures var s' := Put(s, ReleasedTab(s.tab)); SameClock(s, s') && SameClock(s, Wake(s'))
  {
    ClockWake(Put(s, ReleasedTab(s.tab)));
  }

  lemma ClockPreview(s: State)
    requires Inv(s)
    ensures SameClock(s, Schedule(s.(tab := s.tab.(life := s.tab.life.(awaitPreview := false)))))
  {
    ClockSchedule(s.(tab := s.tab.(life := s.tab.life.(awaitPreview := false))));
  }

  lemma ClockVisibility(s: State, page: Surface, visible: bool)
    requires Valid(s.tab.history) && SeesVisibility(s.tab, page, visible)
    ensures var t := Put(s, VisibilityChanged(s.tab, visible, s.now, s.delay));
      && t.now == s.now && t.delay == s.delay
      && t.tab.life.hiddenAt == if visible then s.tab.life.hiddenAt else s.now
  {
  }

  lemma ClockOther(s: State, m: Message, able: bool, navigations: seq<Entry>, preview: bool)
    requires Inv(s) && !m.Visibility?
    ensures SameClock(s, MessageHandled(s, m, able, navigations, preview))
  {
    if m.Sleep? {
      ClockSleep(s, m, able, navigations, preview);
    } else if m.Released? {
      ClockReleased(s);
    } else if m.Painted? {
      ClockPreview(s);
    }
  }

  lemma ClockMessage(s: State, m: Message, able: bool, navigations: seq<Entry>, preview: bool)
    requires Inv(s)
    ensures var t := MessageHandled(s, m, able, navigations, preview);
      && t.now == s.now && t.delay == s.delay
      && t.tab.life.hiddenAt == if Hides(s, Handle(m, able, navigations, preview)) then s.now else s.tab.life.hiddenAt
  {
    if !m.Visibility? {
      ClockOther(s, m, able, navigations, preview);
    } else if SeesVisibility(s.tab, m.page, m.visible) {
      ClockVisibility(s, m.page, m.visible);
    } else {
      assert MessageHandled(s, m, able, navigations, preview) == s;
    }
  }

  lemma ClockLoad(
    s: State, generation: nat, error: bool, scripts: seq<Entry>, document: nat, url: Option<string>, slow: bool)
    requires Inv(s)
    ensures var t := LoadHandled(s, generation, error, scripts, document, url, slow);
      && t.now == s.now && t.delay == s.delay
      && t.tab.life.hiddenAt ==
           (if t.mounts != s.mounts && !s.tab.life.everLive then s.now else s.tab.life.hiddenAt)
      && (t.mounts != s.mounts ==> t.mounts == s.mounts + [generation])
  {
    var gone := s.(inFlight := s.inFlight - {generation});
    ClockNavigateAll(gone, scripts);
    if s.tab.generation == generation {
      InvNavigateAllMounts(gone, scripts);
    }
  }

  lemma {:induction false} InvNavigateAllMounts(s: State, requests: seq<Entry>)
    requires Valid(s.tab.history)
    ensures NavigateAll(s, requests).mounts == s.mounts
    decreases |requests|
  {
    if requests == [] {
    } else {
      InvNavigateAllMounts(TabLifecycle.Navigate(s, requests[0]), requests[1..]);
    }
  }

  /** The clock goes forward, the delay stays, and the recorded time moves only when the tab is hidden or its first
      page is mounted, and then to the present. */
  predicate Recorded(s: State, e: Event, t: State) {
    && s.now <= t.now && t.delay == s.delay
    && t.tab.life.hiddenAt == if Hides(s, e) || FirstMount(s, e, t) then s.now else s.tab.life.hiddenAt
  }

  lemma RecordedNext(s: State, e: Event, t: State)
    requires Inv(s) && Next(s, e, t)
    ensures Recorded(s, e, t)
  {
    match e
    case Command(command) => ClockCommand(s, command);
    case Handle(message, able, navigations, preview) =>
      ClockMessage(s.(messages := s.messages - multiset{message}), message, able, navigations, preview);
    case Load(generation, error, scripts, document, url, slow) =>
      ClockLoad(s, generation, error, scripts, document, url, slow);
    case _ =>
  }

  lemma RecordedAt(states: seq<State>, events: seq<Event>, k: nat)
    requires IsRun(states, events) && k < |events|
    ensures Recorded(states[k], events[k], states[k + 1])
  {
    InvRun(states, events, k);
    StepAt(states, events, k);
    RecordedNext(states[k], events[k], states[k + 1]);
  }

  /** A recorded time is never put back. */
  lemma {:induction false} RecordedPast(states: seq<State>, events: seq<Event>, k: nat)
    requires IsRun(states, events) && k < |states|
    ensures states[k].tab.life.hiddenAt <= states[k].now
  {
    if k == 0 {
    } else {
      RecordedPast(states, events, k - 1);
      RecordedAt(states, events, k - 1);
    }
  }

  lemma {:induction false} RecordedSince(states: seq<State>, events: seq<Event>, j: nat, k: nat, since: nat)
    requires IsRun(states, events) && j <= k < |states|
    requires since <= states[j].tab.life.hiddenAt && since <= states[j].now
    ensures since <= states[k].tab.life.hiddenAt && since <= states[k].now
    ensures states[k].delay == states[j].delay
    decreases k - j
  {
    if j == k {
    } else {
      RecordedSince(states, events, j, k - 1, since);
      RecordedAt(states, events, k - 1);
      RecordedPast(states, events, k - 1);
    }
  }

  /** In every run an automatic sleep commits only a whole delay after every earlier step that hid the tab, and after
      the mount of its first page. */
  lemma HiddenLongEnough(states: seq<State>, events: seq<Event>, j: nat, k: nat)
    requires IsRun(states, events) && j < k < |events|
    requires Commits(states[k], events[k]) && events[k].message.automatic
    requires Hides(states[j], events[j]) || FirstMount(states[j], events[j], states[j + 1])
    ensures SaturatingAdd(states[j].now, states[j].delay) <= states[k].now
  {
    RecordedAt(states, events, j);
    RecordedSince(states, events, j + 1, k, states[j].now);
    AutomaticSleepIsDue(states, events, k);
  }

  /** A deadline is the sum, or the last moment there is when the sum is past it. */
  lemma SaturatingIs(a: nat, b: nat)
    ensures SaturatingAdd(a, b) <= 0xFFFF_FFFF_FFFF_FFFF
    ensures SaturatingAdd(a, b) == a + b || (a + b > SaturatingAdd(a, b) == 0xFFFF_FFFF_FFFF_FFFF)
  {
  }

  // Whether there is a timer.

  /** A live tab that is not visible has a timer, due a delay after the recorded time. */
  predicate Armed(t: Tab, delay: nat) {
    t.life.phase.Live? && !t.life.visible ==>
      t.life.deadline.Some? && t.life.deadline.value.due == SaturatingAdd(t.life.hiddenAt, delay)
  }

  /** A woken tab is painted before it was shown: it becomes live, and nothing arms its timer. */
  predicate PaintsUnseen(s: State, e: Event) {
    e.Handle? && e.message.Painted? && SeesPagePaint(s.tab, e.message.page) && !s.tab.life.visible
    && s.tab.life.deadline.None?
  }

  lemma ArmedSchedule(s: State)
    requires Valid(s.tab.history) && (Armed(s.tab, s.delay) || Starts(s.tab))
    ensures Armed(Schedule(s).tab, s.delay)
  {
  }

  lemma ArmedNavigate(s: State, request: Entry)
    requires Valid(s.tab.history)
    ensures Armed(TabLifecycle.Navigate(s, request).tab, s.delay)
    ensures Valid(TabLifecycle.Navigate(s, request).tab.history)
  {
    ArmedSchedule(s.(tab := Redirected(s.tab, request)));
  }

  lemma ArmedWake(s: State)
    requires Valid(s.tab.history) && Armed(s.tab, s.delay)
    ensures Armed(Wake(s).tab, s.delay)
  {
    ArmedAwoken(s.tab, Replayable(Current(s.tab.history)), s.delay);
    ArmedSchedule(Put(s, Awoken(s.tab)));
  }

  lemma ArmedAwoken(t: Tab, replayable: bool, delay: nat)
    requires Armed(t, delay)
    ensures Armed(AwokenIf(t, replayable), delay)
  {
  }

  lemma ArmedCommand(s: State, c: Command)
    requires Valid(s.tab.history) && Armed(s.tab, s.delay)
    ensures Armed(Commanded(s, c).tab, s.delay)
  {
    match c
    case Go(request) => ArmedNavigate(s, request);
    case GoBack => ArmedSchedule(s.(tab := s.tab.(history := Back(s.tab.history))));
    case GoForward => ArmedSchedule(s.(tab := s.tab.(history := Forward(s.tab.history))));
    case Reload => ArmedWake(s); ArmedSchedule(s);
    case AskSleep =>
    case AskWake => ArmedWake(s);
    case Select(dormant) => ArmedWake(s); ArmedSchedule(s);
    case SetUserAgent => ArmedSchedule(s);
  }

  lemma ArmedReleased(s: State)
    requires Inv(s)
    ensures var s' := Put(s, ReleasedTab(s.tab)); Armed(s'.tab, s.delay) && Armed(Wake(s').tab, s.delay)
  {
    ArmedWake(Put(s, ReleasedTab(s.tab)));
  }

  lemma ArmedPainted(s: State, page: Surface)
    requires Inv(s) && Armed(s.tab, s.delay)
    ensures SeesPreviewPaint(s.tab, page) ==>
      Armed(Schedule(s.(tab := s.tab.(life := s.tab.life.(awaitPreview := false)))).tab, s.delay)
    ensures Armed(PagePainted(s.tab), s.delay) <==> s.tab.life.visible || s.tab.life.deadline.Some?
  {
    if SeesPreviewPaint(s.tab, page) {
      ArmedSchedule(s.(tab := s.tab.(life := s.tab.life.(awaitPreview := false))));
    }
  }

  lemma ArmedMessage(s: State, m: Message, able: bool, navigations: seq<Entry>, preview: bool)
    requires Inv(s) && Armed(s.tab, s.delay)
    ensures Armed(MessageHandled(s, m, able, navigations, preview).tab, s.delay) <==>
      !PaintsUnseen(s, Handle(m, able, navigations, preview))
  {
    match m
    case Sleep(_, _, _) => InvSleep(s, m, able, navigations, preview);
    case Released(receipt) => ArmedReleased(s);
    case Painted(page) => ArmedPainted(s, page);
    case Visibility(page, visible) =>
    case RestoreTimeout(generation) =>
  }

  lemma {:induction false} ArmedNavigateAll(s: State, requests: seq<Entry>)
    requires Valid(s.tab.history) && Armed(s.tab, s.delay)
    ensures Armed(NavigateAll(s, requests).tab, s.delay)
    decreases |requests|
  {
    if requests == [] {
    } else {
      var next := TabLifecycle.Navigate(s, requests[0]);
      ArmedNavigate(s, requests[0]);
      ClockNavigate(s, requests[0]);
      ArmedNavigateAll(next, requests[1..]);
      assert NavigateAll(s, requests) == NavigateAll(next, requests[1..]);
    }
  }

  lemma ArmedScriptsDone(r: State, generation: nat, error: bool, document: nat, url: Option<string>, slow: bool)
    requires Inv(r) && Armed(r.tab, r.delay)
    ensures Armed(ScriptsDone(r, generation, error, document, url, slow).tab, r.delay)
  {
  }

  lemma ArmedLoad(
    s: State, generation: nat, error: bool, scripts: seq<Entry>, document: nat, url: Option<string>, slow: bool)
    requires Inv(s) && Armed(s.tab, s.delay)
    ensures Armed(LoadHandled(s, generation, error, scripts, document, url, slow).tab, s.delay)
  {
    var gone := s.(inFlight := s.inFlight - {generation});
    ArmedNavigateAll(gone, scripts);
    ClockNavigateAll(gone, scripts);
    if s.tab.generation == generation {
      InvNavigateAll(gone, scripts);
      ArmedScriptsDone(NavigateAll(gone, scripts), generation, error, document, url, slow);
    }
  }

  /** A step keeps a hidden live tab on its timer if and only if it is not the paint of a woken tab that nobody has
      seen yet. */
  lemma ArmedIff(s: State, e: Event, t: State)
    requires Inv(s) && Armed(s.tab, s.delay) && Next(s, e, t)
    ensures Armed(t.tab, t.delay) <==> !PaintsUnseen(s, e)
  {
    RecordedNext(s, e, t);
    match e
    case Command(command) => ArmedCommand(s, command);
    case Handle(message, able, navigations, preview) =>
      ArmedMessage(s.(messages := s.messages - multiset{message}), message, able, navigations, preview);
    case Load(generation, error, scripts, document, url, slow) =>
      ArmedLoad(s, generation, error, scripts, document, url, slow);
    case _ =>
  }

  /** Over every run without such a paint, a live tab that is not visible has a timer due a delay after the time
      recorded for it. */
  lemma {:induction false} HiddenTabHasTimer(states: seq<State>, events: seq<Event>, k: nat)
    requires IsRun(states, events) && k < |states|
    requires forall i :: 0 <= i < k ==> !PaintsUnseen(states[i], events[i])
    ensures Armed(states[k].tab, states[k].delay)
  {
    if k == 0 {
    } else {
      HiddenTabHasTimer(states, events, k - 1);
      InvRun(states, events, k - 1);
      StepAt(states, events, k - 1);
      ArmedIff(states[k - 1], events[k - 1], states[k]);
    }
  }

  /** A timer for the present numbers, due a delay after `since`, has been set running. */
  predicate RunsSince(t: State, since: nat) {
    && t.tab.life.deadline.Some? && t.tab.life.deadline.value in t.armed
    && t.tab.life.deadline.value == Deadline(SaturatingAdd(since, t.delay), t.tab.generation, t.tab.life.epoch)
  }

  /** Hiding a live tab sets a timer running from that moment, and so does the mount of its first page. */
  lemma HidingArms(s: State, e: Event, t: State)
    requires Inv(s) && Next(s, e, t) && Hides(s, e) && s.tab.life.phase.Live?
    ensures RunsSince(t, s.now)
  {
  }

  lemma FirstMountArms(s: State, e: Event, t: State)
    requires Inv(s) && Next(s, e, t) && e.Load? && FirstMount(s, e, t) && t.tab.life.phase.Live?
    ensures RunsSince(t, s.now)
  {
    InvLoad(s, e.generation, e.error, e.scripts, e.document, e.url, e.slow);
    assert e.scripts == [];
  }

  // Such a paint happens.

  /** The reload of a tab that nobody looks at has mounted its page. */
  function Restored(): State {
    LoadHandled(Reloading(), 4, false, [], 8, None, false)
  }

  lemma RestoredIs()
    ensures var s := Restored();
      && s.tab.generation == 4 && s.tab.mounted == Some(8) && s.tab.life.phase.Waking? && !s.tab.life.visible
      && s.tab.life.deadline.None? && !s.tab.life.awaitPreview && s.messages == multiset{} && Valid(s.tab.history)
  {
  }

  /** A live tab out of sight without a timer. */
  lemma LiveWithoutTimer() returns (states: seq<State>, events: seq<Event>, k: nat)
    ensures IsRun(states, events) && k + 1 == |events| && PaintsUnseen(states[k], events[k])
    ensures var t := states[k + 1].tab; t.life.phase.Live? && !t.life.visible && t.life.deadline.None?
  {
    states, events := StartReload();
    var load := Load(4, false, [], 8, None, false);
    Extend(states, events, Reloading(), load, Restored());
    states, events := states + [Restored()], events + [load];
    RestoredIs();
    var m := Painted(Surface(4, 8));
    var s := Restored().(messages := multiset{m});
    Extend(states, events, Restored(), Post(m), s);
    states, events := states + [s], events + [Post(m)];
    assert s.messages - multiset{m} == multiset{};
    var t := MessageHandled(Restored(), m, true, [], false);
    Extend(states, events, s, Handle(m, true, [], false), t);
    k := |events|;
    states, events := states + [t], events + [Handle(m, true, [], false)];
  }
}
