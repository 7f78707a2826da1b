/** Whether a sleeping tab has nothing mounted (tab_lifecycle.rs, the `Released` message). `Released` puts the tab to
    sleep from every phase but `RestoreFailed`, without a look at what is mounted by then. */
module TabVacancy {
  import opened Wrappers
  import opened SessionHistory
  import opened TabLifecycle
  import opened TabDiversion

  /** A sleeping tab has no page. */
  predicate Vacant(t: Tab) {
    t.life.phase.Sleeping? ==> t.mounted.None?
  }

  /** The receipt the tab waits for arrives while a page is mounted and nobody has asked for a wake. */
  predicate ReleasesMounted(s: State, e: Event) {
    && e.Handle? && e.message.Released? && s.tab.life.release == Some(e.message.receipt)
    && e.message.receipt in s.completed
    && s.tab.mounted.Some? && !s.tab.life.phase.RestoreFailed? && !s.tab.life.wakeRequested
  }

  lemma VacantSchedule(s: State)
    requires Valid(s.tab.history) && Vacant(s.tab)
    ensures Vacant(Schedule(s).tab)
  {
  }

  lemma VacantNavigate(s: State, request: Entry)
    requires Valid(s.tab.history)
    ensures Vacant(TabLifecycle.Navigate(s, request).tab) && Valid(TabLifecycle.Navigate(s, request).tab.history)
  {
    VacantSchedule(s.(tab := Redirected(s.tab, request)));
  }

  /** A wake leaves no tab asleep unless it has to wait for a receipt. */
  lemma VacantAwoken(t: Tab, replayable: bool)
    ensures Vacant(t) ==> Vacant(AwokenIf(t, replayable))
    ensures MayWake(t) ==> !AwokenIf(t, replayable).life.phase.Sleeping?
  {
  }

  lemma VacantWake(s: State)
    requires Valid(s.tab.history) && (Vacant(s.tab) || MayWake(s.tab))
    ensures Vacant(Wake(s).tab)
  {
    VacantAwoken(s.tab, Replayable(Current(s.tab.history)));
    VacantSchedule(Put(s, Awoken(s.tab)));
  }

  lemma VacantCommand(s: State, c: Command)
    requires Valid(s.tab.history) && Vacant(s.tab)
    ensures Vacant(Commanded(s, c).tab)
  {
    match c
    case Go(request) => VacantNavigate(s, request);
    case GoBack => VacantSchedule(s.(tab := s.tab.(history := Back(s.tab.history))));
    case GoForward => VacantSchedule(s.(tab := s.tab.(history := Forward(s.tab.history))));
    case Reload => VacantWake(s); VacantSchedule(s);
    case AskSleep =>
    case AskWake => VacantWake(s);
    case Select(dormant) => VacantWake(s); VacantSchedule(s);
    case SetUserAgent => VacantSchedule(s);
  }

  lemma VacantReleased(s: State, receipt: nat, able: bool, navigations: seq<Entry>, preview: bool)
    requires Valid(s.tab.history) && Vacant(s.tab)
    ensures Vacant(MessageHandled(s, Released(receipt), able, navigations, preview).tab) <==>
      !ReleasesMounted(s, Handle(Released(receipt), able, navigations, preview))
  {
    if s.tab.life.release == Some(receipt) && receipt in s.completed {
      var s' := Put(s, ReleasedTab(s.tab));
      if s.tab.life.wakeRequested {
        assert MayWake(s'.tab);
        VacantWake(s');
      }
    }
  }

  lemma VacantMessage(s: State, m: Message, able: bool, navigations: seq<Entry>, preview: bool)
    requires Inv(s) && Vacant(s.tab) && !m.Released?
    ensures Vacant(MessageHandled(s, m, able, navigations, preview).tab)
  {
    match m
    case Sleep(_, _, _) => InvSleep(s, m, able, navigations, preview);
    case Painted(page) =>
      if SeesPreviewPaint(s.tab, page) {
        VacantSchedule(s.(tab := s.tab.(life := s.tab.life.(awaitPreview := false))));
      }
    case Visibility(page, visible) =>
    case RestoreTimeout(generation) =>
  }

  lemma {:induction false} VacantNavigateAll(s: State, requests: seq<Entry>)
    requires Valid(s.tab.history) && Vacant(s.tab)
    ensures Vacant(NavigateAll(s, requests).tab)
    decreases |requests|
  {
    if requests == [] {
    } else {
      var next := TabLifecycle.Navigate(s, requests[0]);
      VacantNavigate(s, requests[0]);
      VacantNavigateAll(next, requests[1..]);
      assert NavigateAll(s, requests) == NavigateAll(next, requests[1..]);
    }
  }

  lemma VacantScriptsDone(r: State, generation: nat, error: bool, document: nat, url: Option<string>, slow: bool)
    requires Valid(r.tab.history) && Vacant(r.tab)
    ensures Vacant(ScriptsDone(r, generation, error, document, url, slow).tab)
  {
  }

  lemma VacantLoad(
    s: State, generation: nat, error: bool, scripts: seq<Entry>, document: nat, url: Option<string>, slow: bool)
    requires Valid(s.tab.history) && Vacant(s.tab)
    ensures Vacant(LoadHandled(s, generation, error, scripts, document, url, slow).tab)
  {
    var gone := s.(inFlight := s.inFlight - {generation});
    VacantNavigateAll(gone, scripts);
    VacantScriptsDone(NavigateAll(gone, scripts), generation, error, document, url, slow);
  }

  lemma VacantEnvironment(s: State, e: Event, t: State)
    requires Vacant(s.tab) && Next(s, e, t) && !e.Command? && !e.Handle? && !e.Load?
    ensures Vacant(t.tab)
  {
  }

  /** A step keeps a sleeping tab without a page if and only if it is not the release of a tab that has mounted one
      in the meantime. */
  lemma VacantIff(s: State, e: Event, t: State)
    requires Inv(s) && Vacant(s.tab) && Next(s, e, t)
    ensures Vacant(t.tab) <==> !ReleasesMounted(s, e)
  {
    match e
    case Command(command) => VacantCommand(s, command);
    case Handle(message, able, navigations, preview) =>
      var s' := s.(messages := s.messages - multiset{message});
      if message.Released? {
        VacantReleased(s', message.receipt, able, navigations, preview);
      } else {
        VacantMessage(s', message, able, navigations, preview);
      }
    case Load(generation, error, scripts, document, url, slow) =>
      VacantLoad(s, generation, error, scripts, document, url, slow);
    case _ => VacantEnvironment(s, e, t);
  }

  /** Over every run without such a release, a tab that sleeps has nothing mounted. */
  lemma {:induction false} SleeperHasNoPage(states: seq<State>, events: seq<Event>, k: nat)
    requires IsRun(states, events) && k < |states|
    requires forall i :: 0 <= i < k ==> !ReleasesMounted(states[i], events[i])
    ensures Vacant(states[k].tab)
  {
    if k == 0 {
    } else {
      SleeperHasNoPage(states, events, k - 1);
      InvRun(states, events, k - 1);
      StepAt(states, events, k - 1);
      VacantIff(states[k - 1], events[k - 1], states[k]);
    }
  }

  // Such a release happens.

  /** The reload failed, its page is slow to go, and the tab waits for that receipt. */
  function GivenUp(): State {
    LoadHandled(Reloading(), 4, true, [], 8, None, true)
  }

  /** Meanwhile the user navigates, and the new page is there before the receipt. */
  function Moved(): State {
    LoadHandled(TabLifecycle.Navigate(GivenUp(), HOME), 5, false, [], 9, None, false)
  }

  lemma GivenUpIs()
    ensures var s := GivenUp();
      && s.tab.life.phase.RestoreFailed? && s.tab.life.release == Some(1) && s.receipts == 2
      && s.tab.generation == 4 && s.tab.mounted.None? && !s.tab.life.wakeRequested
      && s.inFlight == map[1 := 1] && s.messages == multiset{} && Valid(s.tab.history)
  {
    assert map[1 := 1, 4 := 0] - {4} == map[1 := 1];
  }

  lemma MovedIs()
    ensures var s := TabLifecycle.Navigate(GivenUp(), HOME); 5 in s.inFlight && Valid(s.tab.history)
    ensures var s := Moved();
      && s.tab.life.phase.Live? && s.tab.life.release == Some(1) && s.receipts == 2
      && s.tab.mounted == Some(9) && !s.tab.life.wakeRequested && s.messages == multiset{} && Valid(s.tab.history)
  {
    GivenUpIs();
  }

  lemma Move() returns (states: seq<State>, events: seq<Event>)
    ensures Ends(states, events, Moved())
  {
    states, events := StartReload();
    var fail := Load(4, true, [], 8, None, true);
    Extend(states, events, Reloading(), fail, GivenUp());
    states, events := states + [GivenUp()], events + [fail];
    GivenUpIs();
    var s := TabLifecycle.Navigate(GivenUp(), HOME);
    Extend(states, events, GivenUp(), Event.Command(Go(HOME)), s);
    states, events := states + [s], events + [Event.Command(Go(HOME))];
    MovedIs();
    var load := Load(5, false, [], 9, None, false);
    Extend(states, events, s, load, Moved());
    states, events := states + [Moved()], events + [load];
  }

  /** A tab that ends up asleep with a live page mounted. */
  lemma MountedSleeper() returns (states: seq<State>, events: seq<Event>, k: nat)
    ensures IsRun(states, events) && k + 1 == |events| && ReleasesMounted(states[k], events[k])
    ensures states[k + 1].tab.life.phase.Sleeping? && states[k + 1].tab.mounted == Some(9)
  {
    states, events := Move();
    MovedIs();
    var s := Moved().(completed := Moved().completed + {1});
    Extend(states, events, Moved(), Complete(1), s);
    states, events := states + [s], events + [Complete(1)];
    var s1 := s.(messages := multiset{Released(1)});
    Extend(states, events, s, Post(Released(1)), s1);
    states, events := states + [s1], events + [Post(Released(1))];
    assert s1.messages - multiset{Released(1)} == multiset{};
    var t := MessageHandled(s, Released(1), true, [], false);
    Extend(states, events, s1, Handle(Released(1), true, [], false), t);
    k := |events|;
    states, events := states + [t], events + [Handle(Released(1), true, [], false)];
  }
}
