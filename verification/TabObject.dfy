/** `TabState` and `TabLife` as objects (browser.rs and tab_lifecycle.rs). The lock regions come first, assignment
    by assignment; then the commands and handlers that are made of them, checks included, each proved to leave the
    tab that its step in `TabLifecycle` leaves. */
module TabObject {
  import opened Wrappers
  import opened SessionHistory
  import opened TabLifecycle

  class TabState {
    var generation: nat
    var mounted: Option<nat>
    var history: seq<Entry>
    var current: nat
    var loading: bool
    var life: Life

    ghost function View(): Tab
      reads this
    {
      Tab(generation, mounted, History(history, current), loading, life)
    }

    method CancelDeadline()
      modifies this`life
      ensures life == DeadlineCancelled(old(life))
    {
      life := life.(epoch := life.epoch + 1);
      life := life.(deadline := None);
    }

    method CancelRestore()
      modifies this`life
      ensures life == RestoreCancelled(old(life))
    {
      life := life.(restoreDeadline := None);
    }

    method ArmHidden(delay: nat)
      modifies this`life
      ensures View() == HiddenArmed(old(View()), delay)
    {
      if life.visible || life.phase != Live || life.deadline.Some? {
        return;
      }
      life := life.(deadline := Some(Deadline(SaturatingAdd(life.hiddenAt, delay), generation, life.epoch)));
    }

    method ArmRestore(now: nat)
      modifies this`life
      ensures View() == RestoreArmed(old(View()), now)
    {
      if life.phase != Waking {
        return;
      }
      CancelRestore();
      life := life.(restoreDeadline := Some(Deadline(SaturatingAdd(now, RESTORE_NS), generation, life.epoch)));
    }

    /** `started` says that the caller spawns a fetch for the new generation. */
    method ScheduleCurrent(now: nat, delay: nat) returns (started: bool)
      requires Valid(View().history)
      modifies this
      ensures View() == Scheduled(old(View()), now, delay)
      ensures started == Starts(old(View()))
    {
      if life.phase == Discarding {
        life := life.(wakeRequested := true);
        return false;
      }
      if life.phase == Freezing {
        loading := true;
        return false;
      }
      if life.discarded && mounted.None? && !Replayable(history[current]) {
        life := life.(phase := RestoreFailed);
        return false;
      }
      Restart();
      ArmRestore(now);
      ArmHidden(delay);
      return true;
    }

    method Restart()
      modifies this
      ensures View() == Restarted(old(View()))
    {
      CancelDeadline();
      CancelRestore();
      life := life.(awaitPreview := false);
      if life.discarded && mounted.None? {
        life := life.(phase := Waking);
      } else if mounted.Some? {
        life := life.(phase := Live);
      }
      generation := generation + 1;
      loading := true;
    }

    /** `TabLife::navigate`. */
    method LifeNavigate()
      modifies this`life
      ensures life == LifeNavigated(old(life))
    {
      CancelDeadline();
      CancelRestore();
      life := life.(preview := false, previewSurface := None);
      life := life.(discarded := false, awaitPreview := false);
      if life.phase != Discarding && life.phase != Freezing {
        life := life.(phase := Dormant);
      }
    }

    /** `navigate_request` up to its call of `schedule_current`. */
    method Redirect(request: Entry)
      requires Valid(View().history)
      modifies this
      ensures View() == Redirected(old(View()), request)
    {
      LifeNavigate();
      history := history[..current + 1] + [request];
      current := current + 1;
      if |history| > 128 {
        history := history[1..];
        current := current - 1;
      }
    }

    /** `schedule` says that the caller goes on to `schedule_current`. */
    method RequestWake() returns (schedule: bool)
      requires Valid(View().history)
      modifies this
      ensures View() == Awoken(old(View()))
      ensures schedule == WakeSchedules(old(View()))
    {
      if life.phase == Discarding || life.release.Some? {
        life := life.(wakeRequested := true);
        return false;
      }
      if life.phase != Sleeping && life.phase != RestoreFailed {
        return false;
      }
      if !Replayable(history[current]) {
        life := life.(phase := RestoreFailed);
        return false;
      }
      life := life.(phase := Waking, previewSurface := None, awaitPreview := life.preview);
      return !life.preview;
    }

    /** The last lock region of `commit_sleep` together with `track_release`. */
    method CommitSleep(captured: bool, receipt: nat)
      requires Valid(View().history)
      modifies this
      ensures View() == Committed(old(View()), captured, receipt)
    {
      CancelDeadline();
      generation := generation + 1;
      life := life.(phase := Discarding);
      life := life.(visible := false);
      life := life.(discarded := true);
      CancelRestore();
      life := life.(preview := captured);
      mounted := None;
      loading := false;
      StripHistory();
      life := life.(release := Some(receipt));
    }

    /** The loop of `commit_sleep` over the history. */
    method StripHistory()
      requires Valid(View().history)
      modifies this`history
      ensures View().history == Asleep(old(View()).history)
    {
      var i := 0;
      while i < |history|
        invariant 0 <= i <= |history| == |old(history)|
        invariant forall k :: 0 <= k < |history| ==>
          history[k] == if k < i then Stripped(old(history)[k]) else old(history)[k]
      {
        history := history[i := Stripped(history[i])];
        i := i + 1;
      }
      assert history == Asleep(old(View()).history).entries;
    }

    method RestoreTimeout(receipt: nat)
      modifies this
      ensures View() == TimedOut(old(View()), receipt)
    {
      CancelRestore();
      generation := generation + 1;
      loading := false;
      life := life.(phase := RestoreFailed);
      life := life.(visible := false);
      life := life.(previewSurface := None);
      if mounted.Some? {
        life := life.(release := Some(receipt));
      }
      mounted := None;
    }

    method Release() returns (wake: bool)
      modifies this
      ensures View() == ReleasedTab(old(View()))
      ensures wake == old(life.wakeRequested)
    {
      life := life.(release := None);
      if life.phase != RestoreFailed {
        life := life.(phase := Sleeping);
      }
      wake := life.wakeRequested;
      life := life.(wakeRequested := false);
    }

    method Mount(document: nat, url: Option<string>, now: nat, delay: nat)
      requires Valid(View().history)
      modifies this
      ensures View() == Mounted(old(View()), document, url, now, delay)
    {
      mounted := Some(document);
      if url.Some? {
        history := history[current := history[current].(url := url.value)];
      }
      loading := false;
      life := life.(visible := false);
      if !life.everLive {
        life := life.(hiddenAt := now);
        life := life.(everLive := true);
      }
      life := life.(previewSurface := None);
      if life.phase != Waking {
        life := life.(phase := Live);
      }
      ArmHidden(delay);
    }

    method SetVisible(shown: bool, now: nat, delay: nat)
      modifies this
      ensures View() == VisibilityChanged(old(View()), shown, now, delay)
    {
      life := life.(visible := shown);
      CancelDeadline();
      if !shown {
        life := life.(hiddenAt := now);
      }
      ArmHidden(delay);
    }

    // Commands.

    method NavigateRequest(request: Entry, now: nat, delay: nat) returns (started: bool)
      requires Valid(View().history)
      modifies this
      ensures View() == Scheduled(Redirected(old(View()), request), now, delay)
      ensures started == Starts(Redirected(old(View()), request))
    {
      Redirect(request);
      started := ScheduleCurrent(now, delay);
    }

    method GoBack(now: nat, delay: nat) returns (started: bool)
      requires Valid(View().history)
      modifies this
      ensures var t := old(View()); var moved := t.(history := Back(t.history));
        if CanGoBack(t.history) then View() == Scheduled(moved, now, delay) && started == Starts(moved)
        else View() == t && !started
    {
      if current == 0 {
        return false;
      }
      current := current - 1;
      started := ScheduleCurrent(now, delay);
    }

    method GoForward(now: nat, delay: nat) returns (started: bool)
      requires Valid(View().history)
      modifies this
      ensures var t := old(View()); var moved := t.(history := Forward(t.history));
        if CanGoForward(t.history) then View() == Scheduled(moved, now, delay) && started == Starts(moved)
        else View() == t && !started
    {
      if current + 1 >= |history| {
        return false;
      }
      current := current + 1;
      started := ScheduleCurrent(now, delay);
    }

    method WakeTab(ghost s: State, now: nat, delay: nat)
      requires Valid(View().history) && s.tab == View() && s.now == now && s.delay == delay
      modifies this
      ensures View() == Wake(s).tab
    {
      var schedule := RequestWake();
      if schedule {
        var _ := ScheduleCurrent(now, delay);
      }
    }

    // Messages.

    /** The checks at the top of `commit_sleep`. */
    method CheckSleep(generation: nat, epoch: nat, automatic: bool, now: nat) returns (may: bool)
      ensures may == MaySleep(View(), generation, epoch, automatic, now)
    {
      if this.generation != generation || life.epoch != epoch {
        return false;
      }
      if (loading && !automatic) || life.phase != Live
        || (automatic && (life.visible || life.deadline.None? || now < life.deadline.value.due)) {
        return false;
      }
      return mounted.Some?;
    }

    /** The freeze handlers, which may navigate. */
    method Freeze(navigations: seq<Entry>, now: nat, delay: nat)
      requires Valid(View().history) && life.phase.Live?
      modifies this
      ensures View() == Frozen(old(View()), navigations, now, delay)
      ensures Valid(View().history)
    {
      life := life.(phase := Freezing);
      FrozenStart(old(View()), navigations, now, delay);
      for i := 0 to |navigations|
        invariant Valid(View().history) && life.phase.Freezing?
        invariant Frozen(View(), navigations[i..], now, delay) == Frozen(old(View()), navigations, now, delay)
      {
        FrozenStep(View(), navigations[i..], now, delay);
        assert navigations[i..][1..] == navigations[i + 1..];
        var _ := NavigateRequest(navigations[i], now, delay);
      }
      FrozenEnd(View(), now, delay);
    }

    /** `commit_sleep` as a whole. `able` is false when the record is too large, the sleeping budget is spent or the
        page's document has gone. */
    method HandleSleep(
      m: Message, able: bool, navigations: seq<Entry>, captured: bool, receipt: nat, now: nat, delay: nat,
      ghost s: State)
      returns (committed: bool)
      requires m.Sleep? && Valid(View().history) && s.tab == View()
      requires s.now == now && s.delay == delay && s.receipts == receipt
      modifies this
      ensures View() == MessageHandled(s, m, able, navigations, captured).tab
      ensures committed <==> able && MaySleep(s.tab, m.generation, m.epoch, m.automatic, now)
    {
      var may := CheckSleep(m.generation, m.epoch, m.automatic, now);
      if !may || !able {
        return false;
      }
      FreezeCommits(View(), navigations, now, delay);
      Freeze(navigations, now, delay);
      if generation != m.generation || (life.epoch != m.epoch && !(life.phase == Freezing && loading)) {
        return false; // the page is resumed
      }
      CommitSleep(captured, receipt);
      return true;
    }

    method HandleRestoreTimeout(generation: nat, receipt: nat, ghost s: State) returns (handled: bool)
      requires Valid(View().history) && s.tab == View() && s.receipts == receipt
      modifies this
      ensures View() == MessageHandled(s, Message.RestoreTimeout(generation), true, [], false).tab
      ensures handled == MayTimeOut(s.tab, generation)
    {
      if this.generation != generation || life.phase != Waking {
        return false;
      }
      RestoreTimeout(receipt);
      return true;
    }

    /** `complete` is what the receipt answers. */
    method HandleReleased(receipt: nat, complete: bool, now: nat, delay: nat, ghost s: State)
      requires Valid(View().history) && s.tab == View() && s.now == now && s.delay == delay
      requires complete == (receipt in s.completed)
      modifies this
      ensures View() == MessageHandled(s, Released(receipt), true, [], false).tab
    {
      if life.release != Some(receipt) || !complete {
        return;
      }
      var wake := Release();
      if wake {
        WakeTab(Put(s, ReleasedTab(s.tab)), now, delay);
      }
    }

    method HandleVisibility(page: Surface, visible: bool, now: nat, delay: nat, ghost s: State)
      requires Valid(View().history) && s.tab == View() && s.now == now && s.delay == delay
      modifies this
      ensures View() == MessageHandled(s, Visibility(page, visible), true, [], false).tab
    {
      if generation != page.generation || mounted != Some(page.document) || life.visible == visible {
        return;
      }
      SetVisible(visible, now, delay);
    }

    method HandlePainted(page: Surface, now: nat, delay: nat, ghost s: State)
      requires Valid(View().history) && s.tab == View() && s.now == now && s.delay == delay
      modifies this
      ensures View() == MessageHandled(s, Painted(page), true, [], false).tab
    {
      if generation != page.generation || life.phase != Waking {
        return;
      }
      if life.awaitPreview && life.previewSurface == Some(page) {
        life := life.(awaitPreview := false);
        var _ := ScheduleCurrent(now, delay);
        return;
      }
      if mounted != Some(page.document) {
        return;
      }
      CancelRestore();
      life := life.(phase := Live, preview := false, previewSurface := None);
    }

    // Pages.

    /** The page's scripts, which may navigate. */
    method RunScripts(scripts: seq<Entry>, now: nat, delay: nat, ghost s: State)
      requires Valid(View().history) && s.tab == View() && s.now == now && s.delay == delay
      modifies this
      ensures View() == NavigateAll(s, scripts).tab && Valid(View().history)
    {
      ghost var r := s;
      for i := 0 to |scripts|
        invariant Valid(View().history) && r.tab == View() && r.now == now && r.delay == delay
        invariant NavigateAll(r, scripts[i..]) == NavigateAll(s, scripts)
      {
        assert scripts[i..][1..] == scripts[i + 1..];
        NavigateStep(r, scripts[i]);
        r := TabLifecycle.Navigate(r, scripts[i]);
        var _ := NavigateRequest(scripts[i], now, delay);
      }
    }

    /** A page that failed to load for a waking tab is given up; `slow` says that its teardown takes time. */
    method FailWake(generation: nat, slow: bool, receipt: nat)
      modifies this
      ensures var t := if old(View()).generation == generation then WakeFailed(old(View())) else old(View());
        View() == if slow then t.(life := t.life.(release := Some(receipt))) else t
    {
      if this.generation == generation {
        GiveUp();
      }
      if slow {
        life := life.(release := Some(receipt));
      }
    }

    method GiveUp()
      modifies this
      ensures View() == WakeFailed(old(View()))
    {
      loading := false;
      life := life.(phase := RestoreFailed);
      CancelRestore();
      life := life.(previewSurface := None);
    }

    /** One bundle of `poll_document`: the first generation check, the scripts, the failed wake or the second
        generation check and the mount. */
    method HandleBundle(
      generation: nat, error: bool, scripts: seq<Entry>, document: nat, url: Option<string>, slow: bool,
      receipt: nat, now: nat, delay: nat, ghost s: State)
      returns (shown: bool)
      requires Valid(View().history) && s.tab == View()
      requires s.now == now && s.delay == delay && s.receipts == receipt
      modifies this
      ensures var t := LoadHandled(s, generation, error, scripts, document, url, slow);
        View() == t.tab && (shown <==> Mounts(s, t, generation))
    {
      if this.generation != generation {
        return false;
      }
      ghost var gone := s.(inFlight := s.inFlight - {generation});
      NavigateAllKeeps(gone, scripts);
      RunScripts(scripts, now, delay, gone);
      if error && life.phase == Waking {
        FailWake(generation, slow, receipt);
        return false;
      }
      if this.generation != generation {
        return false;
      }
      Mount(document, url, now, delay);
      return true;
    }
  }

  lemma FrozenStart(t: Tab, navigations: seq<Entry>, now: nat, delay: nat)
    requires Valid(t.history) && t.life.phase.Live?
    ensures Frozen(t.(life := t.life.(phase := Freezing)), navigations[0..], now, delay)
         == Frozen(t, navigations, now, delay)
  {
    assert navigations[0..] == navigations;
  }

  lemma FrozenStep(t: Tab, navigations: seq<Entry>, now: nat, delay: nat)
    requires Valid(t.history) && t.life.phase.Freezing? && navigations != []
    ensures var next := Scheduled(Redirected(t, navigations[0]), now, delay);
      && Valid(next.history) && next.life.phase.Freezing?
      && Frozen(t, navigations, now, delay) == Frozen(next, navigations[1..], now, delay)
  {
    assert t.(life := t.life.(phase := Freezing)) == t;
  }

  lemma FrozenEnd(t: Tab, now: nat, delay: nat)
    requires Valid(t.history) && t.life.phase.Freezing?
    ensures Frozen(t, [], now, delay) == t
  {
  }

  lemma NavigateStep(s: State, request: Entry)
    requires Valid(s.tab.history)
    ensures var t := TabLifecycle.Navigate(s, request);
      && t.tab == Scheduled(Redirected(s.tab, request), s.now, s.delay) && Valid(t.tab.history)
      && t.now == s.now && t.delay == s.delay && t.receipts == s.receipts && t.mounts == s.mounts
  {
  }

  lemma {:induction false} NavigateAllKeeps(s: State, requests: seq<Entry>)
    requires Valid(s.tab.history)
    ensures var t := NavigateAll(s, requests);
      t.now == s.now && t.delay == s.delay && t.receipts == s.receipts && t.mounts == s.mounts
    decreases |requests|
  {
    if requests == [] {
    } else {
      NavigateStep(s, requests[0]);
      NavigateAllKeeps(TabLifecycle.Navigate(s, requests[0]), requests[1..]);
    }
  }
}
