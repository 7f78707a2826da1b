/** What each command, message and load does to a tab (browser.rs and tab_lifecycle.rs), in terms of its fields, the
    loads in flight and the history. */
module TabEffects {
  import opened Wrappers
  import opened SessionHistory
  import opened TabLifecycle

  // Loads.

  /** A load for the entry on show is started under the next generation; the other loads stay. */
  predicate StartsHere(s: State, t: State) {
    && t.tab.generation == s.tab.generation + 1 && t.tab.loading && t.tab.mounted == s.tab.mounted
    && t.tab.generation in t.inFlight && t.inFlight[t.tab.generation] == t.tab.history.current
    && (forall g :: g in s.inFlight && g != t.tab.generation ==> g in t.inFlight && t.inFlight[g] == s.inFlight[g])
  }

  /** Nothing is started and the page stays. */
  predicate StartsNothing(s: State, t: State) {
    t.tab.generation == s.tab.generation && t.inFlight == s.inFlight && t.tab.mounted == s.tab.mounted
  }

  /** The entry on show cannot be loaded again once its page has been discarded. */
  predicate NeedsResubmission(t: Tab)
    requires t.history.current < |t.history.entries|
  {
    var verb := t.history.entries[t.history.current].verb;
    t.life.discarded && t.mounted.None? && verb != "GET" && verb != "HEAD"
  }

  /** Asking for the entry on show: held back by a teardown, refused, or started. */
  predicate Asked(s: State, t: State)
    requires Valid(s.tab.history)
  {
    && t.tab.history == s.tab.history
    && if s.tab.life.phase.Discarding? then StartsNothing(s, t) && t.tab.life.wakeRequested
       else if NeedsResubmission(s.tab) then StartsNothing(s, t) && t.tab.life.phase.RestoreFailed?
       else
         && StartsHere(s, t)
         && (s.tab.mounted.Some? ==> t.tab.life.phase.Live?)
         && (s.tab.mounted.None? && s.tab.life.discarded ==>
               && t.tab.life.phase.Waking? && t.tab.life.restoreDeadline.Some?
               && t.tab.life.restoreDeadline.value.due == SaturatingAdd(s.now, 30_000_000_000)
               && t.tab.life.restoreDeadline.value.generation in t.restoring)
  }

  lemma ScheduleAsks(s: State)
    requires Inv(s)
    ensures Asked(s, Schedule(s))
  {
  }

  /** Waking a sleeping tab, or one whose reload failed: later, refused, after its preview, or at once. */
  predicate Woken(s: State, t: State)
    requires Valid(s.tab.history)
  {
    var verb := s.tab.history.entries[s.tab.history.current].verb;
    && t.tab.history == s.tab.history
    && if s.tab.life.phase.Discarding? || s.tab.life.release.Some? then
         StartsNothing(s, t) && t.tab.life.wakeRequested && t.tab.life.phase == s.tab.life.phase
       else if verb != "GET" && verb != "HEAD" then StartsNothing(s, t) && t.tab.life.phase.RestoreFailed?
       else if s.tab.life.preview then
         StartsNothing(s, t) && t.tab.life.phase.Waking? && t.tab.life.awaitPreview
       else StartsHere(s, t)
  }

  lemma WakeWakes(s: State)
    requires Inv(s) && (s.tab.life.phase.Sleeping? || s.tab.life.phase.Discarding? || s.tab.life.phase.RestoreFailed?)
    ensures Woken(s, Wake(s))
  {
    if WakeSchedules(s.tab) {
      WakeStarts(s);
    } else {
      WakeWaits(s);
    }
  }

  lemma WakeStarts(s: State)
    requires Inv(s) && WakeSchedules(s.tab)
    ensures StartsHere(s, Wake(s)) && Wake(s).tab.history == s.tab.history
  {
    var s' := Put(s, Awoken(s.tab));
    InvAwoken(s);
    AwokenStays(s.tab, true);
    ScheduleAsks(s');
  }

  lemma AwokenStays(t: Tab, replayable: bool)
    ensures var t' := AwokenIf(t, replayable);
      t'.generation == t.generation && t'.mounted == t.mounted && t'.history == t.history && t'.loading == t.loading
    ensures MayWake(t) && replayable ==> AwokenIf(t, replayable).life.phase.Waking?
  {
  }

  lemma WakeWaits(s: State)
    requires Inv(s) && !WakeSchedules(s.tab)
    requires s.tab.life.phase.Sleeping? || s.tab.life.phase.Discarding? || s.tab.life.phase.RestoreFailed?
    ensures Woken(s, Wake(s))
  {
    AwokenStays(s.tab, Replayable(Current(s.tab.history)));
  }

  // Commands.

  /** A navigation puts its request on show, behind the entries up to the one that was, and asks for it. */
  lemma GoDoes(s: State, request: Entry, t: State)
    requires Inv(s) && Next(s, Event.Command(Go(request)), t)
    ensures Valid(t.tab.history) && Current(t.tab.history) == request && !CanGoForward(t.tab.history)
    ensures 0 < t.tab.history.current &&
      t.tab.history.entries[t.tab.history.current - 1] == Current(s.tab.history)
    ensures if s.tab.life.phase.Discarding? then StartsNothing(s, t) && t.tab.life.wakeRequested else StartsHere(s, t)
    ensures var l := t.tab.life;
      !l.discarded && !l.preview && l.previewSurface.None? && !l.awaitPreview && l.restoreDeadline.None?
  {
    InvNavigate(s, request);
    ScheduleAfter(s, request);
  }

  lemma ScheduleAfter(s: State, request: Entry)
    requires Inv(s)
    ensures Asked(s.(tab := Redirected(s.tab, request)), TabLifecycle.Navigate(s, request))
    ensures var l := TabLifecycle.Navigate(s, request).tab.life;
      !l.discarded && !l.preview && l.previewSurface.None? && !l.awaitPreview && l.restoreDeadline.None?
  {
    var s' := s.(tab := Redirected(s.tab, request));
    assert Inv(s');
    ScheduleAsks(s');
  }

  /** Back and Forward move by one entry and ask for it, exactly when there is one. */
  lemma MoveDoes(s: State, back: bool, t: State)
    requires Inv(s) && Next(s, Event.Command(if back then Command.GoBack else Command.GoForward), t)
    ensures var h := s.tab.history;
      if (if back then h.current == 0 else h.current == |h.entries| - 1) then t == s
      else
        var h' := h.(current := if back then h.current - 1 else h.current + 1);
        Valid(h') && Asked(s.(tab := s.tab.(history := h')), t)
  {
    var h := s.tab.history;
    if back && CanGoBack(h) {
      InvMove(s, Back(h));
      AskMoved(s, Back(h));
    } else if !back && CanGoForward(h) {
      InvMove(s, Forward(h));
      AskMoved(s, Forward(h));
    }
  }

  lemma AskMoved(s: State, h: History)
    requires Inv(s) && Valid(h)
    ensures var s' := s.(tab := s.tab.(history := h)); Asked(s', Schedule(s'))
  {
    var s' := s.(tab := s.tab.(history := h));
    assert Inv(s');
    ScheduleAsks(s');
  }

  predicate IsAway(p: Phase) { p.Sleeping? || p.Discarding? || p.RestoreFailed? }

  /** A reload wakes a tab that is away and asks for the entry again otherwise; selecting a tab wakes it, too, and
      asks for a page that was never loaded. */
  lemma ReloadDoes(s: State, c: Command, t: State)
    requires Inv(s) && Next(s, Event.Command(c), t) && (c.Reload? || c.Select? || c.SetUserAgent?)
    ensures if c.SetUserAgent? then Asked(s, t)
            else if IsAway(s.tab.life.phase) then Woken(s, t)
            else if c.Reload? || c.dormant then Asked(s, t)
            else t == s
  {
    ScheduleAsks(s);
    if IsAway(s.tab.life.phase) {
      WakeWakes(s);
    }
  }

  /** A request to wake does nothing to a tab that is not away. */
  lemma AskWakeDoes(s: State, t: State)
    requires Inv(s) && Next(s, Event.Command(AskWake), t) && s.tab.life.release.None?
    ensures if IsAway(s.tab.life.phase) then Woken(s, t) else t.tab == s.tab && t.inFlight == s.inFlight
  {
    if IsAway(s.tab.life.phase) {
      WakeWakes(s);
    }
  }

  /** A request to sleep is queued under the present numbers, exactly for a live page that is not loading. */
  lemma AskSleepDoes(s: State, t: State)
    requires Inv(s) && Next(s, Event.Command(AskSleep), t)
    ensures t.tab == s.tab
    ensures t.messages == s.messages +
      (if !s.tab.loading && s.tab.mounted.Some? && s.tab.life.phase.Live?
       then multiset{Message.Sleep(s.tab.generation, s.tab.life.epoch, false)} else multiset{})
  {
  }

  // Messages.

  /** A sleep message is acted on exactly when the page is able and the message is still for this page, with nobody
      loading (or, for the timer, nobody looking and its time come); then the tab is being discarded. */
  lemma SleepDoes(s: State, e: Event, t: State)
    requires Inv(s) && Next(s, e, t) && e.Handle? && e.message.Sleep?
    ensures var m, l := e.message, s.tab.life;
      if && e.able && s.tab.generation == m.generation && l.epoch == m.epoch && l.phase.Live? && s.tab.mounted.Some?
         && (if m.automatic then !l.visible && l.deadline.Some? && l.deadline.value.due <= s.now else !s.tab.loading)
      then t.tab.life.phase.Discarding? && t.tab.life.release == Some(s.receipts) && t.receipts == s.receipts + 1
      else t.tab == s.tab
  {
    InvSleep(s.(messages := s.messages - multiset{e.message}), e.message, e.able, e.navigations, e.preview);
  }

  /** What a freeze handler navigates to last is on show when the tab wakes. */
  lemma {:induction false} FreezeKeepsNavigation(t: Tab, navigations: seq<Entry>, now: nat, delay: nat)
    requires Valid(t.history) && (t.life.phase.Freezing? || t.life.phase.Live?)
    ensures var f := Frozen(t, navigations, now, delay);
      && f.history.current < |f.history.entries|
      && Current(f.history) == if navigations == [] then Current(t.history) else navigations[|navigations| - 1]
    decreases |navigations|
  {
    if navigations == [] {
    } else {
      var f := t.(life := t.life.(phase := Freezing));
      var next := Scheduled(Redirected(f, navigations[0]), now, delay);
      FreezeKeepsNavigation(next, navigations[1..], now, delay);
      assert Current(next.history) == navigations[0];
    }
  }

  /** A timer that has run out queues a sleep under its own numbers. */
  lemma ExpireDoes(s: State, d: Deadline, t: State)
    requires Next(s, Expire(d), t)
    ensures d in s.armed && d.due <= s.now && t.tab == s.tab
    ensures t.messages == s.messages + multiset{Message.Sleep(d.generation, d.epoch, true)}
  {
  }

  /** A committed sleep leaves every entry its address and verb and nothing else, and no page. */
  lemma CommitDoes(s: State, e: Event, t: State)
    requires Inv(s) && Next(s, e, t) && e.Handle? && e.message.Sleep? && e.able && e.navigations == []
    requires MaySleep(s.tab, e.message.generation, e.message.epoch, e.message.automatic, s.now)
    ensures t.tab.mounted.None? && !t.tab.loading && !t.tab.life.visible && t.tab.life.discarded
    ensures t.tab.life.deadline.None? && t.tab.life.preview == e.preview
    ensures t.tab.history.current == s.tab.history.current
    ensures |t.tab.history.entries| == |s.tab.history.entries|
    ensures forall i :: 0 <= i < |s.tab.history.entries| ==>
      var old', new' := s.tab.history.entries[i], t.tab.history.entries[i];
      new'.url == old'.url && new'.verb == old'.verb && new'.payload == ""
  {
    FreezeCommits(s.tab, [], s.now, s.delay);
  }

  /** A visibility message for the page on show sets the flag under a new epoch; any other is ignored. */
  lemma VisibilityDoes(s: State, e: Event, t: State)
    requires Next(s, e, t) && e.Handle? && e.message.Visibility?
    ensures var m := e.message;
      if s.tab.generation == m.page.generation && s.tab.mounted == Some(m.page.document)
         && s.tab.life.visible != m.visible
      then
        && t.tab.life.visible == m.visible && t.tab.life.epoch == s.tab.life.epoch + 1
        && t.tab.life.phase == s.tab.life.phase && (m.visible ==> t.tab.life.deadline.None?)
      else t.tab == s.tab
    ensures StartsNothing(s, t) && t.tab.history == s.tab.history
  {
  }

  /** A wake ends with the paint of its page. */
  predicate WakeEnds(s: State, t: State) {
    && t.tab.life.phase.Live? && t.tab.life.restoreDeadline.None? && !t.tab.life.preview
    && t.tab.life.previewSurface.None? && StartsNothing(s, t) && t.tab.history == s.tab.history
    && t.tab.life.visible == s.tab.life.visible && t.tab.life.epoch == s.tab.life.epoch
    && t.tab.life.deadline == s.tab.life.deadline
  }

  lemma PagePaintEnds(s: State)
    ensures WakeEnds(s, Put(s, PagePainted(s.tab)))
  {
  }

  /** A paint counts only for a waking tab: that of the preview starts the load, that of the page ends the wake. */
  lemma PaintedDoes(s: State, e: Event, t: State)
    requires Inv(s) && Next(s, e, t) && e.Handle? && e.message.Painted?
    ensures var page, l := e.message.page, s.tab.life;
      if s.tab.generation != page.generation || !l.phase.Waking? then t.tab == s.tab && t.inFlight == s.inFlight
      else if l.awaitPreview && l.previewSurface == Some(page) then
        Asked(s.(tab := s.tab.(life := l.(awaitPreview := false))), t)
      else if s.tab.mounted == Some(page.document) then WakeEnds(s, t)
      else t.tab == s.tab && t.inFlight == s.inFlight
  {
    var s' := s.(messages := s.messages - multiset{e.message});
    if SeesPreviewPaint(s.tab, e.message.page) {
      PreviewAsks(s');
    } else if SeesPagePaint(s.tab, e.message.page) {
      PagePaintEnds(s');
    } else {
      assert t == s';
    }
  }

  lemma PreviewAsks(s: State)
    requires Inv(s)
    ensures var s' := s.(tab := s.tab.(life := s.tab.life.(awaitPreview := false))); Asked(s', Schedule(s'))
  {
    var s' := s.(tab := s.tab.(life := s.tab.life.(awaitPreview := false)));
    assert Inv(s');
    ScheduleAsks(s');
  }

  /** A restore that ran out of time is given up, with its page if it has one. */
  lemma TimeoutDoes(s: State, e: Event, t: State)
    requires Next(s, e, t) && e.Handle? && e.message.RestoreTimeout?
    ensures if s.tab.generation == e.message.generation && s.tab.life.phase.Waking? then
              && t.tab.life.phase.RestoreFailed? && t.tab.generation == s.tab.generation + 1
              && t.tab.mounted.None? && !t.tab.loading && !t.tab.life.visible && t.tab.life.restoreDeadline.None?
              && t.tab.life.release == (if s.tab.mounted.Some? then Some(s.receipts) else s.tab.life.release)
            else t.tab == s.tab
  {
  }

  /** The awaited receipt, once complete, is dropped, and a wake asked for is made good. */
  lemma ReleasedDoes(s: State, e: Event, t: State)
    requires Inv(s) && Next(s, e, t) && e.Handle? && e.message.Released?
    ensures if s.tab.life.release != Some(e.message.receipt) || e.message.receipt !in s.completed then t.tab == s.tab
            else
              var phase := if s.tab.life.phase.RestoreFailed? then RestoreFailed else Sleeping;
              var l := s.tab.life.(release := None, wakeRequested := false, phase := phase);
              if s.tab.life.wakeRequested then Woken(s.(tab := s.tab.(life := l)), t)
              else t.tab == s.tab.(life := l) && t.inFlight == s.inFlight
  {
    if s.tab.life.release == Some(e.message.receipt) && e.message.receipt in s.completed {
      ReleaseWakes(s.(messages := s.messages - multiset{e.message}));
    }
  }

  lemma ReleaseWakes(s: State)
    requires Inv(s)
    ensures var s' := Put(s, ReleasedTab(s.tab)); Woken(s', Wake(s'))
  {
    var s' := Put(s, ReleasedTab(s.tab));
    assert Inv(s');
    WakeWakes(s');
  }

  // Pages.

  /** A load that is no longer the newest is dropped. */
  lemma StaleLoadDoes(s: State, e: Event, t: State)
    requires Next(s, e, t) && e.Load? && e.generation != s.tab.generation
    ensures t.tab == s.tab && t.inFlight == s.inFlight - {e.generation} && t.mounts == s.mounts
  {
  }

  /** The newest load, if its page's scripts stay, is mounted, with its address in the entry on show; one that failed
      for a waking tab is given up instead. */
  lemma CurrentLoadDoes(s: State, e: Event, t: State)
    requires Inv(s) && Next(s, e, t) && e.Load? && e.generation == s.tab.generation && e.scripts == []
    ensures !t.tab.loading && t.tab.generation == s.tab.generation && e.generation !in t.inFlight
    ensures if e.error && s.tab.life.phase.Waking? then
              && t.tab.life.phase.RestoreFailed? && t.tab.mounted == s.tab.mounted && t.mounts == s.mounts
              && t.tab.history == s.tab.history && t.tab.life.restoreDeadline.None?
              && t.tab.life.release == (if e.slow then Some(s.receipts) else s.tab.life.release)
            else
              && t.tab.mounted == Some(e.document) && t.mounts == s.mounts + [e.generation]
              && !t.tab.life.visible && t.tab.life.everLive
              && t.tab.life.phase == (if s.tab.life.phase.Waking? then Waking else Live)
              && t.tab.history.current == s.tab.history.current
              && t.tab.history.entries == (if e.url.Some? then
                   s.tab.history.entries[s.tab.history.current := Current(s.tab.history).(url := e.url.value)]
                 else s.tab.history.entries)
  {
  }
}
