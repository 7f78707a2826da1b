/** One tab's load, sleep and wake machine (browser.rs and tab_lifecycle.rs).

    Generations fence stale loads, epochs fence stale timers, and teardown receipts fence reloads. The
    functions below say what each command and each document-thread step makes of the tab; the step relation
    lets timers, loads, receipts and surface events arrive in any order and be handled in any order. */
module TabLifecycle {
  import opened Wrappers
  import opened SessionHistory

  const MAX_U64: nat := 0xFFFF_FFFF_FFFF_FFFF
  const RESTORE_NS: nat := 30_000_000_000

  function SaturatingAdd(a: nat, b: nat): nat {
    if a + b <= MAX_U64 then a + b else MAX_U64
  }

  datatype Phase = Dormant | Live | Freezing | Discarding | Sleeping | Waking | RestoreFailed

  datatype Deadline = Deadline(due: nat, generation: nat, epoch: nat)

  /** What identifies a painted page: the generation it was reported for and its document. */
  datatype Surface = Surface(generation: nat, document: nat)

  datatype Life = Life(
    phase: Phase, visible: bool, epoch: nat, hiddenAt: nat, deadline: Option<Deadline>,
    restoreDeadline: Option<Deadline>, everLive: bool, preview: bool, previewSurface: Option<Surface>,
    release: Option<nat>, wakeRequested: bool, awaitPreview: bool, discarded: bool)

  /** `mounted` is the document id of the page on show. */
  datatype Tab = Tab(generation: nat, mounted: Option<nat>, history: History, loading: bool, life: Life)

  // TabLife.

  function DeadlineCancelled(l: Life): Life { l.(epoch := l.epoch + 1, deadline := None) }

  function RestoreCancelled(l: Life): Life { l.(restoreDeadline := None) }

  function LifeNavigated(l: Life): Life {
    RestoreCancelled(DeadlineCancelled(l)).(
      preview := false, previewSurface := None, discarded := false, awaitPreview := false,
      phase := if l.phase.Discarding? || l.phase.Freezing? then l.phase else Dormant)
  }

  // Timers.

  function HiddenArmed(t: Tab, delay: nat): Tab {
    if t.life.visible || !t.life.phase.Live? || t.life.deadline.Some? then t
    else t.(life := t.life.(deadline :=
              Some(Deadline(SaturatingAdd(t.life.hiddenAt, delay), t.generation, t.life.epoch))))
  }

  function RestoreArmed(t: Tab, now: nat): Tab {
    if !t.life.phase.Waking? then t
    else t.(life := t.life.(restoreDeadline :=
              Some(Deadline(SaturatingAdd(now, RESTORE_NS), t.generation, t.life.epoch))))
  }

  // Loads.

  /** `schedule_current` refuses to reload a discarded page whose request cannot be repeated. */
  predicate Refuses(t: Tab)
    requires t.history.current < |t.history.entries|
  {
    t.life.discarded && t.mounted.None? && !Replayable(Current(t.history))
  }

  predicate Starts(t: Tab)
    requires t.history.current < |t.history.entries|
  {
    !t.life.phase.Discarding? && !t.life.phase.Freezing? && !Refuses(t)
  }

  function Restarted(t: Tab): Tab {
    var l := RestoreCancelled(DeadlineCancelled(t.life)).(awaitPreview := false);
    t.(generation := t.generation + 1, loading := true,
       life := l.(phase := if l.discarded && t.mounted.None? then Waking
                           else if t.mounted.Some? then Live else l.phase))
  }

  function Scheduled(t: Tab, now: nat, delay: nat): Tab
    requires t.history.current < |t.history.entries|
  {
    if t.life.phase.Discarding? then t.(life := t.life.(wakeRequested := true))
    else if t.life.phase.Freezing? then t.(loading := true)
    else if Refuses(t) then t.(life := t.life.(phase := RestoreFailed))
    else HiddenArmed(RestoreArmed(Restarted(t), now), delay)
  }

  function Redirected(t: Tab, request: Entry): Tab
    requires t.history.current < |t.history.entries|
  {
    t.(life := LifeNavigated(t.life), history := Navigated(t.history, request))
  }

  // Sleep and wake.

  predicate MayWake(t: Tab) {
    !t.life.phase.Discarding? && t.life.release.None? && (t.life.phase.Sleeping? || t.life.phase.RestoreFailed?)
  }

  /** `request_wake` up to its call of `schedule_current`. */
  function Awoken(t: Tab): Tab
    requires t.history.current < |t.history.entries|
  {
    AwokenIf(t, Replayable(Current(t.history)))
  }

  function AwokenIf(t: Tab, replayable: bool): Tab {
    if t.life.phase.Discarding? || t.life.release.Some? then t.(life := t.life.(wakeRequested := true))
    else if !MayWake(t) then t
    else if !replayable then t.(life := t.life.(phase := RestoreFailed))
    else t.(life := t.life.(phase := Waking, previewSurface := None, awaitPreview := t.life.preview))
  }

  predicate WakeSchedules(t: Tab)
    requires t.history.current < |t.history.entries|
  {
    MayWake(t) && Replayable(Current(t.history)) && !t.life.preview
  }

  /** The checks at the top of `commit_sleep`. */
  predicate MaySleep(t: Tab, generation: nat, epoch: nat, automatic: bool, now: nat) {
    && t.generation == generation && t.life.epoch == epoch
    && !(t.loading && !automatic) && t.life.phase.Live?
    && (automatic ==> !t.life.visible && t.life.deadline.Some? && t.life.deadline.value.due <= now)
    && t.mounted.Some?
  }

  /** The page's freeze handlers run inside `commit_sleep` and may navigate. */
  function Frozen(t: Tab, navigations: seq<Entry>, now: nat, delay: nat): Tab
    requires Valid(t.history) && (t.life.phase.Freezing? || t.life.phase.Live?)
    decreases |navigations|
  {
    var f := t.(life := t.life.(phase := Freezing));
    if navigations == [] then f
    else Frozen(Scheduled(Redirected(f, navigations[0]), now, delay), navigations[1..], now, delay)
  }

  /** After the freeze: unchanged since the message was queued, or changed by nothing but a navigation. */
  predicate StillSleeping(t: Tab, generation: nat, epoch: nat) {
    && t.generation == generation
    && (t.life.epoch == epoch || (t.life.phase.Freezing? && t.loading))
  }

  function Committed(t: Tab, preview: bool, receipt: nat): Tab {
    t.(generation := t.generation + 1, mounted := None, loading := false, history := Asleep(t.history),
       life := RestoreCancelled(DeadlineCancelled(t.life)).(
         phase := Discarding, visible := false, discarded := true, preview := preview, release := Some(receipt)))
  }

  predicate MayTimeOut(t: Tab, generation: nat) {
    t.generation == generation && t.life.phase.Waking?
  }

  function TimedOut(t: Tab, receipt: nat): Tab {
    t.(generation := t.generation + 1, loading := false, mounted := None,
       life := RestoreCancelled(t.life).(
         phase := RestoreFailed, visible := false, previewSurface := None,
         release := if t.mounted.Some? then Some(receipt) else t.life.release))
  }

  /** `Released` up to its call of `request_wake`. */
  function ReleasedTab(t: Tab): Tab {
    t.(life := t.life.(release := None, wakeRequested := false,
                       phase := if t.life.phase.RestoreFailed? then RestoreFailed else Sleeping))
  }

  // Pages.

  function Mounted(t: Tab, document: nat, url: Option<string>, now: nat, delay: nat): Tab
    requires t.history.current < |t.history.entries|
  {
    HiddenArmed(
      t.(mounted := Some(document), loading := false,
         history := if url.Some? then Resolved(t.history, url.value) else t.history,
         life := t.life.(visible := false, previewSurface := None, everLive := true,
                         hiddenAt := if t.life.everLive then t.life.hiddenAt else now,
                         phase := if t.life.phase.Waking? then Waking else Live)),
      delay)
  }

  function WakeFailed(t: Tab): Tab {
    t.(loading := false, life := RestoreCancelled(t.life).(phase := RestoreFailed, previewSurface := None))
  }

  predicate SeesVisibility(t: Tab, page: Surface, visible: bool) {
    t.generation == page.generation && t.mounted == Some(page.document) && t.life.visible != visible
  }

  function VisibilityChanged(t: Tab, visible: bool, now: nat, delay: nat): Tab {
    var l := DeadlineCancelled(t.life);
    HiddenArmed(t.(life := l.(visible := visible, hiddenAt := if visible then l.hiddenAt else now)), delay)
  }

  predicate SeesPreviewPaint(t: Tab, page: Surface) {
    && t.generation == page.generation && t.life.phase.Waking?
    && t.life.awaitPreview && t.life.previewSurface == Some(page)
  }

  predicate SeesPagePaint(t: Tab, page: Surface) {
    && t.generation == page.generation && t.life.phase.Waking? && !SeesPreviewPaint(t, page)
    && t.mounted == Some(page.document)
  }

  function PagePainted(t: Tab): Tab {
    t.(life := RestoreCancelled(t.life).(phase := Live, preview := false, previewSurface := None))
  }

  // The machine: the tab, the clock, and everything in flight towards it.

  datatype Message =
    | Sleep(generation: nat, epoch: nat, automatic: bool)
    | Released(receipt: nat)
    | Visibility(page: Surface, visible: bool)
    | Painted(page: Surface)
    | RestoreTimeout(generation: nat)

  /** `inFlight` holds every load that has been started and not yet handled, with the history position it was
      started for; `armed` every hidden-tab deadline ever armed; `restoring` the generations a restore deadline
      was armed for; `completed` the receipts whose teardown is complete. `mounts` is the history of mounted
      generations. */
  datatype State = State(
    tab: Tab, now: nat, delay: nat, inFlight: map<nat, nat>, armed: set<Deadline>, restoring: set<nat>,
    messages: multiset<Message>, receipts: nat, completed: set<nat>, mounts: seq<nat>)

  /** The tab after a step that spawned the tasks for its deadlines. */
  function Put(s: State, t: Tab): State {
    s.(tab := t,
       armed := s.armed + (if t.life.deadline.Some? then {t.life.deadline.value} else {}),
       restoring := s.restoring +
         (if t.life.restoreDeadline.Some? then {t.life.restoreDeadline.value.generation} else {}))
  }

  /** `schedule_current`: a load is spawned exactly when the tab starts one. */
  function Schedule(s: State): State
    requires Valid(s.tab.history)
  {
    var t := Scheduled(s.tab, s.now, s.delay);
    if Starts(s.tab) then
      Put(s, t).(inFlight := s.inFlight[t.generation := t.history.current])
    else Put(s, t)
  }

  function Navigate(s: State, request: Entry): State
    requires Valid(s.tab.history)
  {
    Schedule(s.(tab := Redirected(s.tab, request)))
  }

  function NavigateAll(s: State, requests: seq<Entry>): State
    requires Valid(s.tab.history)
    ensures Valid(NavigateAll(s, requests).tab.history)
    decreases |requests|
  {
    if requests == [] then s else NavigateAll(Navigate(s, requests[0]), requests[1..])
  }

  function Wake(s: State): State
    requires Valid(s.tab.history)
  {
    var s' := Put(s, Awoken(s.tab));
    if WakeSchedules(s.tab) then Schedule(s') else s'
  }

  datatype Command =
    | Go(request: Entry)
    | GoBack
    | GoForward
    | Reload
    | AskSleep
    | AskWake
    | Select(dormant: bool)
    | SetUserAgent

  /** The phases in which `reload` and `select_tab` ask for a wake. */
  predicate WantsWake(p: Phase) { p.Sleeping? || p.Discarding? || p.RestoreFailed? }

  function Commanded(s: State, c: Command): State
    requires Valid(s.tab.history)
  {
    match c
    case Go(request) => Navigate(s, request)
    case GoBack =>
      if CanGoBack(s.tab.history) then Schedule(s.(tab := s.tab.(history := Back(s.tab.history)))) else s
    case GoForward =>
      if CanGoForward(s.tab.history) then Schedule(s.(tab := s.tab.(history := Forward(s.tab.history)))) else s
    case Reload => if WantsWake(s.tab.life.phase) then Wake(s) else Schedule(s)
    case AskSleep =>
      if s.tab.loading || s.tab.mounted.None? || !s.tab.life.phase.Live? then s
      else s.(messages := s.messages + multiset{Message.Sleep(s.tab.generation, s.tab.life.epoch, false)})
    case AskWake => Wake(s)
    case Select(dormant) =>
      if WantsWake(s.tab.life.phase) then Wake(s) else if dormant then Schedule(s) else s
    case SetUserAgent => Schedule(s)
  }

  /** `commit_sleep`. `able` is false when the record is too large, the sleeping budget is spent or the page's
      document has gone; `navigations` are those of the freeze handlers. */
  function SleepHandled(s: State, m: Message, able: bool, navigations: seq<Entry>, preview: bool): State
    requires Valid(s.tab.history) && m.Sleep?
  {
    if !able || !MaySleep(s.tab, m.generation, m.epoch, m.automatic, s.now) then s
    else
      var f := Frozen(s.tab, navigations, s.now, s.delay);
      if StillSleeping(f, m.generation, m.epoch)
      then Put(s, Committed(f, preview, s.receipts)).(receipts := s.receipts + 1)
      else Put(s, f)
  }

  function MessageHandled(s: State, m: Message, able: bool, navigations: seq<Entry>, preview: bool): State
    requires Valid(s.tab.history)
  {
    match m
    case Sleep(_, _, _) => SleepHandled(s, m, able, navigations, preview)
    case Released(receipt) =>
      if s.tab.life.release != Some(receipt) || receipt !in s.completed then s
      else
        var s' := Put(s, ReleasedTab(s.tab));
        if s.tab.life.wakeRequested then Wake(s') else s'
    case Visibility(page, visible) =>
      if SeesVisibility(s.tab, page, visible) then Put(s, VisibilityChanged(s.tab, visible, s.now, s.delay)) else s
    case Painted(page) =>
      if SeesPreviewPaint(s.tab, page) then
        Schedule(s.(tab := s.tab.(life := s.tab.life.(awaitPreview := false))))
      else if SeesPagePaint(s.tab, page) then Put(s, PagePainted(s.tab))
      else s
    case RestoreTimeout(generation) =>
      if MayTimeOut(s.tab, generation) then Put(s, TimedOut(s.tab, s.receipts)).(receipts := s.receipts + 1) else s
  }

  /** The end of one bundle in `poll_document`, after the page's scripts have run: the failed wake, or the
      second generation check and the mount. `slow` says that a discarded page is not torn down at once. */
  function ScriptsDone(
    r: State, generation: nat, error: bool, document: nat, url: Option<string>, slow: bool): State
    requires Valid(r.tab.history)
  {
    if error && r.tab.life.phase.Waking? then
      var t := if r.tab.generation == generation then WakeFailed(r.tab) else r.tab;
      if slow then Put(r, t.(life := t.life.(release := Some(r.receipts)))).(receipts := r.receipts + 1)
      else Put(r, t)
    else if r.tab.generation == generation then
      Put(r, Mounted(r.tab, document, url, r.now, r.delay)).(mounts := r.mounts + [generation])
    else r
  }

  /** One bundle: the first generation check, the page's scripts (which may navigate), then the above. */
  function LoadHandled(
    s: State, generation: nat, error: bool, navigations: seq<Entry>, document: nat, url: Option<string>, slow: bool)
    : State
    requires Valid(s.tab.history)
  {
    var gone := s.(inFlight := s.inFlight - {generation});
    if s.tab.generation != generation then gone
    else ScriptsDone(NavigateAll(gone, navigations), generation, error, document, url, slow)
  }

  datatype Event =
    | Command(command: Command)
    | Handle(message: Message, able: bool, navigations: seq<Entry>, preview: bool)
    | Load(generation: nat, error: bool, scripts: seq<Entry>, document: nat, url: Option<string>, slow: bool)
    | Tick(now: nat)
    | Expire(deadline: Deadline)
    | ExpireRestore(generation: nat)
    | Complete(receipt: nat)
    | Post(message: Message)
    | ShowPreview(document: nat)
    | DropPreview

  /** Messages any other thread may post at any time: surface events, and `Released` for any receipt. */
  predicate Postable(s: State, m: Message) {
    m.Visibility? || m.Painted? || (m.Released? && m.receipt < s.receipts)
  }

  ghost predicate Next(s: State, e: Event, t: State) {
    && Valid(s.tab.history)
    && match e
    case Command(command) => t == Commanded(s, command)
    case Handle(message, able, navigations, preview) =>
      && message in s.messages
      && t == MessageHandled(s.(messages := s.messages - multiset{message}), message, able, navigations, preview)
    case Load(generation, error, scripts, document, url, slow) =>
      && generation in s.inFlight && t == LoadHandled(s, generation, error, scripts, document, url, slow)
    case Tick(now) => s.now <= now <= MAX_U64 && t == s.(now := now)
    case Expire(d) =>
      && d in s.armed && d.due <= s.now
      && t == s.(messages := s.messages + multiset{Message.Sleep(d.generation, d.epoch, true)})
    case ExpireRestore(generation) =>
      generation in s.restoring && t == s.(messages := s.messages + multiset{RestoreTimeout(generation)})
    case Complete(receipt) => receipt < s.receipts && t == s.(completed := s.completed + {receipt})
    case Post(message) => Postable(s, message) && t == s.(messages := s.messages + multiset{message})
    case ShowPreview(document) =>
      && s.tab.life.preview && s.tab.life.previewSurface.None?
      && t == s.(tab := s.tab.(life := s.tab.life.(previewSurface := Some(Surface(s.tab.generation, document)))))
    case DropPreview => t == s.(tab := s.tab.(life := s.tab.life.(preview := false)))
  }

  ghost predicate Init(s: State) {
    && |s.tab.history.entries| == 1 && s.tab.history.current == 0
    && s.tab.generation == 0 && s.tab.mounted.None? && !s.tab.loading
    && s.tab.life == Life(Dormant, false, 0, s.now, None, None, false, false, None, None, false, false, false)
    && s.now <= MAX_U64
    && s.inFlight == map[] && s.armed == {} && s.restoring == {} && s.messages == multiset{}
    && s.receipts == 0 && s.completed == {} && s.mounts == []
  }

  /** Step `i`, under a name: a run is unfolded only where this name is used. */
  ghost predicate IsStep(states: seq<State>, events: seq<Event>, i: nat)
    requires |states| == |events| + 1 && i < |events|
  {
    Next(states[i], events[i], states[i + 1])
  }

  ghost predicate IsRun(states: seq<State>, events: seq<Event>) {
    && |states| == |events| + 1
    && Init(states[0])
    && forall i :: 0 <= i < |events| ==> IsStep(states, events, i)
  }

  lemma StepAt(states: seq<State>, events: seq<Event>, i: nat)
    requires IsRun(states, events) && i < |events|
    ensures Next(states[i], events[i], states[i + 1])
  {
    assert IsStep(states, events, i);
  }

  // The invariant.

  /** Loads in flight are no newer than the tab and have not been mounted; mounts go forward only. */
  ghost predicate Fenced(s: State) {
    && (forall g :: g in s.inFlight ==> g <= s.tab.generation && g !in s.mounts)
    && (forall i, j :: 0 <= i < j < |s.mounts| ==> s.mounts[i] < s.mounts[j])
    && (forall m :: m in s.mounts ==> m <= s.tab.generation)
  }

  /** While a page is being torn down nothing can mount and the tab waits for a receipt it was given. */
  ghost predicate Guarded(s: State) {
    && !s.tab.life.phase.Freezing?
    && (s.tab.life.release.Some? ==> s.tab.life.release.value < s.receipts)
    && (s.tab.life.phase.Discarding? ==>
          s.tab.life.release.Some? && s.tab.mounted.None? && s.tab.generation !in s.inFlight)
  }

  /** An armed deadline belongs to the present epoch and to the recorded `hiddenAt`. */
  ghost predicate Timed(s: State) {
    var l := s.tab.life;
    && (s.tab.mounted.Some? ==> l.everLive)
    && (l.phase.Live? ==> s.tab.mounted.Some?)
    && (l.deadline.Some? ==>
          l.everLive && l.deadline.value.epoch == l.epoch
          && l.deadline.value.due == SaturatingAdd(l.hiddenAt, s.delay))
  }

  /** No timer and no message is from a future epoch. */
  ghost predicate Dated(s: State) {
    && (forall d :: d in s.armed ==> d.epoch <= s.tab.life.epoch)
    && (forall m :: m in s.messages && m.Sleep? ==> m.epoch <= s.tab.life.epoch)
  }

  ghost predicate Inv(s: State) {
    Valid(s.tab.history) && Fenced(s) && Guarded(s) && Timed(s) && Dated(s)
  }

  /** A step that mounts nothing, takes neither number back and starts loads under new generations only. */
  predicate Onward(s: State, t: State) {
    && t.mounts == s.mounts && s.tab.generation <= t.tab.generation && s.tab.life.epoch <= t.tab.life.epoch
    && (forall g :: g in t.inFlight && g !in s.inFlight ==>
          s.tab.generation < g && s.tab.life.epoch < t.tab.life.epoch)
  }

  predicate SameBarrier(s: State, t: State) {
    s.tab.life.phase.Discarding? <==> t.tab.life.phase.Discarding?
  }

  lemma InvSchedule(s: State)
    requires Inv(s)
    ensures Inv(Schedule(s)) && Onward(s, Schedule(s)) && Schedule(s).receipts == s.receipts
    ensures SameBarrier(s, Schedule(s))
    ensures Starts(s.tab) ==>
      Schedule(s).tab.generation == s.tab.generation + 1 && s.tab.life.epoch < Schedule(s).tab.life.epoch
  {
  }

  lemma InvNavigate(s: State, request: Entry)
    requires Inv(s)
    ensures Inv(Navigate(s, request)) && Onward(s, Navigate(s, request))
    ensures SameBarrier(s, Navigate(s, request))
    ensures s.tab.life.epoch < Navigate(s, request).tab.life.epoch
    ensures !s.tab.life.phase.Discarding? ==> s.tab.generation < Navigate(s, request).tab.generation
    ensures Navigate(s, request).receipts == s.receipts
  {
    InvSchedule(s.(tab := Redirected(s.tab, request)));
  }

  /** A change of life that leaves timers, epoch, receipt and barrier alone. */
  predicate Mild(t: Tab, t': Tab) {
    var l := t'.life;
    && t' == t.(life := l)
    && l.epoch == t.life.epoch && l.deadline == t.life.deadline && l.everLive == t.life.everLive
    && l.hiddenAt == t.life.hiddenAt && l.release == t.life.release && !l.phase.Freezing?
    && (l.phase.Discarding? <==> t.life.phase.Discarding?) && (l.phase.Live? ==> t.mounted.Some?)
  }

  lemma InvMild(s: State, t': Tab)
    requires Inv(s) && Mild(s.tab, t')
    ensures var t := Put(s, t'); Inv(t) && Onward(s, t) && SameBarrier(s, t)
  {
  }

  lemma AwokenMild(t: Tab, replayable: bool)
    requires !t.life.phase.Freezing? && (t.life.phase.Live? ==> t.mounted.Some?)
    ensures Mild(t, AwokenIf(t, replayable))
  {
  }

  lemma InvAwoken(s: State)
    requires Inv(s)
    ensures Inv(Put(s, Awoken(s.tab))) && Onward(s, Put(s, Awoken(s.tab)))
    ensures SameBarrier(s, Put(s, Awoken(s.tab)))
  {
    AwokenMild(s.tab, Replayable(Current(s.tab.history)));
    InvMild(s, Awoken(s.tab));
  }

  lemma InvWake(s: State)
    requires Inv(s)
    ensures Inv(Wake(s)) && Onward(s, Wake(s)) && SameBarrier(s, Wake(s))
  {
    InvAwoken(s);
    InvSchedule(Put(s, Awoken(s.tab)));
  }

  lemma InvMove(s: State, h: History)
    requires Inv(s) && Valid(h)
    ensures var t := Schedule(s.(tab := s.tab.(history := h))); Inv(t) && Onward(s, t) && SameBarrier(s, t)
  {
    var s' := s.(tab := s.tab.(history := h));
    assert Inv(s');
    InvSchedule(s');
  }

  lemma InvCommand(s: State, c: Command)
    requires Inv(s)
    ensures Inv(Commanded(s, c)) && Onward(s, Commanded(s, c)) && SameBarrier(s, Commanded(s, c))
  {
    match c
    case Go(request) => InvNavigate(s, request);
    case GoBack => InvMove(s, Back(s.tab.history));
    case GoForward => InvMove(s, Forward(s.tab.history));
    case Reload => InvWake(s); InvSchedule(s);
    case AskSleep =>
    case AskWake => InvWake(s);
    case Select(dormant) => InvWake(s); InvSchedule(s);
    case SetUserAgent => InvSchedule(s);
  }

  /** Whatever the freeze handlers do, the sleep goes through: a navigation only leaves its entry behind. */
  lemma {:induction false} FreezeCommits(t: Tab, navigations: seq<Entry>, now: nat, delay: nat)
    requires Valid(t.history) && (t.life.phase.Freezing? || t.life.phase.Live?)
    ensures var f := Frozen(t, navigations, now, delay);
      && StillSleeping(f, t.generation, t.life.epoch)
      && t.life.epoch <= f.life.epoch && f.life.phase.Freezing? && Valid(f.history)
      && f.life.everLive == t.life.everLive && f.mounted == t.mounted
      && (t.loading ==> f.loading)
    decreases |navigations|
  {
    if navigations == [] {
    } else {
      var f := t.(life := t.life.(phase := Freezing));
      var f' := Scheduled(Redirected(f, navigations[0]), now, delay);
      FreezeCommits(f', navigations[1..], now, delay);
    }
  }

  lemma InvSleep(s: State, m: Message, able: bool, navigations: seq<Entry>, preview: bool)
    requires Inv(s) && m.Sleep?
    ensures var t := SleepHandled(s, m, able, navigations, preview);
      && Inv(t) && Onward(s, t)
      && if able && MaySleep(s.tab, m.generation, m.epoch, m.automatic, s.now) then
           && t.tab.life.phase.Discarding? && t.tab.generation == s.tab.generation + 1
           && t.tab.life.release == Some(s.receipts) && t.receipts == s.receipts + 1
         else t == s
  {
    if able && MaySleep(s.tab, m.generation, m.epoch, m.automatic, s.now) {
      FreezeCommits(s.tab, navigations, s.now, s.delay);
    }
  }

  lemma InvReleased(s: State, receipt: nat, able: bool, preview: bool)
    requires Inv(s)
    ensures var t := MessageHandled(s, Released(receipt), able, [], preview);
      Inv(t) && Onward(s, t) && (t.tab.life.phase.Discarding? ==> s.tab.life.phase.Discarding?)
  {
    var s' := Put(s, ReleasedTab(s.tab));
    assert Inv(s');
    InvWake(s');
  }

  lemma InvPainted(s: State, page: Surface, able: bool, preview: bool)
    requires Inv(s)
    ensures var t := MessageHandled(s, Painted(page), able, [], preview);
      Inv(t) && Onward(s, t) && (t.tab.life.phase.Discarding? ==> s.tab.life.phase.Discarding?)
  {
    if SeesPreviewPaint(s.tab, page) {
      var s' := s.(tab := s.tab.(life := s.tab.life.(awaitPreview := false)));
      assert Inv(s');
      InvSchedule(s');
    } else if SeesPagePaint(s.tab, page) {
      InvMild(s, PagePainted(s.tab));
    }
  }

  lemma InvVisibility(s: State, visible: bool)
    requires Inv(s) && s.tab.mounted.Some?
    ensures var t := Put(s, VisibilityChanged(s.tab, visible, s.now, s.delay));
      Inv(t) && Onward(s, t) && SameBarrier(s, t) && s.tab.life.epoch < t.tab.life.epoch
  {
  }

  lemma InvMessage(s: State, m: Message, able: bool, navigations: seq<Entry>, preview: bool)
    requires Inv(s)
    ensures var t := MessageHandled(s, m, able, navigations, preview);
      && Inv(t) && Onward(s, t)
      && (!m.Sleep? && t.tab.life.phase.Discarding? ==> s.tab.life.phase.Discarding?)
  {
    match m
    case Sleep(_, _, _) => InvSleep(s, m, able, navigations, preview);
    case Released(receipt) => InvReleased(s, receipt, able, preview);
    case Painted(page) => InvPainted(s, page, able, preview);
    case Visibility(page, visible) =>
      if SeesVisibility(s.tab, page, visible) {
        InvVisibility(s, visible);
      }
    case RestoreTimeout(generation) =>
  }

  lemma {:induction false} InvNavigateAll(s: State, requests: seq<Entry>)
    requires Inv(s)
    ensures var r := NavigateAll(s, requests);
      && Inv(r) && Onward(s, r) && SameBarrier(s, r) && r.receipts == s.receipts
      && (requests != [] && !s.tab.life.phase.Discarding? ==> s.tab.generation < r.tab.generation)
    decreases |requests|
  {
    if requests == [] {
    } else {
      InvNavigate(s, requests[0]);
      InvNavigateAll(Navigate(s, requests[0]), requests[1..]);
    }
  }

  /** `generation` is mounted in the step from `s` to `t`. */
  predicate Mounts(s: State, t: State, generation: nat) {
    t.mounts == s.mounts + [generation]
  }

  lemma InvMount(s: State, document: nat, url: Option<string>)
    requires Inv(s) && s.tab.generation !in s.inFlight && s.tab.generation !in s.mounts
    requires !s.tab.life.phase.Discarding?
    ensures var t := Put(s, Mounted(s.tab, document, url, s.now, s.delay)).(mounts := s.mounts + [s.tab.generation]);
      && Inv(t) && t.tab.generation == s.tab.generation && t.tab.life.epoch == s.tab.life.epoch
      && SameBarrier(s, t)
  {
    forall i | 0 <= i < |s.mounts| ensures s.mounts[i] < s.tab.generation {
      assert s.mounts[i] in s.mounts;
    }
  }

  lemma InvWakeFailed(s: State, t: Tab, slow: bool)
    requires Inv(s) && !s.tab.life.phase.Discarding? && (t == s.tab || t == WakeFailed(s.tab))
    ensures var r := if slow then Put(s, t.(life := t.life.(release := Some(s.receipts)))).(receipts := s.receipts + 1)
                     else Put(s, t);
      Inv(r) && Onward(s, r) && SameBarrier(s, r)
  {
  }

  lemma InvScriptsDone(r: State, generation: nat, error: bool, document: nat, url: Option<string>, slow: bool)
    requires Inv(r) && generation !in r.inFlight && generation !in r.mounts && !r.tab.life.phase.Discarding?
    ensures var t := ScriptsDone(r, generation, error, document, url, slow);
      && Inv(t) && SameBarrier(r, t) && t.inFlight == r.inFlight
      && (Onward(r, t) || (Mounts(r, t, generation) && r.tab.generation == t.tab.generation == generation
                           && t.tab.life.epoch == r.tab.life.epoch))
  {
    if error && r.tab.life.phase.Waking? {
      InvWakeFailed(r, if r.tab.generation == generation then WakeFailed(r.tab) else r.tab, slow);
    } else if r.tab.generation == generation {
      InvMount(r, document, url);
    }
  }

  /** A load is mounted only if it is the tab's newest and its page's scripts did not navigate. */
  lemma InvLoad(
    s: State, generation: nat, error: bool, scripts: seq<Entry>, document: nat, url: Option<string>, slow: bool)
    requires Inv(s) && generation in s.inFlight
    ensures var t := LoadHandled(s, generation, error, scripts, document, url, slow);
      && Inv(t) && SameBarrier(s, t)
      && (Onward(s, t) || (Mounts(s, t, generation) && scripts == [] && t.tab.generation == generation
                           && t.tab.life.epoch == s.tab.life.epoch && t.inFlight.Keys <= s.inFlight.Keys))
      && (Mounts(s, t, generation) ==> s.tab.generation == generation && !s.tab.life.phase.Discarding?)
  {
    var gone := s.(inFlight := s.inFlight - {generation});
    if s.tab.generation == generation {
      InvNavigateAll(gone, scripts);
      InvScriptsDone(NavigateAll(gone, scripts), generation, error, document, url, slow);
    }
  }

  lemma InvEnvironment(s: State, e: Event, t: State)
    requires Inv(s) && Next(s, e, t) && !e.Command? && !e.Handle? && !e.Load?
    ensures Inv(t) && Onward(s, t) && SameBarrier(s, t)
    ensures t.inFlight == s.inFlight && t.tab.generation == s.tab.generation
  {
  }

  lemma InvNext(s: State, e: Event, t: State)
    requires Inv(s) && Next(s, e, t)
    ensures Inv(t) && s.tab.generation <= t.tab.generation && s.tab.life.epoch <= t.tab.life.epoch
    ensures Onward(s, t) || (e.Load? && Mounts(s, t, e.generation))
  {
    match e
    case Command(command) => InvCommand(s, command);
    case Handle(message, able, navigations, preview) =>
      InvMessage(s.(messages := s.messages - multiset{message}), message, able, navigations, preview);
    case Load(generation, error, scripts, document, url, slow) =>
      InvLoad(s, generation, error, scripts, document, url, slow);
    case _ => InvEnvironment(s, e, t);
  }

  lemma {:induction false} InvRun(states: seq<State>, events: seq<Event>, k: nat)
    requires IsRun(states, events) && k < |states|
    ensures Inv(states[k])
  {
    if k == 0 {
      assert Inv(states[0]);
    } else {
      InvRun(states, events, k - 1);
      StepAt(states, events, k - 1);
      InvNext(states[k - 1], events[k - 1], states[k]);
    }
  }

  lemma {:induction false} NumbersGrow(states: seq<State>, events: seq<Event>, j: nat, k: nat)
    requires IsRun(states, events) && j <= k < |states|
    ensures states[j].tab.generation <= states[k].tab.generation
    ensures states[j].tab.life.epoch <= states[k].tab.life.epoch
    decreases k - j
  {
    if j == k {
    } else {
      NumbersGrow(states, events, j, k - 1);
      InvRun(states, events, k - 1);
      StepAt(states, events, k - 1);
      InvNext(states[k - 1], events[k - 1], states[k]);
    }
  }
}
