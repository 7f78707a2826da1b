/** The IntersectionObserver scheduler (document_loader.rs, `ioUpdate` to `ioDropQueued` and the observer's
    methods). A page has many observers; `ioActive` lists those with targets, `ioFrame` and `ioDelivery` say
    whether a frame and a delivery are scheduled. Page script runs between steps, inside callbacks too. */
module ObserverScheduler {
  import opened Wrappers
  import opened ObserverGeometry

  /** `reports` is history: what this observation has queued so far. */
  datatype Observation = Observation(id: nat, target: nat, index: int, intersecting: bool, seen: bool,
                                     reports: seq<Entry>)

  datatype Entry = Entry(of: nat, target: nat, report: Report)

  /** `handed` is history: the entries passed to the callback or returned by `takeRecords`. */
  datatype Record = Record(thresholds: seq<real>, targets: seq<Observation>, queue: seq<Entry>, handed: seq<Entry>)

  /** `delivering` is what is left of the list a running `ioDeliver` walks; `count` numbers observations. */
  datatype State = State(records: seq<Record>, active: seq<nat>, frame: bool, delivery: bool, delivering: seq<nat>,
                         count: nat)

  datatype Event =
    | Construct(thresholds: seq<real>)
    | Observe(r: nat, target: nat)
    | Unobserve(r: nat, target: nat)
    | Disconnect(r: nat)
    | TakeRecords(r: nat)
    | Frame(readings: map<(nat, nat), Report>)
    | StartDelivery
    | Deliver

  const INITIAL := State([], [], false, false, [], 0)

  // One record.

  predicate Observes(targets: seq<Observation>, target: nat) {
    exists i :: 0 <= i < |targets| && targets[i].target == target
  }

  function Without(targets: seq<Observation>, target: nat): seq<Observation> {
    if targets == [] then []
    else Without(targets[..|targets| - 1], target) +
         (if targets[|targets| - 1].target != target then [targets[|targets| - 1]] else [])
  }

  function Dropped(queue: seq<Entry>, target: nat): seq<Entry> {
    if queue == [] then []
    else Dropped(queue[..|queue| - 1], target) +
         (if queue[|queue| - 1].target != target then [queue[|queue| - 1]] else [])
  }

  /** `ioUpdate` for one target; a target whose geometry threw has no reading. */
  function Measured(r: Record, i: nat, reading: Option<Report>): Record
    requires i < |r.targets|
  {
    var o := r.targets[i];
    if reading.None? then r
    else
      var index := Index(r.thresholds, reading.value);
      if o.seen && index == o.index && reading.value.intersecting == o.intersecting then r
      else
        var e := Entry(o.id, o.target, reading.value);
        var o' := Observation(o.id, o.target, index, reading.value.intersecting, true, o.reports + [e]);
        r.(targets := r.targets[i := o'], queue := r.queue + [e])
  }

  function Reading(readings: map<(nat, nat), Report>, r: nat, target: nat): Option<Report> {
    if (r, target) in readings then Some(readings[(r, target)]) else None
  }

  /** `ioUpdate` for the first `n` targets. */
  function Updated(r: Record, self: nat, readings: map<(nat, nat), Report>, n: nat): (u: Record)
    requires n <= |r.targets|
    ensures |u.targets| == |r.targets|
  {
    if n == 0 then r
    else
      var u := Updated(r, self, readings, n - 1);
      Measured(u, n - 1, Reading(readings, self, u.targets[n - 1].target))
  }

  function Watching(c: Record, target: nat, id: nat): Record {
    c.(targets := c.targets + [Observation(id, target, -1, false, false, [])])
  }

  function Reduced(c: Record, target: nat): Record {
    c.(targets := Without(c.targets, target), queue := Dropped(c.queue, target))
  }

  function Handed(c: Record): Record { c.(queue := [], handed := c.handed + c.queue) }

  // The steps.

  predicate AnyTargets(s: State) {
    exists i :: 0 <= i < |s.active| && s.active[i] < |s.records| && s.records[s.active[i]].targets != []
  }

  function Scheduled(s: State): State {
    if s.frame || !AnyTargets(s) then s else s.(frame := true)
  }

  /** `active` without the first `r`. */
  function Spliced(active: seq<nat>, r: nat): seq<nat> {
    if active == [] then []
    else if active[0] == r then active[1..]
    else [active[0]] + Spliced(active[1..], r)
  }

  function Retained(s: State, r: nat): State
    requires r < |s.records|
  {
    if s.records[r].targets != [] then
      Scheduled(if r in s.active then s else s.(active := s.active + [r]))
    else s.(active := Spliced(s.active, r))
  }

  function Changed(s: State, r: nat, c: Record, count: nat): State
    requires r < |s.records|
  {
    s.(records := s.records[r := c], count := count)
  }

  function Observed(s: State, r: nat, target: nat): State
    requires r < |s.records|
  {
    var c := s.records[r];
    if Observes(c.targets, target) then s
    else Retained(Changed(s, r, Watching(c, target, s.count), s.count + 1), r)
  }

  function Unobserved(s: State, r: nat, target: nat): State
    requires r < |s.records|
  {
    Retained(s.(records := s.records[r := Reduced(s.records[r], target)]), r)
  }

  function Disconnected(s: State, r: nat): State
    requires r < |s.records|
  {
    Retained(s.(records := s.records[r := s.records[r].(targets := [], queue := [])]), r)
  }

  function Taken(s: State, r: nat): State
    requires r < |s.records|
  {
    s.(records := s.records[r := Handed(s.records[r])])
  }

  /** `ioUpdate` for the first `n` records of `ioActive`. */
  function Framed(records: seq<Record>, active: seq<nat>, readings: map<(nat, nat), Report>, n: nat): (u: seq<Record>)
    requires n <= |active|
    ensures |u| == |records|
  {
    if n == 0 then records
    else
      var u := Framed(records, active, readings, n - 1);
      var r := active[n - 1];
      if r < |u| then u[r := Updated(u[r], r, readings, |u[r].targets|)] else u
  }

  predicate Queued(before: seq<Record>, after: seq<Record>)
    requires |before| == |after|
  {
    exists r :: 0 <= r < |before| && before[r].queue != after[r].queue
  }

  function FrameRun(s: State, readings: map<(nat, nat), Report>): State {
    var records := Framed(s.records, s.active, readings, |s.active|);
    Scheduled(s.(records := records, frame := false, delivery := s.delivery || Queued(s.records, records)))
  }

  function Delivered(s: State): State
    requires s.delivering != []
  {
    var r := s.delivering[0];
    var s' := s.(delivering := s.delivering[1..]);
    if r < |s.records| && s.records[r].queue != [] then Taken(s', r) else s'
  }

  /** Script cannot be interrupted: no frame and no delivery starts while one is under way. */
  ghost predicate Enabled(s: State, e: Event) {
    match e
    case Construct(_) => true
    case Observe(r, _) => r < |s.records|
    case Unobserve(r, _) => r < |s.records|
    case Disconnect(r) => r < |s.records|
    case TakeRecords(r) => r < |s.records|
    case Frame(_) => s.frame && s.delivering == []
    case StartDelivery => s.delivery && s.delivering == []
    case Deliver => s.delivering != []
  }

  ghost function Next(s: State, e: Event): State
    requires Enabled(s, e)
  {
    match e
    case Construct(t) => s.(records := s.records + [Record(t, [], [], [])])
    case Observe(r, target) => Observed(s, r, target)
    case Unobserve(r, target) => Unobserved(s, r, target)
    case Disconnect(r) => Disconnected(s, r)
    case TakeRecords(r) => Taken(s, r)
    case Frame(readings) => FrameRun(s, readings)
    case StartDelivery => s.(delivery := false, delivering := s.active)
    case Deliver => Delivered(s)
  }

  /** Step `i`, under a name: a run is unfolded only where this name is used. */
  ghost predicate IsStep(run: seq<State>, events: seq<Event>, i: nat)
    requires |run| == |events| + 1 && i < |events|
  {
    Enabled(run[i], events[i]) && run[i + 1] == Next(run[i], events[i])
  }

  ghost predicate IsRun(run: seq<State>, events: seq<Event>) {
    && |run| == |events| + 1
    && run[0] == INITIAL
    && forall i :: 0 <= i < |events| ==> IsStep(run, events, i)
  }

  // What holds of a record.

  /** The entries of one observation, in order. */
  function Of(entries: seq<Entry>, id: nat): seq<Entry> {
    if entries == [] then []
    else Of(entries[..|entries| - 1], id) +
         (if entries[|entries| - 1].of == id then [entries[|entries| - 1]] else [])
  }

  predicate Differ(thresholds: seq<real>, a: Entry, b: Entry) {
    || Index(thresholds, a.report) != Index(thresholds, b.report)
    || a.report.intersecting != b.report.intersecting
  }

  predicate Alternates(thresholds: seq<real>, entries: seq<Entry>) {
    forall i :: 0 < i < |entries| ==> Differ(thresholds, entries[i - 1], entries[i])
  }

  ghost predicate Distinct(targets: seq<Observation>) {
    forall i, j :: 0 <= i < j < |targets| ==>
      targets[i].id != targets[j].id && targets[i].target != targets[j].target
  }

  /** Every queued entry comes from an observation still there, and names its target. */
  ghost predicate Live(c: Record) {
    forall e :: e in c.queue ==> IsLive(c.targets, e)
  }

  ghost predicate IsLive(targets: seq<Observation>, e: Entry) {
    exists o :: o in targets && o.id == e.of && o.target == e.target
  }

  /** An observation's fields are those of its last report; its reports are what was handed over and then what
      waits, each once and in order. */
  ghost predicate Kept(c: Record, o: Observation) {
    && o.reports == Of(c.handed, o.id) + Of(c.queue, o.id)
    && (o.seen <==> o.reports != [])
    && (o.seen ==>
          var last := o.reports[|o.reports| - 1].report;
          o.index == Index(c.thresholds, last) && o.intersecting == last.intersecting)
  }

  ghost predicate AllKept(c: Record) {
    forall o :: o in c.targets ==> Kept(c, o)
  }

  ghost predicate Numbered(c: Record, count: nat) {
    && (forall o :: o in c.targets ==> o.id < count)
    && (forall e :: e in c.queue ==> e.of < count)
    && (forall e :: e in c.handed ==> e.of < count)
  }

  ghost predicate Alternating(c: Record) {
    forall id: nat :: Alternates(c.thresholds, Of(c.handed, id) + Of(c.queue, id))
  }

  ghost predicate Sound(c: Record, count: nat) {
    Distinct(c.targets) && Live(c) && AllKept(c) && Numbered(c, count) && Alternating(c)
  }

  lemma {:induction false} OfAppend(a: seq<Entry>, b: seq<Entry>, id: nat)
    ensures Of(a + b, id) == Of(a, id) + Of(b, id)
    decreases |b|
  {
    if b == [] {
      assert a + b == a;
    } else {
      OfAppend(a, b[..|b| - 1], id);
      assert (a + b)[..|a + b| - 1] == a + b[..|b| - 1];
    }
  }

  lemma {:induction false} OfNone(entries: seq<Entry>, id: nat)
    requires forall e :: e in entries ==> e.of != id
    ensures Of(entries, id) == []
    decreases |entries|
  {
    if entries == [] {
    } else {
      assert entries[|entries| - 1] in entries;
      OfNone(entries[..|entries| - 1], id);
    }
  }

  lemma OfOne(entries: seq<Entry>, e: Entry, id: nat)
    ensures Of(entries + [e], id) == Of(entries, id) + if e.of == id then [e] else []
  {
    assert (entries + [e])[..|entries|] == entries;
  }

  // Measuring keeps a record sound.

  lemma MeasuredOthers(c: Record, i: nat, reading: Option<Report>, o: Observation)
    requires i < |c.targets| && Distinct(c.targets) && AllKept(c)
    requires o in Measured(c, i, reading).targets && o.id != c.targets[i].id
    ensures o in c.targets && Kept(Measured(c, i, reading), o)
  {
    var c' := Measured(c, i, reading);
    var k :| 0 <= k < |c'.targets| && c'.targets[k] == o;
    assert c.targets[k] == o;
    if c' != c {
      OfOne(c.queue, c'.queue[|c.queue|], o.id);
      assert c'.queue == c.queue + [c'.queue[|c.queue|]];
    }
  }

  lemma MeasuredSelf(c: Record, i: nat, reading: Option<Report>)
    requires i < |c.targets| && AllKept(c) && Measured(c, i, reading) != c
    ensures var c' := Measured(c, i, reading);
      Kept(c', c'.targets[i]) && (Alternating(c) ==> Alternates(c.thresholds, c'.targets[i].reports))
  {
    var c' := Measured(c, i, reading);
    var o := c.targets[i];
    assert o in c.targets && Kept(c, o);
    var e := Entry(o.id, o.target, reading.value);
    assert c'.targets[i].reports == o.reports + [e];
    assert Kept(c', c'.targets[i]) by {
      OfOne(c.queue, e, o.id);
    }
    if Alternating(c) {
      assert Alternates(c.thresholds, Of(c.handed, o.id) + Of(c.queue, o.id));
      AlternatesSnoc(c.thresholds, o.reports, e);
    }
  }

  lemma AlternatesSnoc(thresholds: seq<real>, entries: seq<Entry>, e: Entry)
    requires Alternates(thresholds, entries)
    requires entries != [] ==> Differ(thresholds, entries[|entries| - 1], e)
    ensures Alternates(thresholds, entries + [e])
  {
  }

  lemma MeasuredAlternates(c: Record, i: nat, reading: Option<Report>)
    requires i < |c.targets| && AllKept(c) && Alternating(c)
    ensures Alternating(Measured(c, i, reading))
  {
    var c' := Measured(c, i, reading);
    if c' != c {
      var o, e := c.targets[i], c'.queue[|c.queue|];
      forall id: nat ensures Alternates(c.thresholds, Of(c'.handed, id) + Of(c'.queue, id)) {
        OfOne(c.queue, e, id);
        assert Alternates(c.thresholds, Of(c.handed, id) + Of(c.queue, id));
        if id == o.id {
          MeasuredSelf(c, i, reading);
          assert c'.targets[i].reports == Of(c'.handed, id) + Of(c'.queue, id);
        } else {
          assert c'.queue == c.queue + [e] && Of(c'.queue, id) == Of(c.queue, id);
        }
      }
    }
  }

  lemma MeasuredLive(c: Record, i: nat, reading: Option<Report>)
    requires i < |c.targets| && Live(c)
    ensures Live(Measured(c, i, reading))
  {
    var c' := Measured(c, i, reading);
    if c' != c {
      forall e | e in c'.queue ensures IsLive(c'.targets, e) {
        if e in c.queue {
          var o :| o in c.targets && o.id == e.of && o.target == e.target;
          var k :| 0 <= k < |c.targets| && c.targets[k] == o;
          assert c'.targets[k] in c'.targets;
        } else {
          assert c'.targets[i] in c'.targets;
        }
      }
    }
  }

  lemma MeasuredKept(c: Record, i: nat, reading: Option<Report>, o: Observation)
    requires i < |c.targets| && Distinct(c.targets) && AllKept(c)
    requires o in Measured(c, i, reading).targets
    ensures Kept(Measured(c, i, reading), o) && exists p :: p in c.targets && p.id == o.id
  {
    var c' := Measured(c, i, reading);
    if c' != c {
      if o.id != c.targets[i].id {
        MeasuredOthers(c, i, reading, o);
      } else {
        var k :| 0 <= k < |c'.targets| && c'.targets[k] == o;
        assert c.targets[k].id == o.id;
        assert k == i;
        assert c.targets[i] in c.targets;
        MeasuredSelf(c, i, reading);
      }
    }
  }

  lemma MeasuredSound(c: Record, i: nat, reading: Option<Report>, count: nat)
    requires i < |c.targets| && Sound(c, count)
    ensures Sound(Measured(c, i, reading), count)
  {
    var c' := Measured(c, i, reading);
    if c' != c {
      assert c.targets[i] in c.targets;
      MeasuredLive(c, i, reading);
      MeasuredAlternates(c, i, reading);
      assert Distinct(c'.targets);
      forall o | o in c'.targets ensures Kept(c', o) && o.id < count {
        MeasuredKept(c, i, reading, o);
      }
    }
  }

  lemma {:induction false} UpdatedSound(c: Record, self: nat, readings: map<(nat, nat), Report>, n: nat, count: nat)
    requires n <= |c.targets| && Sound(c, count)
    ensures Sound(Updated(c, self, readings, n), count)
  {
    if n == 0 {
    } else {
      UpdatedSound(c, self, readings, n - 1, count);
      var u := Updated(c, self, readings, n - 1);
      MeasuredSound(u, n - 1, Reading(readings, self, u.targets[n - 1].target), count);
    }
  }

  // Unobserving keeps a record sound.

  lemma {:induction false} WithoutIs(targets: seq<Observation>, target: nat, o: Observation)
    ensures o in Without(targets, target) <==> o in targets && o.target != target
    decreases |targets|
  {
    if targets == [] {
    } else {
      var rest, last := targets[..|targets| - 1], targets[|targets| - 1];
      assert targets == rest + [last];
      WithoutIs(rest, target, o);
    }
  }

  lemma {:induction false} WithoutDistinct(targets: seq<Observation>, target: nat)
    requires Distinct(targets)
    ensures Distinct(Without(targets, target))
    decreases |targets|
  {
    if targets == [] {
    } else {
      var rest, last := targets[..|targets| - 1], targets[|targets| - 1];
      WithoutDistinct(rest, target);
      var w := Without(rest, target);
      forall i | 0 <= i < |w| ensures w[i].id != last.id && w[i].target != last.target {
        WithoutIs(rest, target, w[i]);
      }
    }
  }

  lemma {:induction false} DroppedIs(queue: seq<Entry>, target: nat, e: Entry)
    ensures e in Dropped(queue, target) <==> e in queue && e.target != target
    decreases |queue|
  {
    if queue == [] {
    } else {
      var rest, last := queue[..|queue| - 1], queue[|queue| - 1];
      assert queue == rest + [last];
      DroppedIs(rest, target, e);
    }
  }

  /** Dropping a target's entries drops all of an observation's or none. */
  lemma {:induction false} DroppedKeeps(queue: seq<Entry>, target: nat, id: nat)
    requires forall e :: e in queue && e.of == id ==> e.target != target
    ensures Of(Dropped(queue, target), id) == Of(queue, id)
    decreases |queue|
  {
    if queue == [] {
    } else {
      var rest, last := queue[..|queue| - 1], queue[|queue| - 1];
      assert last in queue;
      DroppedKeeps(rest, target, id);
      if last.target != target {
        OfOne(Dropped(rest, target), last, id);
      } else {
        assert Dropped(queue, target) == Dropped(rest, target);
      }
    }
  }

  lemma DroppedLoses(queue: seq<Entry>, target: nat, id: nat)
    requires forall e :: e in queue && e.of == id ==> e.target == target
    ensures Of(Dropped(queue, target), id) == []
  {
    forall e | e in Dropped(queue, target) ensures e.of != id {
      DroppedIs(queue, target, e);
    }
    OfNone(Dropped(queue, target), id);
  }

  lemma OneTarget(c: Record, e: Entry, f: Entry)
    requires Distinct(c.targets) && Live(c) && e in c.queue && f in c.queue && e.of == f.of
    ensures e.target == f.target
  {
    var o :| o in c.targets && o.id == e.of && o.target == e.target;
    var p :| p in c.targets && p.id == f.of && p.target == f.target;
  }

  lemma AlternatesPrefix(thresholds: seq<real>, a: seq<Entry>, b: seq<Entry>)
    requires Alternates(thresholds, a + b)
    ensures Alternates(thresholds, a)
  {
    forall i | 0 < i < |a| ensures Differ(thresholds, a[i - 1], a[i]) {
      assert (a + b)[i - 1] == a[i - 1] && (a + b)[i] == a[i];
    }
  }

  lemma ReducedAlternates(c: Record, target: nat)
    requires Distinct(c.targets) && Live(c) && Alternating(c)
    ensures Alternating(Reduced(c, target))
  {
    var q := Dropped(c.queue, target);
    forall id: nat ensures Alternates(c.thresholds, Of(c.handed, id) + Of(q, id)) {
      assert Alternates(c.thresholds, Of(c.handed, id) + Of(c.queue, id));
      if e :| e in c.queue && e.of == id && e.target == target {
        forall f | f in c.queue && f.of == id ensures f.target == target {
          OneTarget(c, e, f);
        }
        DroppedLoses(c.queue, target, id);
        AlternatesPrefix(c.thresholds, Of(c.handed, id), Of(c.queue, id));
      } else {
        DroppedKeeps(c.queue, target, id);
      }
    }
  }

  lemma ReducedKept(c: Record, target: nat, o: Observation)
    requires Distinct(c.targets) && Live(c) && AllKept(c) && o in c.targets && o.target != target
    ensures Kept(Reduced(c, target), o)
  {
    forall e | e in c.queue && e.of == o.id ensures e.target != target {
      var p :| p in c.targets && p.id == e.of && p.target == e.target;
      assert p == o;
    }
    DroppedKeeps(c.queue, target, o.id);
  }

  lemma ReducedSound(c: Record, target: nat, count: nat)
    requires Sound(c, count)
    ensures Sound(Reduced(c, target), count)
  {
    var c' := Reduced(c, target);
    WithoutDistinct(c.targets, target);
    ReducedAlternates(c, target);
    forall o | o in c'.targets ensures Kept(c', o) && o.id < count {
      WithoutIs(c.targets, target, o);
      ReducedKept(c, target, o);
    }
    forall e | e in c'.queue ensures IsLive(c'.targets, e) && e.of < count {
      DroppedIs(c.queue, target, e);
      var o :| o in c.targets && o.id == e.of && o.target == e.target;
      WithoutIs(c.targets, target, o);
    }
  }

  // The other operations on one record.

  lemma HandedSound(c: Record, count: nat)
    requires Sound(c, count)
    ensures Sound(Handed(c), count)
  {
    var c' := Handed(c);
    forall id: nat ensures Of(c'.handed, id) + Of(c'.queue, id) == Of(c.handed, id) + Of(c.queue, id) {
      OfAppend(c.handed, c.queue, id);
    }
    forall o | o in c'.targets ensures Kept(c', o) {
      assert Kept(c, o);
    }
    forall id: nat ensures Alternates(c'.thresholds, Of(c'.handed, id) + Of(c'.queue, id)) {
      assert Alternates(c.thresholds, Of(c.handed, id) + Of(c.queue, id));
    }
  }

  lemma ClearedSound(c: Record, count: nat)
    requires Sound(c, count)
    ensures Sound(c.(targets := [], queue := []), count)
  {
    forall id: nat ensures Alternates(c.thresholds, Of(c.handed, id) + Of([], id)) {
      assert Alternates(c.thresholds, Of(c.handed, id) + Of(c.queue, id));
      AlternatesPrefix(c.thresholds, Of(c.handed, id), Of(c.queue, id));
      assert Of(c.handed, id) + Of([], id) == Of(c.handed, id);
    }
  }

  lemma WatchingSound(c: Record, target: nat, count: nat)
    requires Sound(c, count) && !Observes(c.targets, target)
    ensures Sound(Watching(c, target, count), count + 1)
  {
    WatchingKept(c, target, count);
    WatchingDistinct(c, target, count);
    var c' := Watching(c, target, count);
    assert Alternating(c') by {
      forall id: nat ensures Alternates(c'.thresholds, Of(c'.handed, id) + Of(c'.queue, id)) {
        assert Alternates(c.thresholds, Of(c.handed, id) + Of(c.queue, id));
      }
    }
  }

  lemma WatchingKept(c: Record, target: nat, count: nat)
    requires AllKept(c) && Numbered(c, count)
    ensures AllKept(Watching(c, target, count)) && Numbered(Watching(c, target, count), count + 1)
  {
    var c' := Watching(c, target, count);
    OfNone(c.handed, count);
    OfNone(c.queue, count);
    forall o | o in c'.targets ensures Kept(c', o) && o.id < count + 1 {
      if o in c.targets {
        assert Kept(c, o);
      }
    }
  }

  lemma WatchingDistinct(c: Record, target: nat, count: nat)
    requires Distinct(c.targets) && Live(c) && Numbered(c, count) && !Observes(c.targets, target)
    ensures Distinct(Watching(c, target, count).targets) && Live(Watching(c, target, count))
  {
    var c' := Watching(c, target, count);
    forall e | e in c'.queue ensures IsLive(c'.targets, e) {
      var o :| o in c.targets && o.id == e.of && o.target == e.target;
      assert o in c'.targets;
    }
    forall i | 0 <= i < |c.targets| ensures c.targets[i].id != count && c.targets[i].target != target {
      assert c.targets[i] in c.targets;
    }
  }

  // What holds of the page.

  ghost predicate NoRepeats(p: seq<nat>) {
    forall i, j :: 0 <= i < j < |p| ==> p[i] != p[j]
  }

  /** An observer is in `ioActive`, once, exactly when it has targets. */
  ghost predicate Listed(s: State) {
    && NoRepeats(s.active)
    && (forall r :: r in s.active ==> r < |s.records|)
    && (forall r :: 0 <= r < |s.records| ==> (r in s.active <==> s.records[r].targets != []))
  }

  ghost predicate AllSound(records: seq<Record>, count: nat) {
    forall r :: 0 <= r < |records| ==> Sound(records[r], count)
  }

  /** Entries wait only where a delivery is scheduled or still to come to them. */
  ghost predicate Awaited(s: State) {
    forall r :: 0 <= r < |s.records| && s.records[r].queue != [] ==> s.delivery || r in s.delivering
  }

  /** While anything is observed a frame is scheduled. */
  ghost predicate Ticking(s: State) {
    s.active != [] ==> s.frame
  }

  ghost predicate Inv(s: State) {
    Listed(s) && AllSound(s.records, s.count) && Awaited(s) && Ticking(s)
  }

  lemma NoRepeatsCons(x: nat, p: seq<nat>)
    ensures NoRepeats([x] + p) <==> x !in p && NoRepeats(p)
  {
    var q := [x] + p;
    assert forall k :: 0 <= k < |p| ==> q[k + 1] == p[k];
    if NoRepeats(q) {
      forall k | 0 <= k < |p| ensures p[k] != x {
        assert q[0] != q[k + 1];
      }
      forall i, j | 0 <= i < j < |p| ensures p[i] != p[j] {
        assert q[i + 1] != q[j + 1];
      }
    }
  }

  lemma NoRepeatsSnoc(p: seq<nat>, x: nat)
    requires NoRepeats(p) && x !in p
    ensures NoRepeats(p + [x])
  {
  }

  lemma {:induction false} SplicedIs(active: seq<nat>, r: nat)
    requires NoRepeats(active)
    ensures NoRepeats(Spliced(active, r))
    ensures forall q :: q in Spliced(active, r) <==> q in active && q != r
  {
    if active == [] {
    } else {
      var rest := active[1..];
      assert active == [active[0]] + rest;
      NoRepeatsCons(active[0], rest);
      if active[0] != r {
        SplicedIs(rest, r);
        NoRepeatsCons(active[0], Spliced(rest, r));
      }
    }
  }

  lemma ScheduledTicks(s: State)
    requires Listed(s)
    ensures Ticking(Scheduled(s)) && Scheduled(s) == s.(frame := Scheduled(s).frame)
  {
    if s.active != [] {
      assert s.active[0] in s.active;
      assert s.records[s.active[0]].targets != [];
    }
  }

  lemma AddedLists(s: State, c: Record, count: nat, r: nat)
    requires r < |s.records| && Listed(s) && c.targets != []
    ensures var u := Changed(s, r, c, count);
      Listed(if r in u.active then u else u.(active := u.active + [r]))
  {
    if r !in s.active {
      NoRepeatsSnoc(s.active, r);
    }
  }

  lemma RemovedLists(s: State, c: Record, count: nat, r: nat)
    requires r < |s.records| && Listed(s) && c.targets == []
    ensures Listed(Changed(s, r, c, count).(active := Spliced(s.active, r)))
    ensures Spliced(s.active, r) != [] ==> s.active != []
  {
    SplicedIs(s.active, r);
  }

  /** `ioRetain` re-establishes the list and the frame after one record has changed. */
  lemma RetainedLists(s: State, c: Record, count: nat, r: nat)
    requires r < |s.records| && Listed(s) && Ticking(s)
    ensures var u := Changed(s, r, c, count); var t := Retained(u, r);
      Listed(t) && Ticking(t) && t == u.(active := t.active, frame := t.frame)
  {
    if c.targets != [] {
      AddedLists(s, c, count, r);
      var u := Changed(s, r, c, count);
      ScheduledTicks(if r in u.active then u else u.(active := u.active + [r]));
    } else {
      RemovedLists(s, c, count, r);
    }
  }

  lemma SoundLater(c: Record, count: nat, later: nat)
    requires Sound(c, count) && count <= later
    ensures Sound(c, later)
  {
  }

  lemma InvObserve(s: State, r: nat, target: nat)
    requires Inv(s) && r < |s.records|
    ensures Inv(Observed(s, r, target))
  {
    if Observes(s.records[r].targets, target) {
      assert Observed(s, r, target) == s;
    } else {
      var t := Retained(Changed(s, r, Watching(s.records[r], target, s.count), s.count + 1), r);
      assert Inv(t) by {
        InvWatching(s, r, target);
      }
      assert Observed(s, r, target) == t;
    }
  }

  lemma InvWatching(s: State, r: nat, target: nat)
    requires Inv(s) && r < |s.records| && !Observes(s.records[r].targets, target)
    ensures Inv(Retained(Changed(s, r, Watching(s.records[r], target, s.count), s.count + 1), r))
  {
    var c' := Watching(s.records[r], target, s.count);
    var u := Changed(s, r, c', s.count + 1);
    assert AllSound(u.records, u.count) by {
      WatchingSound(s.records[r], target, s.count);
      AllSoundUpdate(s.records, s.count, r, c');
    }
    assert Awaited(u);
    RetainedLists(s, c', s.count + 1, r);
  }

  lemma AllSoundUpdate(records: seq<Record>, count: nat, r: nat, c: Record)
    requires AllSound(records, count) && r < |records| && Sound(c, count + 1)
    ensures AllSound(records[r := c], count + 1)
  {
    forall q | 0 <= q < |records| && q != r ensures Sound(records[q], count + 1) {
      SoundLater(records[q], count, count + 1);
    }
  }

  lemma InvUnobserve(s: State, r: nat, target: nat)
    requires Inv(s) && r < |s.records|
    ensures Inv(Unobserved(s, r, target))
  {
    ReducedSound(s.records[r], target, s.count);
    RetainedLists(s, Reduced(s.records[r], target), s.count, r);
    if s.records[r].queue == [] {
      assert Dropped(s.records[r].queue, target) == [];
    }
  }

  lemma InvDisconnect(s: State, r: nat)
    requires Inv(s) && r < |s.records|
    ensures Inv(Disconnected(s, r))
  {
    ClearedSound(s.records[r], s.count);
    RetainedLists(s, s.records[r].(targets := [], queue := []), s.count, r);
  }

  lemma InvTake(s: State, r: nat)
    requires Inv(s) && r < |s.records|
    ensures Inv(Taken(s, r))
  {
    HandedSound(s.records[r], s.count);
  }

  lemma UpdateSound(records: seq<Record>, r: nat, readings: map<(nat, nat), Report>, count: nat)
    requires AllSound(records, count) && r < |records|
    ensures AllSound(records[r := Updated(records[r], r, readings, |records[r].targets|)], count)
  {
    UpdatedSound(records[r], r, readings, |records[r].targets|, count);
  }

  predicate SameSizes(a: seq<Record>, b: seq<Record>) {
    |a| == |b| && forall r :: 0 <= r < |a| ==> |a[r].targets| == |b[r].targets|
  }

  lemma {:induction false} FramedSound(
    records: seq<Record>, active: seq<nat>, readings: map<(nat, nat), Report>, n: nat, count: nat)
    requires AllSound(records, count) && n <= |active|
    ensures AllSound(Framed(records, active, readings, n), count)
    ensures SameSizes(records, Framed(records, active, readings, n))
  {
    if n == 0 {
    } else {
      FramedSound(records, active, readings, n - 1, count);
      var u := Framed(records, active, readings, n - 1);
      if active[n - 1] < |u| {
        UpdateSound(u, active[n - 1], readings, count);
      }
    }
  }

  lemma InvFrame(s: State, readings: map<(nat, nat), Report>)
    requires Inv(s)
    ensures Inv(FrameRun(s, readings))
  {
    var records := Framed(s.records, s.active, readings, |s.active|);
    FramedSound(s.records, s.active, readings, |s.active|, s.count);
    var t := s.(records := records, frame := false, delivery := s.delivery || Queued(s.records, records));
    forall r | 0 <= r < |s.records| ensures records[r].targets != [] <==> s.records[r].targets != [] {
      assert |records[r].targets| == |s.records[r].targets|;
    }
    ScheduledTicks(t);
  }

  lemma InvStart(s: State)
    requires Inv(s) && s.delivering == []
    ensures Inv(s.(delivery := false, delivering := s.active))
  {
    var t := s.(delivery := false, delivering := s.active);
    forall r | 0 <= r < |t.records| && t.records[r].queue != [] ensures r in t.delivering {
      var e := s.records[r].queue[0];
      assert e in s.records[r].queue && IsLive(s.records[r].targets, e);
    }
  }

  lemma InvDeliver(s: State)
    requires Inv(s) && s.delivering != []
    ensures Inv(Delivered(s))
  {
    var r := s.delivering[0];
    if r < |s.records| {
      HandedSound(s.records[r], s.count);
    }
    assert s.delivering == [r] + s.delivering[1..];
  }

  lemma InvConstruct(s: State, thresholds: seq<real>)
    requires Inv(s)
    ensures Inv(s.(records := s.records + [Record(thresholds, [], [], [])]))
  {
    var c := Record(thresholds, [], [], []);
    assert Sound(c, s.count);
  }

  lemma InvNext(s: State, e: Event)
    requires Inv(s) && Enabled(s, e)
    ensures Inv(Next(s, e))
  {
    match e
    case Construct(t) => InvConstruct(s, t);
    case Observe(r, target) => InvObserve(s, r, target);
    case Unobserve(r, target) => InvUnobserve(s, r, target);
    case Disconnect(r) => InvDisconnect(s, r);
    case TakeRecords(r) => InvTake(s, r);
    case Frame(readings) => InvFrame(s, readings);
    case StartDelivery => InvStart(s);
    case Deliver => InvDeliver(s);
  }

  lemma {:induction false} InvRun(run: seq<State>, events: seq<Event>, i: nat)
    requires IsRun(run, events) && i < |run|
    ensures Inv(run[i])
  {
    if i == 0 {
      assert Inv(run[0]);
    } else {
      InvRun(run, events, i - 1);
      assert IsStep(run, events, i - 1);
      InvNext(run[i - 1], events[i - 1]);
    }
  }

  // What the page can rely on.

  /** In every reachable state an observer is active exactly when it has targets, a frame is scheduled while
      anything is observed, and a queued entry names a target still observed, sits in an active observer and has
      a delivery scheduled or on its way. */
  lemma NoEntryStranded(run: seq<State>, events: seq<Event>, i: nat, r: nat)
    requires IsRun(run, events) && i < |run| && r < |run[i].records|
    ensures var s := run[i]; var c := s.records[r];
      && (r in s.active <==> c.targets != [])
      && (c.targets != [] ==> s.frame)
      && (forall e :: e in c.queue ==>
            IsLive(c.targets, e) && r in s.active && (s.delivery || r in s.delivering))
  {
    InvRun(run, events, i);
    var s := run[i];
    var c := s.records[r];
    forall e | e in c.queue ensures IsLive(c.targets, e) && r in s.active {
      assert Live(c);
    }
  }

  /** In every run the entries of one observation, those the page has been handed and then those that wait,
      differ from one to the next in threshold index or in `isIntersecting`; while the observation lasts they
      are all it ever reported. */
  lemma SuccessiveEntriesDiffer(run: seq<State>, events: seq<Event>, i: nat, r: nat, id: nat)
    requires IsRun(run, events) && i < |run| && r < |run[i].records|
    ensures var c := run[i].records[r];
      && Alternates(c.thresholds, Of(c.handed + c.queue, id))
      && forall o :: o in c.targets && o.id == id ==> Of(c.handed + c.queue, id) == o.reports
  {
    InvRun(run, events, i);
    var c := run[i].records[r];
    assert Sound(c, run[i].count) && Alternating(c) && AllKept(c);
    OfAppend(c.handed, c.queue, id);
    assert Alternates(c.thresholds, Of(c.handed, id) + Of(c.queue, id));
  }

  /** After a frame an observation whose geometry could be read shows that geometry. */
  ghost predicate Shows(thresholds: seq<real>, o: Observation, reading: Option<Report>) {
    reading.Some? ==>
      o.seen && o.index == Index(thresholds, reading.value) && o.intersecting == reading.value.intersecting
  }

  lemma {:induction false} UpdatedShows(c: Record, self: nat, readings: map<(nat, nat), Report>, n: nat, i: nat)
    requires n <= |c.targets| && i < |c.targets|
    ensures var u := Updated(c, self, readings, n);
      && u.thresholds == c.thresholds
      && u.targets[i].id == c.targets[i].id && u.targets[i].target == c.targets[i].target
      && (i < n ==> Shows(c.thresholds, u.targets[i], Reading(readings, self, c.targets[i].target)))
      && (i >= n ==> u.targets[i] == c.targets[i])
  {
    if n == 0 {
    } else {
      UpdatedShows(c, self, readings, n - 1, i);
    }
  }

  /** A frame updates each active record once. */
  lemma {:induction false} FramedOnce(s: State, readings: map<(nat, nat), Report>, n: nat, r: nat)
    requires Listed(s) && n <= |s.active| && r < |s.records|
    ensures Framed(s.records, s.active, readings, n)[r] ==
      if r in s.active[..n] then Updated(s.records[r], r, readings, |s.records[r].targets|) else s.records[r]
  {
    if n == 0 {
    } else {
      FramedOnce(s, readings, n - 1, r);
      assert s.active[..n] == s.active[..n - 1] + [s.active[n - 1]];
    }
  }

  /** A frame at any point of any run leaves every observation that could be read with a last report that agrees
      with the reading in index and in `isIntersecting`. */
  lemma FrameReportsPresent(run: seq<State>, events: seq<Event>, n: nat, r: nat, i: nat)
    requires IsRun(run, events) && n < |events| && events[n].Frame?
    requires r < |run[n].records| && i < |run[n].records[r].targets|
    requires (r, run[n].records[r].targets[i].target) in events[n].readings
    ensures r < |run[n + 1].records| && i < |run[n + 1].records[r].targets|
    ensures var c := run[n + 1].records[r]; var o := c.targets[i];
      && o.id == run[n].records[r].targets[i].id && o.target == run[n].records[r].targets[i].target
      && o.reports != []
      && !Differ(c.thresholds, o.reports[|o.reports| - 1], Entry(o.id, o.target, events[n].readings[(r, o.target)]))
  {
    var s, t, readings := run[n], run[n + 1], events[n].readings;
    assert IsStep(run, events, n);
    InvRun(run, events, n);
    InvRun(run, events, n + 1);
    var c := s.records[r];
    assert Listed(s) && r in s.active[..|s.active|];
    FramedOnce(s, readings, |s.active|, r);
    UpdatedShows(c, r, readings, |c.targets|, i);
    assert t.records[r] == Updated(c, r, readings, |c.targets|);
    assert Sound(t.records[r], t.count);
    assert t.records[r].targets[i] in t.records[r].targets;
  }
}
