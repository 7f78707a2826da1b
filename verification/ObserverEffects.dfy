/** What observing, ending an observation and taking records do (document_loader.rs, the observer's methods), in terms
    of targets, queues and entries, and what follows over runs. */
module ObserverEffects {
  import opened Wrappers
  import opened ObserverGeometry
  import opened ObserverScheduler

  /** Only record `r` may have changed, and not its thresholds. */
  predicate OnlyRecord(s: State, t: State, r: nat) {
    && |t.records| == |s.records|
    && (forall q :: 0 <= q < |s.records| && q != r ==> t.records[q] == s.records[q])
    && (r < |s.records| ==> t.records[r].thresholds == s.records[r].thresholds)
    && t.delivery == s.delivery && t.delivering == s.delivering
  }

  lemma RetainOnly(s: State, r: nat, c: Record, count: nat)
    requires Inv(s) && r < |s.records| && c.thresholds == s.records[r].thresholds
    ensures OnlyRecord(s, Retained(Changed(s, r, c, count), r), r)
    ensures Retained(Changed(s, r, c, count), r).records[r] == c
  {
    RetainedLists(s, c, count, r);
  }

  /** A target observed already stays as it is; a new one is put behind the others, unseen, and its observer is active
      with a frame to come. */
  lemma ObserveDoes(s: State, r: nat, target: nat, t: State)
    requires Inv(s) && Enabled(s, Observe(r, target)) && t == Next(s, Observe(r, target))
    ensures OnlyRecord(s, t, r)
    ensures var old', new' := s.records[r], t.records[r];
      && new'.queue == old'.queue && new'.handed == old'.handed
      && if exists i :: 0 <= i < |old'.targets| && old'.targets[i].target == target then new'.targets == old'.targets
         else
           var n := |old'.targets|;
           && |new'.targets| == n + 1 && new'.targets[..n] == old'.targets
           && new'.targets[n].target == target && !new'.targets[n].seen && new'.targets[n].reports == []
           && forall i :: 0 <= i < n ==> new'.targets[i].id != new'.targets[n].id
    ensures r in t.active && t.frame
  {
    var c := s.records[r];
    InvObserve(s, r, target);
    if !Observes(c.targets, target) {
      RetainOnly(s, r, Watching(c, target, s.count), s.count + 1);
      forall i | 0 <= i < |c.targets| ensures c.targets[i].id < s.count {
        assert Sound(c, s.count) && c.targets[i] in c.targets;
      }
    } else {
      assert c.targets != [];
    }
    assert t.active != [] ==> t.frame;
  }

  /** The observation of `target` at place `i`, if there is one, is gone; the others stay in order. */
  lemma {:induction false} WithoutAt(targets: seq<Observation>, target: nat, i: nat)
    requires Distinct(targets) && i < |targets| && targets[i].target == target
    ensures Without(targets, target) == targets[..i] + targets[i + 1..]
    decreases |targets|
  {
    var n := |targets| - 1;
    if i == n {
      WithoutNone(targets[..n], target);
      assert targets[i + 1..] == [];
    } else {
      WithoutAt(targets[..n], target, i);
      assert targets[..n][..i] == targets[..i] && targets[..n][i + 1..] + [targets[n]] == targets[i + 1..];
      assert targets[n].target != target;
    }
  }

  lemma {:induction false} WithoutNone(targets: seq<Observation>, target: nat)
    requires forall i :: 0 <= i < |targets| ==> targets[i].target != target
    ensures Without(targets, target) == targets
    decreases |targets|
  {
    if targets == [] {
    } else {
      var n := |targets| - 1;
      WithoutNone(targets[..n], target);
      assert targets == targets[..n] + [targets[n]];
    }
  }

  /** Ending an observation takes it out with everything it had queued, and nothing else. */
  lemma UnobserveDoes(s: State, r: nat, target: nat, t: State)
    requires Inv(s) && Enabled(s, Unobserve(r, target)) && t == Next(s, Unobserve(r, target))
    ensures OnlyRecord(s, t, r) && t.records[r].handed == s.records[r].handed
    ensures forall i :: 0 <= i < |s.records[r].targets| && s.records[r].targets[i].target == target ==>
      t.records[r].targets == s.records[r].targets[..i] + s.records[r].targets[i + 1..]
    ensures (forall i :: 0 <= i < |s.records[r].targets| ==> s.records[r].targets[i].target != target) ==>
      t.records[r].targets == s.records[r].targets
    ensures forall e :: e in t.records[r].queue <==> e in s.records[r].queue && e.target != target
    ensures forall o :: o in t.records[r].targets ==> Of(t.records[r].queue, o.id) == Of(s.records[r].queue, o.id)
  {
    var c := s.records[r];
    var c' := Reduced(c, target);
    RetainOnly(s, r, c', s.count);
    assert Sound(c, s.count);
    forall i | 0 <= i < |c.targets| && c.targets[i].target == target
      ensures c'.targets == c.targets[..i] + c.targets[i + 1..]
    {
      WithoutAt(c.targets, target, i);
    }
    if forall i :: 0 <= i < |c.targets| ==> c.targets[i].target != target {
      WithoutNone(c.targets, target);
    }
    forall e ensures e in c'.queue <==> e in c.queue && e.target != target {
      DroppedIs(c.queue, target, e);
    }
    forall o | o in c'.targets ensures Of(c'.queue, o.id) == Of(c.queue, o.id) {
      OthersQueued(c, target, o);
    }
  }

  lemma OthersQueued(c: Record, target: nat, o: Observation)
    requires Distinct(c.targets) && Live(c) && o in Without(c.targets, target)
    ensures Of(Dropped(c.queue, target), o.id) == Of(c.queue, o.id)
  {
    WithoutIs(c.targets, target, o);
    forall e | e in c.queue && e.of == o.id ensures e.target != target {
      var p :| p in c.targets && p.id == e.of && p.target == e.target;
      assert p == o;
    }
    DroppedKeeps(c.queue, target, o.id);
  }

  /** Disconnecting ends every observation of the record and drops its queue. */
  lemma DisconnectDoes(s: State, r: nat, t: State)
    requires Inv(s) && Enabled(s, Disconnect(r)) && t == Next(s, Disconnect(r))
    ensures OnlyRecord(s, t, r) && t.records[r].handed == s.records[r].handed
    ensures t.records[r].targets == [] && t.records[r].queue == [] && r !in t.active
  {
    RetainOnly(s, r, s.records[r].(targets := [], queue := []), s.count);
    InvDisconnect(s, r);
  }

  /** Taking the records hands the whole queue over. */
  lemma TakeDoes(s: State, r: nat, t: State)
    requires Enabled(s, TakeRecords(r)) && t == Next(s, TakeRecords(r))
    ensures OnlyRecord(s, t, r) && t.records[r].targets == s.records[r].targets
    ensures t.records[r].queue == [] && t.records[r].handed == s.records[r].handed + s.records[r].queue
  {
  }

  /** A new observer has nothing to do and disturbs nobody. */
  lemma ConstructDoes(s: State, thresholds: seq<real>, t: State)
    requires t == Next(s, Construct(thresholds))
    ensures |t.records| == |s.records| + 1 && t.records[..|s.records|] == s.records
    ensures t.records[|s.records|] == Record(thresholds, [], [], []) && t.active == s.active
  {
  }

  // Over runs.

  predicate Ends(e: Event, r: nat, target: nat) {
    e == Unobserve(r, target) || e == Disconnect(r)
  }

  lemma FrameKeeps(s: State, readings: map<(nat, nat), Report>, r: nat, target: nat)
    requires Inv(s) && r < |s.records| && Observes(s.records[r].targets, target)
    ensures r < |FrameRun(s, readings).records| && Observes(FrameRun(s, readings).records[r].targets, target)
  {
    var c := s.records[r];
    var i :| 0 <= i < |c.targets| && c.targets[i].target == target;
    FramedOnce(s, readings, |s.active|, r);
    UpdatedShows(c, r, readings, |c.targets|, i);
    var c' := FrameRun(s, readings).records[r];
    assert c'.targets[i].target == target;
  }

  lemma UnobserveKeeps(s: State, r: nat, target: nat, q: nat, other: nat)
    requires Inv(s) && r < |s.records| && q < |s.records| && Observes(s.records[r].targets, target)
    requires r != q || target != other
    ensures r < |Unobserved(s, q, other).records| && Observes(Unobserved(s, q, other).records[r].targets, target)
  {
    RetainOnly(s, q, Reduced(s.records[q], other), s.count);
    if r == q {
      var i :| 0 <= i < |s.records[r].targets| && s.records[r].targets[i].target == target;
      WithoutIs(s.records[r].targets, other, s.records[r].targets[i]);
    }
  }

  lemma ObserveKeeps(s: State, r: nat, target: nat, q: nat, other: nat)
    requires Inv(s) && r < |s.records| && q < |s.records| && Observes(s.records[r].targets, target)
    ensures r < |Observed(s, q, other).records| && Observes(Observed(s, q, other).records[r].targets, target)
  {
    var t := Next(s, Observe(q, other));
    ObserveDoes(s, q, other, t);
    if q == r {
      var old', new' := s.records[r].targets, t.records[r].targets;
      var i :| 0 <= i < |old'| && old'[i].target == target;
      assert new'[..|old'|] == old';
      assert new'[i] == new'[..|old'|][i];
    }
  }

  lemma StillObserves(s: State, e: Event, r: nat, target: nat)
    requires Inv(s) && Enabled(s, e) && r < |s.records| && Observes(s.records[r].targets, target)
    requires !Ends(e, r, target)
    ensures r < |Next(s, e).records| && Observes(Next(s, e).records[r].targets, target)
  {
    match e
    case Observe(q, other) => ObserveKeeps(s, r, target, q, other);
    case Unobserve(q, other) => UnobserveKeeps(s, r, target, q, other);
    case Disconnect(q) => DisconnectDoes(s, q, Next(s, e));
    case Frame(readings) => FrameKeeps(s, readings, r, target);
    case _ =>
  }

  /** A target is observed from the step that observes it until one that ends that. */
  lemma {:induction false} ObservedSince(run: seq<State>, events: seq<Event>, j: nat, k: nat, r: nat, target: nat)
    requires IsRun(run, events) && j < k < |run| && events[j] == Observe(r, target)
    requires forall m :: j < m < k ==> !Ends(events[m], r, target)
    ensures r < |run[k].records| && Observes(run[k].records[r].targets, target)
    decreases k
  {
    InvRun(run, events, k - 1);
    assert IsStep(run, events, k - 1);
    if k == j + 1 {
      ObserveDoes(run[j], r, target, run[k]);
      NowObserved(run[j], r, target, run[k]);
    } else {
      ObservedSince(run, events, j, k - 1, r, target);
      StillObserves(run[k - 1], events[k - 1], r, target);
    }
  }

  lemma NowObserved(s: State, r: nat, target: nat, t: State)
    requires Inv(s) && Enabled(s, Observe(r, target)) && t == Next(s, Observe(r, target))
    ensures r < |t.records| && Observes(t.records[r].targets, target)
  {
    ObserveDoes(s, r, target, t);
    var old', new' := s.records[r].targets, t.records[r].targets;
    if !Observes(old', target) {
      assert new'[|old'|].target == target;
    }
  }

  /** The observation has reported, and every report has been handed over or is queued, once and in order. */
  predicate Reported(c: Record, o: Observation) {
    o.reports != [] && o.reports == Of(c.handed + c.queue, o.id)
  }

  /** A target that is observed and not given up has a report after every frame that can read it, and that report has
      been handed to the page or waits to be. */
  lemma ObservedIsReported(run: seq<State>, events: seq<Event>, j: nat, k: nat, r: nat, target: nat)
    requires IsRun(run, events) && j < k < |events| && events[j] == Observe(r, target)
    requires forall m :: j < m < k ==> !Ends(events[m], r, target)
    requires events[k].Frame? && (r, target) in events[k].readings
    ensures r < |run[k + 1].records|
    ensures exists o :: o in run[k + 1].records[r].targets && o.target == target && Reported(run[k + 1].records[r], o)
  {
    ObservedSince(run, events, j, k, r, target);
    var i :| 0 <= i < |run[k].records[r].targets| && run[k].records[r].targets[i].target == target;
    FrameReportsPresent(run, events, k, r, i);
    var o := run[k + 1].records[r].targets[i];
    assert o in run[k + 1].records[r].targets;
    SuccessiveEntriesDiffer(run, events, k + 1, r, o.id);
  }

  // Frames and deliveries.

  /** A target that could not be read, or that looks as it did, is left alone; any other gets one more report. */
  predicate FrameOn(thresholds: seq<real>, o: Observation, o': Observation, reading: Option<Report>) {
    if reading.None? then o' == o
    else
      var r := reading.value;
      if o.seen && o.index == Index(thresholds, r) && o.intersecting == r.intersecting then o' == o
      else
        && o'.id == o.id && o'.target == o.target && o'.seen && o'.index == Index(thresholds, r)
        && o'.intersecting == r.intersecting && o'.reports == o.reports + [Entry(o.id, o.target, r)]
  }

  lemma {:induction false} UpdatedOn(c: Record, self: nat, readings: map<(nat, nat), Report>, n: nat, i: nat)
    requires n <= |c.targets| && i < |c.targets|
    ensures var u := Updated(c, self, readings, n);
      && u.thresholds == c.thresholds && u.handed == c.handed
      && if i < n then FrameOn(c.thresholds, c.targets[i], u.targets[i], Reading(readings, self, c.targets[i].target))
         else u.targets[i] == c.targets[i]
  {
    if n == 0 {
    } else {
      UpdatedOn(c, self, readings, n - 1, i);
    }
  }

  /** What a frame does to each observation of each record. */
  lemma FrameDoes(s: State, readings: map<(nat, nat), Report>, t: State, r: nat, i: nat)
    requires Inv(s) && Enabled(s, Frame(readings)) && t == Next(s, Frame(readings))
    requires r < |s.records| && i < |s.records[r].targets|
    ensures r < |t.records| && i < |t.records[r].targets|
    ensures var target := s.records[r].targets[i].target;
      FrameOn(s.records[r].thresholds, s.records[r].targets[i], t.records[r].targets[i],
              if (r, target) in readings then Some(readings[(r, target)]) else None)
    ensures t.records[r].handed == s.records[r].handed
  {
    var c := s.records[r];
    FramedOnce(s, readings, |s.active|, r);
    UpdatedOn(c, r, readings, |c.targets|, i);
    assert r in s.active[..|s.active|];
  }

  /** A delivery hands one record its whole queue and touches nothing else. */
  lemma DeliverDoes(s: State, t: State)
    requires Inv(s) && Enabled(s, Deliver) && t == Next(s, Deliver)
    ensures var r := s.delivering[0];
      && t.delivering == s.delivering[1..] && t.delivery == s.delivery && t.frame == s.frame && t.active == s.active
      && |t.records| == |s.records|
      && forall q :: 0 <= q < |s.records| ==>
           if q == r then
             && t.records[q].queue == [] && t.records[q].handed == s.records[q].handed + s.records[q].queue
             && t.records[q].targets == s.records[q].targets
           else t.records[q] == s.records[q]
  {
    var r := s.delivering[0];
    if r < |s.records| && s.records[r].queue == [] {
      assert s.records[r].handed + [] == s.records[r].handed;
    }
  }
}
