/** The observers of one page as the shim keeps them: fields changed in place, loops over targets, queues and
    `ioActive`. Every method is proved equal to a step of `ObserverScheduler`. */
module ObserverObject {
  import opened Wrappers
  import opened ObserverGeometry
  import opened ObserverScheduler

  method FindTarget(targets: seq<Observation>, target: nat) returns (found: bool)
    ensures found <==> Observes(targets, target)
  {
    for i := 0 to |targets|
      invariant forall k :: 0 <= k < i ==> targets[k].target != target
    {
      if targets[i].target == target {
        return true;
      }
    }
    return false;
  }

  method RemoveTarget(targets: seq<Observation>, target: nat) returns (next: seq<Observation>)
    ensures next == Without(targets, target)
  {
    next := [];
    for i := 0 to |targets|
      invariant next == Without(targets[..i], target)
    {
      assert targets[..i + 1][..i] == targets[..i];
      if targets[i].target != target {
        next := next + [targets[i]];
      }
    }
    assert targets[..|targets|] == targets;
  }

  method DropQueued(queue: seq<Entry>, target: nat) returns (next: seq<Entry>)
    ensures next == Dropped(queue, target)
  {
    next := [];
    for i := 0 to |queue|
      invariant next == Dropped(queue[..i], target)
    {
      assert queue[..i + 1][..i] == queue[..i];
      if queue[i].target != target {
        next := next + [queue[i]];
      }
    }
    assert queue[..|queue|] == queue;
  }

  lemma {:induction false} SplicedAt(active: seq<nat>, r: nat, i: nat)
    requires i < |active| && active[i] == r && forall k :: 0 <= k < i ==> active[k] != r
    ensures Spliced(active, r) == active[..i] + active[i + 1..]
  {
    if i == 0 {
    } else {
      SplicedAt(active[1..], r, i - 1);
      assert active[1..][..i - 1] == active[1..i] && active[1..][i..] == active[i + 1..];
      assert active[..i] == [active[0]] + active[1..i];
    }
  }

  lemma {:induction false} SplicedAbsent(active: seq<nat>, r: nat)
    requires r !in active
    ensures Spliced(active, r) == active
  {
    if active == [] {
    } else {
      SplicedAbsent(active[1..], r);
    }
  }

  method Splice(active: seq<nat>, r: nat) returns (next: seq<nat>)
    ensures next == Spliced(active, r)
  {
    for i := 0 to |active|
      invariant forall k :: 0 <= k < i ==> active[k] != r
    {
      if active[i] == r {
        SplicedAt(active, r, i);
        return active[..i] + active[i + 1..];
      }
    }
    SplicedAbsent(active, r);
    return active;
  }

  /** `ioUpdate`'s work on one target. */
  method Measure(c: Record, i: nat, reading: Option<Report>) returns (c': Record, queued: bool)
    requires i < |c.targets|
    ensures c' == Measured(c, i, reading)
    ensures queued <==> c'.queue != c.queue
    ensures c.queue <= c'.queue
  {
    c', queued := c, false;
    if reading.Some? {
      var o := c.targets[i];
      var index := ThresholdIndex(c.thresholds, reading.value);
      if !o.seen || index != o.index || reading.value.intersecting != o.intersecting {
        var e := Entry(o.id, o.target, reading.value);
        var o' := Observation(o.id, o.target, index, reading.value.intersecting, true, o.reports + [e]);
        c' := c.(targets := c.targets[i := o'], queue := c.queue + [e]);
        queued := true;
        assert |c'.queue| != |c.queue|;
      }
    }
  }

  method Update(c: Record, self: nat, readings: map<(nat, nat), Report>) returns (c': Record, queued: bool)
    ensures c' == Updated(c, self, readings, |c.targets|)
    ensures queued <==> c'.queue != c.queue
    ensures c.queue <= c'.queue
  {
    c', queued := c, false;
    for i := 0 to |c.targets|
      invariant c' == Updated(c, self, readings, i)
      invariant queued <==> c'.queue != c.queue
      invariant c.queue <= c'.queue
    {
      var q;
      c', q := Measure(c', i, Reading(readings, self, c'.targets[i].target));
      queued := queued || q;
    }
  }

  method Frames(records: seq<Record>, active: seq<nat>, readings: map<(nat, nat), Report>)
    returns (after: seq<Record>, queued: bool)
    ensures after == Framed(records, active, readings, |active|)
    ensures queued <==> Queued(records, after)
  {
    after, queued := records, false;
    for i := 0 to |active|
      invariant after == Framed(records, active, readings, i)
      invariant queued <==> Queued(records, after)
      invariant forall r :: 0 <= r < |records| ==> records[r].queue <= after[r].queue
    {
      var r := active[i];
      if r < |after| {
        var c, q := Update(after[r], r, readings);
        QueuedUpdate(records, after, r, c);
        after := after[r := c];
        queued := queued || q;
      }
    }
  }

  lemma QueuedUpdate(records: seq<Record>, after: seq<Record>, r: nat, c: Record)
    requires |after| == |records| && r < |records|
    requires records[r].queue <= after[r].queue <= c.queue
    ensures Queued(records, after[r := c]) <==> Queued(records, after) || c.queue != after[r].queue
  {
    var u := after[r := c];
    if q :| 0 <= q < |records| && records[q].queue != u[q].queue {
      assert q != r ==> u[q] == after[q];
    }
    if q :| 0 <= q < |records| && records[q].queue != after[q].queue {
      assert records[q].queue != u[q].queue;
    }
    if c.queue != after[r].queue {
      assert records[r].queue != u[r].queue;
    }
  }

  method ScanTargets(records: seq<Record>, active: seq<nat>) returns (any: bool)
    ensures any <==> exists i :: 0 <= i < |active| && active[i] < |records| && records[active[i]].targets != []
  {
    for i := 0 to |active|
      invariant forall k :: 0 <= k < i ==> !(active[k] < |records| && records[active[k]].targets != [])
    {
      if active[i] < |records| && records[active[i]].targets != [] {
        return true;
      }
    }
    return false;
  }

  class Page {
    var records: seq<Record>
    var active: seq<nat>
    var frame: bool
    var delivery: bool
    var delivering: seq<nat>
    var count: nat

    ghost function View(): State
      reads this
    {
      State(records, active, frame, delivery, delivering, count)
    }

    constructor ()
      ensures View() == INITIAL
    {
      records, active, frame, delivery, delivering, count := [], [], false, false, [], 0;
    }

    method Schedule()
      modifies this
      ensures View() == Scheduled(old(View()))
    {
      if !frame {
        var any := ScanTargets(records, active);
        if any {
          frame := true;
        }
      }
    }

    method Retain(r: nat)
      requires r < |records|
      modifies this
      ensures View() == Retained(old(View()), r)
    {
      if records[r].targets != [] {
        if r !in active {
          active := active + [r];
        }
        Schedule();
      } else {
        var next := Splice(active, r);
        active := next;
      }
    }

    method Observe(r: nat, target: nat)
      requires r < |records|
      modifies this
      ensures View() == Observed(old(View()), r, target)
    {
      var found := FindTarget(records[r].targets, target);
      if found {
        return;
      }
      records := records[r := Watching(records[r], target, count)];
      count := count + 1;
      Retain(r);
    }

    method Unobserve(r: nat, target: nat)
      requires r < |records|
      modifies this
      ensures View() == Unobserved(old(View()), r, target)
    {
      var targets := RemoveTarget(records[r].targets, target);
      var queue := DropQueued(records[r].queue, target);
      records := records[r := records[r].(targets := targets, queue := queue)];
      Retain(r);
    }

    method Disconnect(r: nat)
      requires r < |records|
      modifies this
      ensures View() == Disconnected(old(View()), r)
    {
      records := records[r := records[r].(targets := [], queue := [])];
      Retain(r);
    }

    method TakeRecords(r: nat) returns (entries: seq<Entry>)
      requires r < |records|
      modifies this
      ensures entries == old(records[r].queue) && View() == Taken(old(View()), r)
    {
      entries := records[r].queue;
      records := records[r := Handed(records[r])];
    }

    method RunFrame(readings: map<(nat, nat), Report>)
      modifies this
      ensures View() == FrameRun(old(View()), readings)
    {
      frame := false;
      var after, queued := Frames(records, active, readings);
      records := after;
      if queued {
        delivery := true;
      }
      Schedule();
    }

    /** One turn of the loop of `ioDeliver`, up to the call of the page's callback with `entries`. */
    method DeliverNext() returns (entries: seq<Entry>)
      requires delivering != []
      modifies this
      ensures View() == Delivered(old(View()))
      ensures var r := old(delivering[0]); entries == if r < |old(records)| then old(records)[r].queue else []
    {
      var r := delivering[0];
      delivering := delivering[1..];
      entries := [];
      if r < |records| && records[r].queue != [] {
        entries := TakeRecords(r);
      }
    }
  }
}
