/** A run in which a page is mounted under the wrong history entry: the steps that
    `TabGuarantees.AlignedIff` has to exclude do happen. */
module TabDiversion {
  import opened Wrappers
  import opened SessionHistory
  import opened TabLifecycle

  const HOME := Entry("home", "GET", "")
  const FORM := Entry("form", "POST", "")

  function TabOnHome(generation: nat, mounted: Option<nat>, phase: Phase, epoch: nat): Tab {
    Tab(generation, mounted, History([HOME, FORM], 0), false,
        Life(phase, false, epoch, 0, None, None, true, false, None, None, false, false, mounted.None?))
  }

  function Opened(): State {
    State(Tab(0, None, History([HOME], 0), false,
              Life(Dormant, false, 0, 0, None, None, false, false, None, None, false, false, false)),
          0, 5, map[], {}, {}, multiset{}, 0, {}, [])
  }

  /** A form was submitted, the user went back, and the page of the first entry is on show. */
  function Shown(): State {
    var t := TabOnHome(2, Some(7), Live, 3);
    Put(State(t, 0, 5, map[1 := 1], {}, {}, multiset{}, 0, {}, [2]),
        t.(life := t.life.(deadline := Some(Deadline(5, 2, 3)))))
  }

  /** The tab sleeps; its page has been torn down. */
  function Dozing(): State {
    Shown().(tab := TabOnHome(3, None, Sleeping, 4), receipts := 1, completed := {0})
  }

  /** The reload of the first entry is in flight. */
  function Reloading(): State {
    var l := TabOnHome(4, None, Waking, 5).life;
    Put(Dozing(), TabOnHome(4, None, Waking, 5).(
      loading := true, life := l.(restoreDeadline := Some(Deadline(RESTORE_NS, 4, 5)))))
    .(inFlight := map[1 := 1, 4 := 0])
  }

  ghost predicate Ends(states: seq<State>, events: seq<Event>, s: State) {
    IsRun(states, events) && states[|events|] == s
  }

  lemma Extend(states: seq<State>, events: seq<Event>, s: State, e: Event, t: State)
    requires Ends(states, events, s) && Next(s, e, t)
    ensures Ends(states + [t], events + [e], t)
  {
    forall i | 0 <= i < |events| + 1 ensures IsStep(states + [t], events + [e], i) {
      assert i < |events| ==> IsStep(states, events, i);
    }
  }

  /** The form's load and then the first entry's are under way. */
  function Returning(): State {
    Commanded(Commanded(Opened(), Go(FORM)), Command.GoBack)
  }

  lemma Return() returns (states: seq<State>, events: seq<Event>)
    ensures Ends(states, events, Returning())
  {
    states, events := [Opened()], [];
    var s := Commanded(Opened(), Go(FORM));
    Extend(states, events, Opened(), Command(Go(FORM)), s);
    states, events := states + [s], events + [Command(Go(FORM))];
    Extend(states, events, s, Event.Command(Command.GoBack), Returning());
    states, events := states + [Returning()], events + [Event.Command(Command.GoBack)];
  }

  lemma ShownIs()
    ensures 2 in Returning().inFlight && LoadHandled(Returning(), 2, false, [], 7, None, false) == Shown()
  {
    assert Returning().inFlight == map[1 := 1, 2 := 0];
    assert map[1 := 1, 2 := 0] - {2} == map[1 := 1];
  }

  lemma Show() returns (states: seq<State>, events: seq<Event>)
    ensures Ends(states, events, Shown())
  {
    states, events := Return();
    ShownIs();
    var load := Load(2, false, [], 7, None, false);
    Extend(states, events, Returning(), load, Shown());
    states, events := states + [Shown()], events + [load];
  }

  /** The sleep is committed and its teardown under way. */
  function Leaving(): State {
    MessageHandled(Shown(), Message.Sleep(2, 3, false), true, [], false)
  }

  lemma Leave() returns (states: seq<State>, events: seq<Event>)
    ensures Ends(states, events, Leaving())
  {
    states, events := Show();
    var s := Shown();
    var m := Message.Sleep(2, 3, false);
    var s1 := s.(messages := multiset{m});
    Extend(states, events, s, Event.Command(AskSleep), s1);
    states, events := states + [s1], events + [Event.Command(AskSleep)];
    assert s1.messages - multiset{m} == multiset{};
    Extend(states, events, s1, Handle(m, true, [], false), Leaving());
    states, events := states + [Leaving()], events + [Handle(m, true, [], false)];
  }

  lemma DozingIs()
    ensures Leaving().receipts == 1 && Leaving().messages == multiset{}
    ensures MessageHandled(Leaving().(completed := {0}), Released(0), true, [], false) == Dozing()
  {
    assert Asleep(Shown().tab.history) == Shown().tab.history;
  }

  lemma FallAsleep() returns (states: seq<State>, events: seq<Event>)
    ensures Ends(states, events, Dozing())
  {
    states, events := Leave();
    DozingIs();
    var s := Leaving().(completed := {0});
    Extend(states, events, Leaving(), Complete(0), s);
    states, events := states + [s], events + [Complete(0)];
    var s1 := s.(messages := multiset{Released(0)});
    Extend(states, events, s, Post(Released(0)), s1);
    states, events := states + [s1], events + [Post(Released(0))];
    assert s1.messages - multiset{Released(0)} == multiset{};
    Extend(states, events, s1, Handle(Released(0), true, [], false), Dozing());
    states, events := states + [Dozing()], events + [Handle(Released(0), true, [], false)];
  }

  lemma StartReload() returns (states: seq<State>, events: seq<Event>)
    ensures Ends(states, events, Reloading())
  {
    states, events := FallAsleep();
    Extend(states, events, Dozing(), Event.Command(AskWake), Reloading());
    states, events := states + [Reloading()], events + [Event.Command(AskWake)];
  }

  /** The user has moved on to the form, which cannot be resubmitted. */
  function Diverted(): State {
    var t := Reloading().tab;
    Reloading().(tab := t.(history := Forward(t.history), life := t.life.(phase := RestoreFailed)))
  }

  lemma Divert() returns (states: seq<State>, events: seq<Event>)
    ensures Ends(states, events, Diverted())
  {
    states, events := StartReload();
    Extend(states, events, Reloading(), Event.Command(Command.GoForward), Diverted());
    states, events := states + [Diverted()], events + [Event.Command(Command.GoForward)];
  }

  /** The reload of `HOME` resolves while the user has moved on to the form that cannot be resubmitted: the page
      of `HOME` is mounted and its address overwrites the form's. */
  lemma WrongEntryMounted() returns (states: seq<State>, events: seq<Event>, k: nat)
    ensures IsRun(states, events) && k + 1 == |events|
    ensures events[k].Load? && events[k].url == Some("home/") && Mounts(states[k], states[k + 1], events[k].generation)
    ensures events[k].generation in states[k].inFlight && states[k].inFlight[events[k].generation] == 0
    ensures states[k + 1].tab.history.entries == [HOME, FORM.(url := "home/")]
  {
    states, events := Divert();
    var s := Diverted();
    var load := Load(4, false, [], 8, Some("home/"), false);
    var t := LoadHandled(s, 4, false, [], 8, Some("home/"), false);
    Extend(states, events, s, load, t);
    states, events, k := states + [t], events + [load], |events|;
  }
}
