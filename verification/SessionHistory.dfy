/** A tab's session history (browser.rs, `navigate_request`, `go_back`, `go_forward`, the URL rewrite on
    mount; tab_lifecycle.rs, the rewrite in `commit_sleep`). */
module SessionHistory {

  const MAX_ENTRIES: nat := 128

  /** `payload` stands for the body, the headers and the credentials of the request. */
  datatype Entry = Entry(url: string, verb: string, payload: string)

  predicate Replayable(e: Entry) { e.verb == "GET" || e.verb == "HEAD" }

  function Stripped(e: Entry): Entry { e.(payload := "") }

  datatype History = History(entries: seq<Entry>, current: nat)

  predicate Valid(h: History) {
    h.current < |h.entries| <= MAX_ENTRIES
  }

  function Current(h: History): Entry
    requires h.current < |h.entries|
  {
    h.entries[h.current]
  }

  function Navigated(h: History, e: Entry): History
    requires h.current < |h.entries|
  {
    var entries := h.entries[..h.current + 1] + [e];
    if |entries| > MAX_ENTRIES then History(entries[1..], h.current) else History(entries, h.current + 1)
  }

  predicate CanGoBack(h: History) { 0 < h.current }

  predicate CanGoForward(h: History) { h.current + 1 < |h.entries| }

  function Back(h: History): History {
    if CanGoBack(h) then h.(current := h.current - 1) else h
  }

  function Forward(h: History): History {
    if CanGoForward(h) then h.(current := h.current + 1) else h
  }

  function Asleep(h: History): History {
    h.(entries := seq(|h.entries|, i requires 0 <= i < |h.entries| => Stripped(h.entries[i])))
  }

  function Resolved(h: History, url: string): History
    requires h.current < |h.entries|
  {
    h.(entries := h.entries[h.current := h.entries[h.current].(url := url)])
  }

  // The abstract view: a back stack and a forward stack around the entry on show.

  datatype Stacks = Stacks(back: seq<Entry>, here: Entry, forward: seq<Entry>)

  function Abstract(h: History): Stacks
    requires h.current < |h.entries|
  {
    Stacks(h.entries[..h.current], h.entries[h.current], h.entries[h.current + 1..])
  }

  datatype Op = Navigate(request: Entry) | GoBack | GoForward | Sleep | Resolve(url: string)

  function Apply(h: History, op: Op): History
    requires Valid(h)
    ensures Valid(Apply(h, op))
  {
    match op
    case Navigate(request) => Navigated(h, request)
    case GoBack => Back(h)
    case GoForward => Forward(h)
    case Sleep => Asleep(h)
    case Resolve(url) => Resolved(h, url)
  }

  function StrippedAll(s: seq<Entry>): seq<Entry> {
    if s == [] then [] else [Stripped(s[0])] + StrippedAll(s[1..])
  }

  function LastN<T>(s: seq<T>, n: nat): seq<T> {
    if |s| <= n then s else s[|s| - n..]
  }

  function ApplyStacks(s: Stacks, op: Op): Stacks {
    match op
    case Navigate(request) => Stacks(LastN(s.back + [s.here], MAX_ENTRIES - 1), request, [])
    case GoBack =>
      if s.back == [] then s
      else Stacks(s.back[..|s.back| - 1], s.back[|s.back| - 1], [s.here] + s.forward)
    case GoForward =>
      if s.forward == [] then s else Stacks(s.back + [s.here], s.forward[0], s.forward[1..])
    case Sleep => Stacks(StrippedAll(s.back), Stripped(s.here), StrippedAll(s.forward))
    case Resolve(url) => s.(here := s.here.(url := url))
  }

  lemma {:induction false} StrippedAllPointwise(s: seq<Entry>)
    ensures |StrippedAll(s)| == |s|
    ensures forall i :: 0 <= i < |s| ==> StrippedAll(s)[i] == Stripped(s[i])
  {
    if s == [] {
    } else {
      StrippedAllPointwise(s[1..]);
    }
  }

  lemma NavigateRefines(h: History, request: Entry)
    requires Valid(h)
    ensures Abstract(Navigated(h, request)) == ApplyStacks(Abstract(h), Navigate(request))
  {
    assert h.entries[..h.current + 1] == h.entries[..h.current] + [h.entries[h.current]];
  }

  lemma SleepRefines(h: History)
    requires Valid(h)
    ensures Abstract(Asleep(h)) == ApplyStacks(Abstract(h), Sleep)
  {
    StrippedAllPointwise(h.entries[..h.current]);
    StrippedAllPointwise(h.entries[h.current + 1..]);
  }

  lemma MoveRefines(h: History)
    requires Valid(h)
    ensures Abstract(Back(h)) == ApplyStacks(Abstract(h), GoBack)
    ensures Abstract(Forward(h)) == ApplyStacks(Abstract(h), GoForward)
  {
    assert h.entries[h.current..] == [h.entries[h.current]] + h.entries[h.current + 1..];
    assert h.entries[..h.current + 1] == h.entries[..h.current] + [h.entries[h.current]];
  }

  /** Each operation on the vector is the stack operation of the same name. */
  lemma Refines(h: History, op: Op)
    requires Valid(h)
    ensures Abstract(Apply(h, op)) == ApplyStacks(Abstract(h), op)
  {
    match op
    case Navigate(request) => NavigateRefines(h, request);
    case GoBack => MoveRefines(h);
    case GoForward => MoveRefines(h);
    case Sleep => SleepRefines(h);
    case Resolve(url) =>
  }

  function Run(h: History, ops: seq<Op>): History
    requires Valid(h)
    ensures Valid(Run(h, ops))
    decreases |ops|
  {
    if ops == [] then h else Run(Apply(h, ops[0]), ops[1..])
  }

  function RunStacks(s: Stacks, ops: seq<Op>): Stacks
    decreases |ops|
  {
    if ops == [] then s else RunStacks(ApplyStacks(s, ops[0]), ops[1..])
  }

  /** Every run on the vector is a run on the stacks: never empty, never past 128 entries. */
  lemma {:induction false} RunRefines(h: History, ops: seq<Op>)
    requires Valid(h)
    ensures Valid(Run(h, ops))
    ensures Abstract(Run(h, ops)) == RunStacks(Abstract(h), ops)
    decreases |ops|
  {
    if ops == [] {
    } else {
      Refines(h, ops[0]);
      RunRefines(Apply(h, ops[0]), ops[1..]);
    }
  }

  /** Back and forward undo each other exactly, entry and position, for as many steps as the stacks allow. */
  lemma {:induction false} BackThenForward(h: History, n: nat)
    requires Valid(h) && n <= h.current
    ensures Run(Run(h, seq(n, _ => GoBack)), seq(n, _ => GoForward)) == h
    ensures Run(h, seq(n, _ => GoBack)) == h.(current := h.current - n)
  {
    BackMany(h, n);
    ForwardMany(h.(current := h.current - n), n);
  }

  lemma {:induction false} BackMany(h: History, n: nat)
    requires Valid(h) && n <= h.current
    ensures Run(h, seq(n, _ => GoBack)) == h.(current := h.current - n)
    decreases n
  {
    if n == 0 {
    } else {
      BackMany(Back(h), n - 1);
      assert seq<Op>(n, _ => GoBack)[1..] == seq<Op>(n - 1, _ => GoBack);
    }
  }

  lemma {:induction false} ForwardMany(h: History, n: nat)
    requires Valid(h) && h.current + n < |h.entries|
    ensures Run(h, seq(n, _ => GoForward)) == h.(current := h.current + n)
    decreases n
  {
    if n == 0 {
    } else {
      ForwardMany(Forward(h), n - 1);
      assert seq<Op>(n, _ => GoForward)[1..] == seq<Op>(n - 1, _ => GoForward);
    }
  }
}
