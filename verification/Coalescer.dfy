/** The trailing-throttle coalescer (internal/deferred/coalescer.go).

    `Core` is what the mutex guards, with one function per critical section; the
    class `Coalescer` is proved against those functions. `State` puts the core
    into its environment: a clock, the timer callbacks that are armed or already
    waiting for the lock, the executions in flight, the flush of the first
    `Stop`, and a history. `Next` is one atomic step, and the theorems are about
    every state some run of steps reaches. */
module Coalescers {
  import opened Text

  type Key = string

  /** `id` is the position of the batch among all non-empty submissions. */
  datatype Batch = Batch(id: nat, key: Key, window: int, actions: seq<string>)

  /** A timer created by `time.AfterFunc`; its callback is `fire(key)`. */
  datatype Timer = Timer(id: nat, key: Key, due: int)

  datatype Entry = Entry(batch: Batch, timer: Timer)

  /** The fields under the mutex, and the wait group's counter. */
  datatype Core = Core(pending: map<Key, Entry>, stopped: bool, wg: nat)

  const FLUSH_CONCURRENCY: nat := 8

  // ------------------------------------------------------ critical sections

  function SubmitCore(c: Core, b: Batch, now: int, timerId: nat): Core {
    if b.actions == [] || c.stopped then c
    else if b.key in c.pending then
      c.(pending := c.pending[b.key := c.pending[b.key].(batch := b)])
    else
      c.(pending := c.pending[b.key := Entry(b, Timer(timerId, b.key, now + b.window))])
  }

  function FireCore(c: Core, key: Key): (Core, Option<Entry>) {
    if key !in c.pending || c.stopped then (c, None)
    else (c.(pending := c.pending - {key}, wg := c.wg + 1), Some(c.pending[key]))
  }

  function StopCore(c: Core): Core {
    if c.stopped then c else c.(pending := map[], stopped := true)
  }

  function PendingIds(c: Core): set<nat> {
    set k | k in c.pending :: c.pending[k].batch.id
  }

  /** `batches` lists the batch of each of `keys` once, in the order `order`. */
  ghost predicate Gathered(batches: seq<Batch>, order: seq<Key>, keys: set<Key>, m: map<Key, Entry>) {
    && |batches| == |order|
    && (forall i, j :: 0 <= i < j < |order| ==> order[i] != order[j])
    && (forall k :: k in order <==> k in keys)
    && (forall i :: 0 <= i < |order| ==> order[i] in m && batches[i] == m[order[i]].batch)
  }

  /** The loop of `Stop` over the map, in an arbitrary order. */
  method Drain(m: map<Key, Entry>) returns (batches: seq<Batch>, ghost order: seq<Key>)
    ensures Gathered(batches, order, m.Keys, m)
  {
    var left := m.Keys;
    batches, order := [], [];
    while left != {}
      invariant left <= m.Keys
      invariant Gathered(batches, order, m.Keys - left, m)
      decreases left
    {
      var key :| key in left;
      batches, order, left := batches + [m[key].batch], order + [key], left - {key};
    }
    assert m.Keys - left == m.Keys;
  }

  class Coalescer {
    var pending: map<Key, Entry>
    var stopped: bool
    var wg: nat

    ghost function View(): Core
      reads this
    {
      Core(pending, stopped, wg)
    }

    constructor ()
      ensures View() == Core(map[], false, 0)
    {
      pending, stopped, wg := map[], false, 0;
    }

    method Submit(b: Batch, now: int, timerId: nat)
      modifies this
      ensures View() == SubmitCore(old(View()), b, now, timerId)
      ensures b.actions == [] || old(stopped) ==> View() == old(View())
      ensures b.actions != [] && !old(stopped) && b.key !in old(pending) ==>
                pending == old(pending)[b.key := Entry(b, Timer(timerId, b.key, now + b.window))]
      ensures b.actions != [] && !old(stopped) && b.key in old(pending) ==>
                pending == old(pending)[b.key := Entry(b, old(pending)[b.key].timer)]
      ensures stopped == old(stopped) && wg == old(wg)
    {
      if |b.actions| == 0 {
        return;
      }
      if stopped {
        return;
      }
      if b.key in pending {
        var e := pending[b.key];
        pending := pending[b.key := e.(batch := b)];
        return;
      }
      pending := pending[b.key := Entry(b, Timer(timerId, b.key, now + b.window))];
    }

    /** The locked part of `fire`; the claimed batch is then executed. */
    method Fire(key: Key) returns (claimed: Option<Entry>)
      modifies this
      ensures (View(), claimed) == FireCore(old(View()), key)
      ensures claimed.Some? <==> key in old(pending) && !old(stopped)
      ensures claimed.Some? ==>
                claimed.value == old(pending)[key] && pending == old(pending) - {key} && wg == old(wg) + 1
      ensures claimed.None? ==> pending == old(pending) && wg == old(wg)
      ensures stopped == old(stopped)
    {
      if key !in pending || stopped {
        return None;
      }
      claimed := Some(pending[key]);
      pending := pending - {key};
      wg := wg + 1;
    }

    /** The locked part of `Stop`: the map is emptied in an arbitrary order and
        every pending batch is handed to the flush. */
    method BeginStop() returns (first: bool, batches: seq<Batch>, ghost order: seq<Key>)
      modifies this
      ensures View() == StopCore(old(View()))
      ensures first == !old(stopped) && stopped && wg == old(wg)
      ensures first ==> pending == map[]
      ensures !first ==> pending == old(pending)
      ensures !first ==> batches == []
      ensures first ==> Gathered(batches, order, old(pending).Keys, old(pending))
    {
      if stopped {
        return false, [], [];
      }
      stopped, first := true, true;
      batches, order := Drain(pending);
      pending := map[];
    }

    /** `execute`: every action of the batch is attempted once, in order,
        whatever the earlier ones return. */
    method Execute(b: Batch, succeeds: string -> bool) returns (attempted: seq<string>, emitted: nat, errors: nat)
      ensures attempted == b.actions
      ensures emitted + errors == |b.actions|
      ensures emitted == |set i | 0 <= i < |b.actions| && succeeds(b.actions[i])|
    {
      attempted, emitted, errors := [], 0, 0;
      ghost var ok: set<int> := {};
      for i := 0 to |b.actions|
        invariant attempted == b.actions[..i]
        invariant emitted + errors == i
        invariant ok == set j | 0 <= j < i && succeeds(b.actions[j])
        invariant emitted == |ok|
      {
        attempted := attempted + [b.actions[i]];
        if !succeeds(b.actions[i]) {
          errors := errors + 1;
          continue;
        }
        emitted := emitted + 1;
        ok := ok + {i};
      }
      assert ok == set j | 0 <= j < |b.actions| && succeeds(b.actions[j]);
    }
  }

  // ---------------------------------------------------------- whole system

  datatype Phase = Serving | Flushing | Returned

  /** `opener` is the batch whose submission opened the window. */
  datatype Window = Window(key: Key, openedAt: int, length: int, opener: nat)

  /** A window-close claim: a callback took the entry of window `window`. */
  datatype Claim = Claim(key: Key, window: nat, at: int)

  datatype Fate = Pending | Superseded | Queued | Executed | Dropped

  datatype History = History(
    submitted: seq<Batch>,
    times: seq<int>,             // when each was submitted
    windowOf: seq<Option<nat>>,  // the window a batch joined; none once stopped
    fate: seq<Fate>,
    windows: seq<Window>,
    executed: multiset<nat>,     // one element per started execution
    dropped: multiset<nat>,
    claims: seq<Claim>)

  datatype State = State(
    core: Core,
    now: int,
    timers: set<Timer>,    // armed, or fired and waiting for the lock
    phase: Phase,
    expired: bool,         // the context of the first Stop
    queue: set<nat>,       // to be flushed, not yet looked at
    admitted: set<nat>,    // past the deadline check, waiting for a slot
    running: set<nat>,     // executions started by fire
    flushing: set<nat>,    // executions started by the flush
    h: History)

  datatype Step =
    | Submit(b: Batch)
    | Tick(d: nat)
    | Fire(t: Timer)
    | ExecDone(id: nat)
    | Stop(late: set<Timer>)  // callbacks that timer.Stop came too late for
    | Expire
    | FlushCheck(id: nat)
    | FlushAcquire(id: nat)
    | FlushDone(id: nat)
    | StopReturn

  function Init(now: int): State {
    State(Core(map[], false, 0), now, {}, Serving, false, {}, {}, {}, {},
          History([], [], [], [], [], multiset{}, multiset{}, []))
  }

  predicate Enabled(s: State, step: Step) {
    match step
    case Submit(b) => b.id == |s.h.submitted|
    case Tick(_) => true
    case Fire(t) => t in s.timers && t.due <= s.now
    case ExecDone(id) => id in s.running && s.core.wg > 0
    case Stop(late) => forall t :: t in late ==> t in s.timers && t.due <= s.now
    case Expire => true
    case FlushCheck(id) => s.phase == Flushing && id in s.queue && s.admitted == {}
    case FlushAcquire(id) => id in s.admitted && |s.flushing| < FLUSH_CONCURRENCY
    case FlushDone(id) => id in s.flushing
    case StopReturn => s.phase == Flushing && s.queue == {} && s.admitted == {} && s.flushing == {} && s.core.wg == 0
  }

  function SetFate(fate: seq<Fate>, id: nat, f: Fate): seq<Fate> {
    if id < |fate| then fate[id := f] else fate
  }

  function AfterSubmit(s: State, b: Batch): State {
    var h := s.h;
    var core := SubmitCore(s.core, b, s.now, |h.windows|);
    if b.actions == [] then s.(core := core)
    else if s.core.stopped then
      s.(core := core,
         h := h.(submitted := h.submitted + [b], times := h.times + [s.now],
                 windowOf := h.windowOf + [None], fate := h.fate + [Dropped], dropped := h.dropped + multiset{b.id}))
    else if b.key in s.core.pending then
      var e := s.core.pending[b.key];
      s.(core := core,
         h := h.(submitted := h.submitted + [b], times := h.times + [s.now],
                 windowOf := h.windowOf + [Some(e.timer.id)],
                 fate := SetFate(h.fate, e.batch.id, Superseded) + [Pending]))
    else
      s.(core := core,
         timers := s.timers + {Timer(|h.windows|, b.key, s.now + b.window)},
         h := h.(submitted := h.submitted + [b], times := h.times + [s.now],
                 windowOf := h.windowOf + [Some(|h.windows|)],
                 fate := h.fate + [Pending], windows := h.windows + [Window(b.key, s.now, b.window, b.id)]))
  }

  function AfterFire(s: State, t: Timer): State {
    var (core, claimed) := FireCore(s.core, t.key);
    var s' := s.(core := core, timers := s.timers - {t});
    match claimed
    case None => s'
    case Some(e) =>
      s'.(running := s.running + {e.batch.id},
          h := s.h.(fate := SetFate(s.h.fate, e.batch.id, Executed),
                    executed := s.h.executed + multiset{e.batch.id},
                    claims := s.h.claims + [Claim(t.key, e.timer.id, s.now)]))
  }

  /** The first Stop claims everything pending; a later one changes nothing. */
  function AfterStop(s: State, late: set<Timer>): State {
    if s.core.stopped then s
    else
      var ids := PendingIds(s.core);
      s.(core := StopCore(s.core), timers := late, phase := Flushing, queue := ids,
         h := s.h.(fate := seq(|s.h.fate|, i requires 0 <= i < |s.h.fate| => if i in ids then Queued else s.h.fate[i])))
  }

  function AfterFlushCheck(s: State, id: nat): State {
    if s.expired then
      s.(queue := s.queue - {id},
         h := s.h.(fate := SetFate(s.h.fate, id, Dropped), dropped := s.h.dropped + multiset{id}))
    else
      s.(queue := s.queue - {id}, admitted := {id})
  }

  function AfterFlushAcquire(s: State, id: nat): State {
    s.(admitted := s.admitted - {id}, flushing := s.flushing + {id},
       h := s.h.(fate := SetFate(s.h.fate, id, Executed), executed := s.h.executed + multiset{id}))
  }

  function Next(s: State, step: Step): State
    requires Enabled(s, step)
  {
    match step
    case Submit(b) => AfterSubmit(s, b)
    case Tick(d) => s.(now := s.now + d)
    case Fire(t) => AfterFire(s, t)
    case ExecDone(id) => s.(running := s.running - {id}, core := s.core.(wg := s.core.wg - 1))
    case Stop(late) => AfterStop(s, late)
    case Expire => s.(expired := true)
    case FlushCheck(id) => AfterFlushCheck(s, id)
    case FlushAcquire(id) => AfterFlushAcquire(s, id)
    case FlushDone(id) => s.(flushing := s.flushing - {id})
    case StopReturn => s.(phase := Returned)
  }

  /** `steps` can be taken from `s`, one after the other, and end in `t`. */
  ghost predicate Runs(s: State, steps: seq<Step>, t: State)
    decreases |steps|
  {
    if steps == [] then s == t
    else Enabled(s, steps[0]) && Runs(Next(s, steps[0]), steps[1..], t)
  }

  ghost predicate Reachable(t: State) {
    exists start: int, steps: seq<Step> :: Runs(Init(start), steps, t)
  }

  // -------------------------------------------------------------- invariant

  ghost predicate LogsAgree(s: State) {
    var h := s.h;
    && |h.submitted| == |h.windowOf| == |h.fate|
    && (forall i :: 0 <= i < |h.submitted| ==> h.submitted[i].id == i)
  }

  /** Each entry is the live batch of its own window. */
  ghost predicate EntryOk(s: State, k: Key, e: Entry) {
    && e.batch.key == k == e.timer.key
    && e.batch.id < |s.h.submitted| == |s.h.windowOf| == |s.h.fate|
    && s.h.submitted[e.batch.id] == e.batch
    && s.h.fate[e.batch.id] == Pending
    && s.h.windowOf[e.batch.id] == Some(e.timer.id)
    && e.timer.id < |s.h.windows|
    && s.h.windows[e.timer.id].key == k
    && e.timer.due == s.h.windows[e.timer.id].openedAt + s.h.windows[e.timer.id].length
  }

  ghost predicate PendingOk(s: State) {
    && (forall k :: k in s.core.pending ==> EntryOk(s, k, s.core.pending[k]))
    && (forall i :: 0 <= i < |s.h.fate| && s.h.fate[i] == Pending ==> IsPending(s, i))
  }

  ghost predicate TimersOk(s: State) {
    && (s.core.stopped <==> s.phase != Serving)
    && (s.core.stopped ==> s.core.pending == map[])
    && (!s.core.stopped ==> s.timers == set k | k in s.core.pending :: s.core.pending[k].timer)
  }

  /** The observable traces say what the fates say. */
  ghost predicate TraceOk(s: State) {
    && (forall i: nat :: s.h.executed[i] == if HasFate(s, i, Executed) then 1 else 0)
    && (forall i: nat :: s.h.dropped[i] == if HasFate(s, i, Dropped) then 1 else 0)
    && (forall i: nat :: AwaitsFlush(s, i) <==> HasFate(s, i, Queued))
  }

  predicate HasFate(s: State, id: nat, f: Fate) { id < |s.h.fate| && s.h.fate[id] == f }

  ghost predicate WorkOk(s: State) {
    && (forall i :: i in s.running + s.flushing ==> HasFate(s, i, Executed))
    && s.queue !! s.admitted
    && s.core.wg == |s.running|
    && (s.phase != Flushing ==> s.queue == s.admitted == s.flushing == {})
    && (s.phase == Returned ==> s.running == {})
    && |s.flushing| <= FLUSH_CONCURRENCY
  }

  /** Superseded means exactly: a later batch joined the same window. */
  ghost predicate WindowsOk(s: State)
    requires LogsAgree(s)
  {
    var h := s.h;
    && (forall i :: 0 <= i < |h.windowOf| && h.windowOf[i].Some? ==>
          h.windowOf[i].value < |h.windows| && h.windows[h.windowOf[i].value].key == h.submitted[i].key)
    && (forall i :: 0 <= i < |h.windowOf| && h.windowOf[i].None? ==> h.fate[i] == Dropped && s.core.stopped)
    && (forall i :: 0 <= i < |h.fate| ==> (h.fate[i] == Superseded <==> JoinedLater(s, i)))
    && (forall i :: 0 <= i < |h.fate| && h.fate[i] == Dropped && h.windowOf[i].Some? ==> s.expired)
  }

  ghost predicate ClaimsOk(s: State) {
    var h := s.h;
    && (forall w :: 0 <= w < |h.windows| ==> h.windows[w].openedAt <= s.now)
    && (forall i :: 0 <= i < |h.claims| ==> ClaimOk(h.windows, h.claims[i], s.now))
    && (forall i, j :: 0 <= i < j < |h.claims| && h.claims[i].key == h.claims[j].key ==>
          h.claims[j].window < |h.windows| && h.windows[h.claims[j].window].openedAt >= h.claims[i].at)
    && (forall k, i :: k in s.core.pending && 0 <= i < |h.claims| && h.claims[i].key == k ==>
          s.core.pending[k].timer.id < |h.windows| &&
          h.windows[s.core.pending[k].timer.id].openedAt >= h.claims[i].at)
  }

  ghost predicate ClaimOk(windows: seq<Window>, c: Claim, now: int) {
    && c.window < |windows|
    && windows[c.window].key == c.key
    && windows[c.window].openedAt + windows[c.window].length <= c.at <= now
  }

  /** A window lasts from the submission of its first batch, for that batch's
      window. */
  ghost predicate OpenedBy(h: History, w: nat)
    requires w < |h.windows| && |h.times| == |h.submitted| == |h.windowOf|
  {
    var o := h.windows[w].opener;
    && o < |h.submitted|
    && h.windowOf[o] == Some(w)
    && h.windows[w].length == h.submitted[o].window
    && h.windows[w].openedAt == h.times[o]
  }

  ghost predicate OpenersOk(h: History) {
    && |h.times| == |h.submitted| == |h.windowOf|
    && (forall w :: 0 <= w < |h.windows| ==> OpenedBy(h, w))
    && (forall i :: 0 <= i < |h.windowOf| && h.windowOf[i].Some? ==>
          h.windowOf[i].value < |h.windows| && h.windows[h.windowOf[i].value].opener <= i)
  }

  ghost predicate Inv(s: State) {
    LogsAgree(s) && PendingOk(s) && TimersOk(s) && TraceOk(s) && WorkOk(s) && WindowsOk(s) && ClaimsOk(s) &&
    OpenersOk(s.h)
  }

  // -------------------------------------- where a submitted batch can be

  predicate IsPending(s: State, id: nat) { id in PendingIds(s.core) }

  predicate AwaitsFlush(s: State, id: nat) { id in s.queue + s.admitted }

  /** A later batch joined the same window. */
  predicate JoinedLater(s: State, id: nat)
    requires id < |s.h.windowOf|
  {
    exists j :: id < j < |s.h.windowOf| && s.h.windowOf[j].Some? && s.h.windowOf[j] == s.h.windowOf[id]
  }
}
