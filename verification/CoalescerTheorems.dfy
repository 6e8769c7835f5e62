/** Every step of the coalescer keeps the invariant, and what that says about
    every run. */
module CoalescerTheorems {
  import opened Text
  import opened Coalescers

  /** The key under which a pending batch is held. */
  ghost function Holder(s: State, id: nat): (k: Key)
    requires IsPending(s, id)
    ensures k in s.core.pending && s.core.pending[k].batch.id == id
  {
    var k :| k in s.core.pending && s.core.pending[k].batch.id == id;
    k
  }

  ghost predicate Replaces(s: State, b: Batch) {
    b.id == |s.h.submitted| && b.actions != [] && !s.core.stopped && b.key in s.core.pending
  }

  ghost predicate Opens(s: State, b: Batch) {
    b.id == |s.h.submitted| && b.actions != [] && !s.core.stopped && b.key !in s.core.pending
  }

  ghost predicate Refused(s: State, b: Batch) {
    b.id == |s.h.submitted| && b.actions != [] && s.core.stopped
  }

  ghost predicate Claims(s: State, t: Timer) {
    t in s.timers && t.due <= s.now && !s.core.stopped && t.key in s.core.pending
  }

  // ------------------------------------------------------- pending entries

  /** Steps that leave the entries and their logs alone keep them in order. */
  lemma PendingFrame(s: State, s': State)
    requires LogsAgree(s) && PendingOk(s)
    requires s'.core.pending == s.core.pending
    requires s'.h.submitted == s.h.submitted && s'.h.windowOf == s.h.windowOf && s'.h.windows == s.h.windows
    requires |s'.h.fate| == |s.h.fate|
    requires forall i :: 0 <= i < |s.h.fate| ==> (s'.h.fate[i] == Pending <==> s.h.fate[i] == Pending)
    ensures LogsAgree(s') && PendingOk(s')
  {
    forall k | k in s'.core.pending ensures EntryOk(s', k, s'.core.pending[k]) {
      assert EntryOk(s, k, s.core.pending[k]);
    }
    forall i | 0 <= i < |s'.h.fate| && s'.h.fate[i] == Pending ensures IsPending(s', i) {
      assert IsPending(s, i);
    }
  }

  lemma ReplaceKeepsPending(s: State, b: Batch)
    requires LogsAgree(s) && PendingOk(s) && Replaces(s, b)
    ensures LogsAgree(AfterSubmit(s, b)) && PendingOk(AfterSubmit(s, b))
  {
    var s' := AfterSubmit(s, b);
    assert EntryOk(s, b.key, s.core.pending[b.key]);
    forall k | k in s'.core.pending ensures EntryOk(s', k, s'.core.pending[k]) {
      assert EntryOk(s, k, s.core.pending[k]);
    }
    forall i | 0 <= i < |s'.h.fate| && s'.h.fate[i] == Pending ensures IsPending(s', i) {
      var k := if i == |s.h.fate| then b.key else Holder(s, i);
      assert s'.core.pending[k].batch.id == i;
    }
  }

  lemma OpenKeepsPending(s: State, b: Batch)
    requires LogsAgree(s) && PendingOk(s) && Opens(s, b)
    ensures LogsAgree(AfterSubmit(s, b)) && PendingOk(AfterSubmit(s, b))
  {
    var s' := AfterSubmit(s, b);
    forall k | k in s'.core.pending ensures EntryOk(s', k, s'.core.pending[k]) {
      if k != b.key { assert EntryOk(s, k, s.core.pending[k]); }
    }
    forall i | 0 <= i < |s'.h.fate| && s'.h.fate[i] == Pending ensures IsPending(s', i) {
      var k := if i == |s.h.fate| then b.key else Holder(s, i);
      assert s'.core.pending[k].batch.id == i;
    }
  }

  lemma RefuseKeepsPending(s: State, b: Batch)
    requires LogsAgree(s) && PendingOk(s) && Refused(s, b)
    ensures LogsAgree(AfterSubmit(s, b)) && PendingOk(AfterSubmit(s, b))
  {
    var s' := AfterSubmit(s, b);
    forall k | k in s'.core.pending ensures EntryOk(s', k, s'.core.pending[k]) {
      assert EntryOk(s, k, s.core.pending[k]);
    }
    forall i | 0 <= i < |s'.h.fate| && s'.h.fate[i] == Pending ensures IsPending(s', i) {
      assert s'.core.pending[Holder(s, i)].batch.id == i;
    }
  }

  lemma ClaimKeepsPending(s: State, t: Timer)
    requires LogsAgree(s) && PendingOk(s) && Claims(s, t)
    ensures LogsAgree(AfterFire(s, t)) && PendingOk(AfterFire(s, t))
  {
    var s' := AfterFire(s, t);
    assert EntryOk(s, t.key, s.core.pending[t.key]);
    forall k | k in s'.core.pending ensures EntryOk(s', k, s'.core.pending[k]) {
      assert EntryOk(s, k, s.core.pending[k]);
    }
    forall i | 0 <= i < |s'.h.fate| && s'.h.fate[i] == Pending ensures IsPending(s', i) {
      var k := Holder(s, i);
      assert k in s'.core.pending && s'.core.pending[k].batch.id == i;
    }
  }

  lemma SubmitKeepsPending(s: State, b: Batch)
    requires LogsAgree(s) && PendingOk(s) && b.id == |s.h.submitted|
    ensures LogsAgree(AfterSubmit(s, b)) && PendingOk(AfterSubmit(s, b))
  {
    if b.actions == [] {
      PendingFrame(s, AfterSubmit(s, b));
    } else if s.core.stopped {
      RefuseKeepsPending(s, b);
    } else if b.key in s.core.pending {
      ReplaceKeepsPending(s, b);
    } else {
      OpenKeepsPending(s, b);
    }
  }

  lemma FireKeepsPending(s: State, t: Timer)
    requires LogsAgree(s) && PendingOk(s) && Enabled(s, Fire(t))
    ensures LogsAgree(AfterFire(s, t)) && PendingOk(AfterFire(s, t))
  {
    if Claims(s, t) {
      ClaimKeepsPending(s, t);
    } else {
      PendingFrame(s, AfterFire(s, t));
    }
  }

  lemma StopKeepsPending(s: State, late: set<Timer>)
    requires LogsAgree(s) && PendingOk(s)
    ensures LogsAgree(AfterStop(s, late)) && PendingOk(AfterStop(s, late))
  {
    if s.core.stopped {
      PendingFrame(s, AfterStop(s, late));
    } else {
      assert forall i :: 0 <= i < |s.h.fate| && s.h.fate[i] == Pending ==> IsPending(s, i);
    }
  }

  lemma KeepsPending(s: State, step: Step)
    requires LogsAgree(s) && PendingOk(s) && TraceOk(s) && Enabled(s, step)
    ensures LogsAgree(Next(s, step)) && PendingOk(Next(s, step))
  {
    if
    case step.Submit? => SubmitKeepsPending(s, step.b);
    case step.Fire? => FireKeepsPending(s, step.t);
    case step.Stop? => StopKeepsPending(s, step.late);
    case step.FlushCheck? || step.FlushAcquire? =>
      assert AwaitsFlush(s, step.id);
      PendingFrame(s, Next(s, step));
    case step.Tick? || step.Expire? || step.ExecDone? || step.FlushDone? || step.StopReturn? =>
      PendingFrame(s, Next(s, step));
  }

  // ---------------------------------------------------------------- timers

  lemma OpenKeepsTimers(s: State, b: Batch)
    requires Inv(s) && Opens(s, b)
    ensures TimersOk(AfterSubmit(s, b))
  {
    var s', t := AfterSubmit(s, b), Timer(|s.h.windows|, b.key, s.now + b.window);
    assert s'.core.pending.Keys == s.core.pending.Keys + {b.key};
    assert s'.core.pending[b.key].timer == t;
    forall x ensures x in s'.timers <==> x in set k | k in s'.core.pending :: s'.core.pending[k].timer {
      if x in s.timers {
        var k :| k in s.core.pending && s.core.pending[k].timer == x;
        assert s'.core.pending[k].timer == x;
      }
    }
  }

  lemma ReplaceKeepsTimers(s: State, b: Batch)
    requires Inv(s) && Replaces(s, b)
    ensures TimersOk(AfterSubmit(s, b))
  {
    var s' := AfterSubmit(s, b);
    assert s'.core.pending.Keys == s.core.pending.Keys;
    assert forall k :: k in s.core.pending ==> s'.core.pending[k].timer == s.core.pending[k].timer;
  }

  /** A callback takes its own entry, never that of another window. */
  lemma CallbackOwnsEntry(s: State, t: Timer)
    requires Inv(s) && t in s.timers && !s.core.stopped
    ensures t.key in s.core.pending && s.core.pending[t.key].timer == t
  {
    var k :| k in s.core.pending && s.core.pending[k].timer == t;
    assert EntryOk(s, k, s.core.pending[k]);
  }

  lemma ClaimKeepsTimers(s: State, t: Timer)
    requires Inv(s) && Claims(s, t)
    ensures TimersOk(AfterFire(s, t))
  {
    var s' := AfterFire(s, t);
    CallbackOwnsEntry(s, t);
    forall x | x in s'.timers ensures exists k :: k in s'.core.pending && s'.core.pending[k].timer == x {
      CallbackOwnsEntry(s, x);
      assert x.key in s'.core.pending;
    }
    forall k | k in s'.core.pending ensures s'.core.pending[k].timer in s'.timers {
      assert EntryOk(s, k, s.core.pending[k]);
    }
  }

  lemma KeepsTimers(s: State, step: Step)
    requires Inv(s) && Enabled(s, step)
    ensures TimersOk(Next(s, step))
  {
    if
    case step.Submit? && Replaces(s, step.b) => ReplaceKeepsTimers(s, step.b);
    case step.Submit? && Opens(s, step.b) => OpenKeepsTimers(s, step.b);
    case step.Submit? && (step.b.actions == [] || Refused(s, step.b)) =>
    case step.Fire? && Claims(s, step.t) => ClaimKeepsTimers(s, step.t);
    case step.Fire? && s.core.stopped =>
    case step.Fire? && !s.core.stopped => CallbackOwnsEntry(s, step.t); ClaimKeepsTimers(s, step.t);
    case !step.Submit? && !step.Fire? =>
  }

  // ----------------------------------------------------------------- trace

  lemma ReplaceKeepsTrace(s: State, b: Batch)
    requires LogsAgree(s) && PendingOk(s) && TraceOk(s) && WorkOk(s) && Replaces(s, b)
    ensures TraceOk(AfterSubmit(s, b)) && WorkOk(AfterSubmit(s, b))
  {
    var s', e := AfterSubmit(s, b), s.core.pending[b.key];
    assert EntryOk(s, b.key, e);
    forall i: nat, f | f in {Executed, Dropped, Queued} ensures HasFate(s', i, f) <==> HasFate(s, i, f) {
    }
  }

  lemma OpenKeepsTrace(s: State, b: Batch)
    requires LogsAgree(s) && TraceOk(s) && WorkOk(s) && Opens(s, b)
    ensures TraceOk(AfterSubmit(s, b)) && WorkOk(AfterSubmit(s, b))
  {
    var s' := AfterSubmit(s, b);
    forall i: nat, f | f in {Executed, Dropped, Queued} ensures HasFate(s', i, f) <==> HasFate(s, i, f) {
    }
  }

  lemma RefuseKeepsTrace(s: State, b: Batch)
    requires LogsAgree(s) && TraceOk(s) && WorkOk(s) && Refused(s, b)
    ensures TraceOk(AfterSubmit(s, b)) && WorkOk(AfterSubmit(s, b))
  {
    var s' := AfterSubmit(s, b);
    forall i: nat, f | f in {Executed, Dropped, Queued}
      ensures HasFate(s', i, f) <==> HasFate(s, i, f) || (i == b.id && f == Dropped)
    {
    }
  }

  /** One batch changes its fate, all others keep theirs. */
  lemma FateMoves(s: State, s': State, id: nat, to: Fate)
    requires id < |s.h.fate| && s'.h.fate == s.h.fate[id := to]
    ensures forall i: nat, f :: HasFate(s', i, f) <==> if i == id then f == to else HasFate(s, i, f)
  {
  }

  lemma ClaimKeepsTrace(s: State, t: Timer)
    requires LogsAgree(s) && PendingOk(s) && TraceOk(s) && WorkOk(s) && TimersOk(s) && Claims(s, t)
    ensures TraceOk(AfterFire(s, t)) && WorkOk(AfterFire(s, t))
  {
    var e := s.core.pending[t.key];
    assert EntryOk(s, t.key, e);
    FateMoves(s, AfterFire(s, t), e.batch.id, Executed);
    assert e.batch.id !in s.running + s.flushing by { assert !HasFate(s, e.batch.id, Executed); }
  }

  lemma StopKeepsTrace(s: State, late: set<Timer>)
    requires LogsAgree(s) && PendingOk(s) && TraceOk(s) && WorkOk(s) && TimersOk(s) && !s.core.stopped
    ensures TraceOk(AfterStop(s, late)) && WorkOk(AfterStop(s, late))
  {
    var s' := AfterStop(s, late);
    forall i: nat | i in PendingIds(s.core) ensures HasFate(s, i, Pending) {
      assert EntryOk(s, Holder(s, i), s.core.pending[Holder(s, i)]);
    }
    forall i: nat, f | f in {Executed, Dropped, Queued}
      ensures HasFate(s', i, f) <==> HasFate(s, i, f) || (f == Queued && i in PendingIds(s.core))
    {
    }
    assert forall i: nat :: AwaitsFlush(s', i) <==> i in PendingIds(s.core);
  }

  /** The flush takes a batch off the queue: into a slot, or dropped. */
  lemma FlushMoves(s: State, s': State, id: nat, to: Fate)
    requires LogsAgree(s) && TraceOk(s) && AwaitsFlush(s, id) && s'.queue + s'.admitted == s.queue + s.admitted - {id}
    requires s'.h.fate == s.h.fate[id := to] && (to == Executed || to == Dropped)
    requires s'.h.executed == if to == Executed then s.h.executed + multiset{id} else s.h.executed
    requires s'.h.dropped == if to == Dropped then s.h.dropped + multiset{id} else s.h.dropped
    ensures TraceOk(s')
    ensures forall i: nat, f :: HasFate(s', i, f) <==> if i == id then f == to else HasFate(s, i, f)
  {
    FateMoves(s, s', id, to);
    assert HasFate(s, id, Queued);
    assert forall i: nat :: AwaitsFlush(s', i) <==> AwaitsFlush(s, i) && i != id;
  }

  lemma FlushCheckKeepsTrace(s: State, id: nat)
    requires LogsAgree(s) && TraceOk(s) && WorkOk(s) && Enabled(s, FlushCheck(id))
    ensures TraceOk(AfterFlushCheck(s, id)) && WorkOk(AfterFlushCheck(s, id))
  {
    var s' := AfterFlushCheck(s, id);
    assert AwaitsFlush(s, id);
    if s.expired {
      assert s'.queue + s'.admitted == s.queue + s.admitted - {id};
      FlushMoves(s, s', id, Dropped);
      assert id !in s.running + s.flushing by { assert !HasFate(s, id, Executed); }
    } else {
      assert forall i: nat :: AwaitsFlush(s', i) <==> AwaitsFlush(s, i);
      assert forall i: nat, f :: HasFate(s', i, f) <==> HasFate(s, i, f);
    }
  }

  lemma FlushAcquireKeepsTrace(s: State, id: nat)
    requires LogsAgree(s) && TraceOk(s) && WorkOk(s) && Enabled(s, FlushAcquire(id))
    ensures TraceOk(AfterFlushAcquire(s, id)) && WorkOk(AfterFlushAcquire(s, id))
  {
    var s' := AfterFlushAcquire(s, id);
    assert AwaitsFlush(s, id);
    assert s'.queue + s'.admitted == s.queue + s.admitted - {id};
    FlushMoves(s, s', id, Executed);
    assert s.phase == Flushing;
  }

  lemma KeepsTrace(s: State, step: Step)
    requires Inv(s) && Enabled(s, step)
    ensures TraceOk(Next(s, step)) && WorkOk(Next(s, step))
  {
    if
    case step.Submit? && Replaces(s, step.b) => ReplaceKeepsTrace(s, step.b);
    case step.Submit? && Opens(s, step.b) => OpenKeepsTrace(s, step.b);
    case step.Submit? && Refused(s, step.b) => RefuseKeepsTrace(s, step.b);
    case step.Fire? && Claims(s, step.t) => ClaimKeepsTrace(s, step.t);
    case step.Stop? && !s.core.stopped => StopKeepsTrace(s, step.late);
    case step.FlushCheck? => FlushCheckKeepsTrace(s, step.id);
    case step.FlushAcquire? => FlushAcquireKeepsTrace(s, step.id);
    case (step.Submit? && step.b.actions == []) || (step.Fire? && !Claims(s, step.t)) ||
         (step.Stop? && s.core.stopped) =>
      TraceFrame(s, Next(s, step));
    case step.Tick? || step.Expire? || step.ExecDone? || step.FlushDone? || step.StopReturn? =>
      TraceFrame(s, Next(s, step));
  }

  lemma TraceFrame(s: State, s': State)
    requires TraceOk(s) && s'.h == s.h && s'.queue == s.queue && s'.admitted == s.admitted
    ensures TraceOk(s')
    ensures forall i: nat, f :: HasFate(s', i, f) <==> HasFate(s, i, f)
  {
    assert forall i: nat, f :: HasFate(s', i, f) <==> HasFate(s, i, f);
    assert forall i: nat :: AwaitsFlush(s', i) <==> AwaitsFlush(s, i);
  }

  // --------------------------------------------------------------- windows

  /** Who is joined later after one more batch was logged. */
  lemma JoinOne(s: State, s': State, i: nat)
    requires |s'.h.windowOf| == |s.h.windowOf| + 1 && s.h.windowOf == s'.h.windowOf[..|s.h.windowOf|]
    requires i < |s'.h.windowOf|
    ensures i == |s.h.windowOf| ==> !JoinedLater(s', i)
    ensures
      var n := |s.h.windowOf|;
      i < n ==>
        (JoinedLater(s', i) <==>
         JoinedLater(s, i) || (s'.h.windowOf[n].Some? && s'.h.windowOf[n] == s.h.windowOf[i]))
  {
    var n := |s.h.windowOf|;
    if i < n {
      assert s'.h.windowOf[i] == s.h.windowOf[i];
      if JoinedLater(s, i) {
        var j :| i < j < n && s.h.windowOf[j].Some? && s.h.windowOf[j] == s.h.windowOf[i];
        assert s'.h.windowOf[j] == s.h.windowOf[j];
      }
      if JoinedLater(s', i) {
        var j :| i < j < n + 1 && s'.h.windowOf[j].Some? && s'.h.windowOf[j] == s'.h.windowOf[i];
        if j < n { assert s'.h.windowOf[j] == s.h.windowOf[j]; }
      }
    }
  }

  lemma ReplaceKeepsWindows(s: State, b: Batch)
    requires LogsAgree(s) && WindowsOk(s) && Replaces(s, b) && EntryOk(s, b.key, s.core.pending[b.key])
    ensures LogsAgree(AfterSubmit(s, b)) && WindowsOk(AfterSubmit(s, b))
  {
    var s', e := AfterSubmit(s, b), s.core.pending[b.key];
    forall i | 0 <= i < |s'.h.fate| ensures s'.h.fate[i] == Superseded <==> JoinedLater(s', i) {
      JoinOne(s, s', i);
    }
  }

  lemma OpenKeepsWindows(s: State, b: Batch)
    requires LogsAgree(s) && WindowsOk(s) && Opens(s, b)
    ensures LogsAgree(AfterSubmit(s, b)) && WindowsOk(AfterSubmit(s, b))
  {
    var s' := AfterSubmit(s, b);
    forall i | 0 <= i < |s'.h.fate| ensures s'.h.fate[i] == Superseded <==> JoinedLater(s', i) {
      JoinOne(s, s', i);
    }
  }

  lemma RefuseKeepsWindows(s: State, b: Batch)
    requires LogsAgree(s) && WindowsOk(s) && Refused(s, b)
    ensures LogsAgree(AfterSubmit(s, b)) && WindowsOk(AfterSubmit(s, b))
  {
    var s' := AfterSubmit(s, b);
    forall i | 0 <= i < |s'.h.fate| ensures s'.h.fate[i] == Superseded <==> JoinedLater(s', i) {
      JoinOne(s, s', i);
    }
  }

  /** Steps that submit nothing change no window, and supersede nothing. */
  lemma WindowsFrame(s: State, s': State)
    requires LogsAgree(s) && LogsAgree(s') && WindowsOk(s)
    requires s'.h.submitted == s.h.submitted && s'.h.windowOf == s.h.windowOf && s'.h.windows == s.h.windows
    requires forall i :: 0 <= i < |s.h.fate| ==> (s'.h.fate[i] == Superseded <==> s.h.fate[i] == Superseded)
    requires forall i :: 0 <= i < |s.h.fate| && s.h.fate[i] == Dropped ==> s'.h.fate[i] == Dropped
    requires forall i :: 0 <= i < |s.h.fate| && s.h.fate[i] != Dropped && s'.h.fate[i] == Dropped ==> s'.expired
    requires (s.core.stopped ==> s'.core.stopped) && (s.expired ==> s'.expired)
    ensures WindowsOk(s')
  {
    forall i | 0 <= i < |s'.h.fate| ensures s'.h.fate[i] == Superseded <==> JoinedLater(s', i) {
      assert JoinedLater(s, i) <==> JoinedLater(s', i);
    }
  }

  lemma FireKeepsWindows(s: State, t: Timer)
    requires LogsAgree(s) && PendingOk(s) && WindowsOk(s) && LogsAgree(AfterFire(s, t))
    ensures WindowsOk(AfterFire(s, t))
  {
    if t.key in s.core.pending { assert EntryOk(s, t.key, s.core.pending[t.key]); }
    WindowsFrame(s, AfterFire(s, t));
  }

  lemma StopKeepsWindows(s: State, late: set<Timer>)
    requires LogsAgree(s) && PendingOk(s) && WindowsOk(s) && LogsAgree(AfterStop(s, late))
    ensures WindowsOk(AfterStop(s, late))
  {
    forall i: nat | i in PendingIds(s.core) ensures HasFate(s, i, Pending) {
      assert EntryOk(s, Holder(s, i), s.core.pending[Holder(s, i)]);
    }
    WindowsFrame(s, AfterStop(s, late));
  }

  lemma FlushKeepsWindows(s: State, step: Step)
    requires LogsAgree(s) && TraceOk(s) && WindowsOk(s) && Enabled(s, step) && LogsAgree(Next(s, step))
    requires step.FlushCheck? || step.FlushAcquire?
    ensures WindowsOk(Next(s, step))
  {
    assert AwaitsFlush(s, step.id);
    WindowsFrame(s, Next(s, step));
  }

  lemma SubmitKeepsWindows(s: State, b: Batch)
    requires LogsAgree(s) && PendingOk(s) && WindowsOk(s) && b.id == |s.h.submitted|
    ensures LogsAgree(AfterSubmit(s, b)) && WindowsOk(AfterSubmit(s, b))
  {
    if b.actions == [] {
      WindowsFrame(s, AfterSubmit(s, b));
    } else if s.core.stopped {
      RefuseKeepsWindows(s, b);
    } else if b.key in s.core.pending {
      ReplaceKeepsWindows(s, b);
    } else {
      OpenKeepsWindows(s, b);
    }
  }

  lemma KeepsWindows(s: State, step: Step)
    requires Inv(s) && Enabled(s, step) && LogsAgree(Next(s, step))
    ensures WindowsOk(Next(s, step))
  {
    if
    case step.Submit? => SubmitKeepsWindows(s, step.b);
    case step.Fire? => FireKeepsWindows(s, step.t);
    case step.Stop? => StopKeepsWindows(s, step.late);
    case step.FlushCheck? || step.FlushAcquire? => FlushKeepsWindows(s, step);
    case step.Tick? || step.Expire? || step.ExecDone? || step.FlushDone? || step.StopReturn? =>
      WindowsFrame(s, Next(s, step));
  }

  // ---------------------------------------------------------------- claims

  lemma OpenKeepsClaims(s: State, b: Batch)
    requires LogsAgree(s) && PendingOk(s) && ClaimsOk(s) && Opens(s, b)
    ensures ClaimsOk(AfterSubmit(s, b))
  {
    var s' := AfterSubmit(s, b);
    forall i | 0 <= i < |s'.h.claims| ensures ClaimOk(s'.h.windows, s'.h.claims[i], s'.now) {
      assert ClaimOk(s.h.windows, s.h.claims[i], s.now);
    }
    forall k | k in s.core.pending ensures EntryOk(s, k, s.core.pending[k]) {
    }
  }

  lemma ClaimKeepsClaims(s: State, t: Timer)
    requires Inv(s) && Claims(s, t)
    ensures ClaimsOk(AfterFire(s, t))
  {
    var s' := AfterFire(s, t);
    CallbackOwnsEntry(s, t);
    assert EntryOk(s, t.key, s.core.pending[t.key]);
    forall i | 0 <= i < |s'.h.claims| ensures ClaimOk(s'.h.windows, s'.h.claims[i], s'.now) {
      if i < |s.h.claims| { assert ClaimOk(s.h.windows, s.h.claims[i], s.now); }
    }
  }

  /** Claims and windows grow only by the two steps above. */
  lemma ClaimsFrame(s: State, s': State)
    requires ClaimsOk(s) && s'.now >= s.now
    requires s'.h.windows == s.h.windows && s'.h.claims == s.h.claims
    requires forall k :: k in s'.core.pending ==>
               k in s.core.pending && s'.core.pending[k].timer == s.core.pending[k].timer
    ensures ClaimsOk(s')
  {
    forall i | 0 <= i < |s'.h.claims| ensures ClaimOk(s'.h.windows, s'.h.claims[i], s'.now) {
      assert ClaimOk(s.h.windows, s.h.claims[i], s.now);
    }
  }

  lemma SubmitKeepsClaims(s: State, b: Batch)
    requires LogsAgree(s) && PendingOk(s) && ClaimsOk(s) && b.id == |s.h.submitted|
    ensures ClaimsOk(AfterSubmit(s, b))
  {
    if Opens(s, b) {
      OpenKeepsClaims(s, b);
    } else {
      ClaimsFrame(s, AfterSubmit(s, b));
    }
  }

  lemma FireKeepsClaims(s: State, t: Timer)
    requires Inv(s) && Enabled(s, Fire(t))
    ensures ClaimsOk(AfterFire(s, t))
  {
    if Claims(s, t) {
      ClaimKeepsClaims(s, t);
    } else {
      ClaimsFrame(s, AfterFire(s, t));
    }
  }

  lemma KeepsClaims(s: State, step: Step)
    requires Inv(s) && Enabled(s, step)
    ensures ClaimsOk(Next(s, step))
  {
    if
    case step.Submit? => SubmitKeepsClaims(s, step.b);
    case step.Fire? => FireKeepsClaims(s, step.t);
    case !step.Submit? && !step.Fire? => ClaimsFrame(s, Next(s, step));
  }

  // --------------------------------------------------------------- openers

  lemma SubmitKeepsOpeners(s: State, b: Batch)
    requires LogsAgree(s) && PendingOk(s) && OpenersOk(s.h) && b.id == |s.h.submitted|
    ensures OpenersOk(AfterSubmit(s, b).h)
  {
    var h, h' := s.h, AfterSubmit(s, b).h;
    if Replaces(s, b) { assert EntryOk(s, b.key, s.core.pending[b.key]); }
    forall w | 0 <= w < |h'.windows| ensures OpenedBy(h', w) {
      if w < |h.windows| { assert OpenedBy(h, w); }
    }
  }

  lemma KeepsOpeners(s: State, step: Step)
    requires Inv(s) && Enabled(s, step)
    ensures OpenersOk(Next(s, step).h)
  {
    if step.Submit? {
      SubmitKeepsOpeners(s, step.b);
    } else {
      var h, h' := s.h, Next(s, step).h;
      assert h'.submitted == h.submitted && h'.times == h.times && h'.windowOf == h.windowOf && h'.windows == h.windows;
      forall w | 0 <= w < |h'.windows| ensures OpenedBy(h', w) {
        assert OpenedBy(h, w);
      }
    }
  }

  // -------------------------------------------------------------- all runs

  lemma StepKeepsInv(s: State, step: Step)
    requires Inv(s) && Enabled(s, step)
    ensures Inv(Next(s, step))
  {
    KeepsPending(s, step);
    KeepsTimers(s, step);
    KeepsTrace(s, step);
    KeepsWindows(s, step);
    KeepsClaims(s, step);
    KeepsOpeners(s, step);
  }

  lemma {:induction false} RunKeepsInv(s: State, steps: seq<Step>, t: State)
    requires Inv(s) && Runs(s, steps, t)
    ensures Inv(t)
    decreases |steps|
  {
    if steps != [] {
      StepKeepsInv(s, steps[0]);
      RunKeepsInv(Next(s, steps[0]), steps[1..], t);
    }
  }

  lemma ReachableInv(s: State)
    requires Reachable(s)
    ensures Inv(s)
  {
    var start: int, steps: seq<Step> :| Runs(Init(start), steps, s);
    RunKeepsInv(Init(start), steps, s);
  }

  // -------------------------------------------------------------- theorems

  /** Until stopped, the callbacks that are armed or waiting are exactly one per
      pending key, and each one will find its own entry. */
  lemma OneCallbackPerPendingKey(s: State)
    requires Reachable(s) && !s.core.stopped
    ensures forall k :: k in s.core.pending ==> s.core.pending[k].timer in s.timers && s.core.pending[k].timer.key == k
    ensures forall t :: t in s.timers ==> t.key in s.core.pending && s.core.pending[t.key].timer == t
  {
    ReachableInv(s);
    forall k | k in s.core.pending ensures s.core.pending[k].timer in s.timers && s.core.pending[k].timer.key == k {
      assert EntryOk(s, k, s.core.pending[k]);
    }
    forall t | t in s.timers ensures t.key in s.core.pending && s.core.pending[t.key].timer == t {
      CallbackOwnsEntry(s, t);
    }
  }

  function Count(b: bool): nat { if b then 1 else 0 }

  /** Every non-empty submitted batch is in exactly one place: pending, replaced
      by a later batch of its window, waiting for the flush, executed once, or
      dropped once. In particular the batch executed for a window is the last
      one submitted in it. */
  lemma ExactlyOnePlace(s: State, id: nat)
    requires Reachable(s) && id < |s.h.submitted|
    ensures |s.h.windowOf| == |s.h.submitted|
    ensures Count(IsPending(s, id)) + Count(JoinedLater(s, id)) + Count(AwaitsFlush(s, id))
              + s.h.executed[id] + s.h.dropped[id] == 1
  {
    ReachableInv(s);
    assert IsPending(s, id) <==> HasFate(s, id, Pending) by {
      if IsPending(s, id) { assert EntryOk(s, Holder(s, id), s.core.pending[Holder(s, id)]); }
    }
    assert AwaitsFlush(s, id) <==> HasFate(s, id, Queued);
    assert JoinedLater(s, id) <==> s.h.fate[id] == Superseded;
    assert s.h.executed[id] == Count(HasFate(s, id, Executed));
    assert s.h.dropped[id] == Count(HasFate(s, id, Dropped));
  }

  /** A window executes at most one batch, and it is the last one that joined. */
  lemma OneExecutionPerWindow(s: State, i: nat, j: nat)
    requires Reachable(s) && i < |s.h.submitted| && j < |s.h.submitted|
    requires |s.h.windowOf| == |s.h.submitted| && s.h.windowOf[i].Some? && s.h.windowOf[i] == s.h.windowOf[j]
    requires s.h.executed[i] > 0
    ensures j <= i && (s.h.executed[j] > 0 ==> i == j)
  {
    assert i < j ==> JoinedLater(s, i);
    assert j < i ==> JoinedLater(s, j);
    ExactlyOnePlace(s, i);
    ExactlyOnePlace(s, j);
  }

  /** No pending batch is stuck: once its window is over its callback can run,
      and running it executes that batch and nothing else. */
  lemma DueEntryFires(s: State, k: Key)
    requires Reachable(s) && !s.core.stopped && k in s.core.pending && s.core.pending[k].timer.due <= s.now
    ensures
      var e := s.core.pending[k];
      Enabled(s, Fire(e.timer)) &&
      var s' := Next(s, Fire(e.timer));
      k !in s'.core.pending && s.h.executed[e.batch.id] == 0 &&
      s'.h.executed == s.h.executed + multiset{e.batch.id} && e.batch.id in s'.running
  {
    OneCallbackPerPendingKey(s);
    ReachableInv(s);
    assert EntryOk(s, k, s.core.pending[k]);
    assert !HasFate(s, s.core.pending[k].batch.id, Executed);
  }

  /** Batches of one window share their key, and only the shutdown deadline
      can drop a batch that had joined a window. */
  lemma WindowFacts(s: State, i: nat, j: nat)
    requires Reachable(s) && i < |s.h.submitted| && j < |s.h.submitted|
    ensures |s.h.windowOf| == |s.h.submitted|
    ensures s.h.windowOf[i].Some? && s.h.windowOf[i] == s.h.windowOf[j] ==> s.h.submitted[i].key == s.h.submitted[j].key
    ensures s.h.windowOf[i].Some? && s.h.dropped[i] > 0 ==> s.expired
  {
    ReachableInv(s);
    assert s.h.dropped[i] > 0 ==> HasFate(s, i, Dropped);
  }

  /** While a key stays pending its deadline never moves. */
  lemma DeadlineNeverMoves(s: State, step: Step, k: Key)
    requires Reachable(s) && Enabled(s, step)
    requires k in s.core.pending && k in Next(s, step).core.pending
    ensures Next(s, step).core.pending[k].timer == s.core.pending[k].timer
  {
  }

  // The logs are what the run's steps did, and when.

  datatype Submission = Submission(batch: Batch, at: int)

  /** What one step submits at time `now`; an empty batch is nothing. */
  function Made(step: Step, now: int): seq<Submission> {
    if step.Submit? && step.b.actions != [] then [Submission(step.b, now)] else []
  }

  function Later(step: Step, now: int): int { if step.Tick? then now + step.d else now }

  /** The non-empty batches that the steps submit, with the clock starting at `now`. */
  function Submissions(steps: seq<Step>, now: int): seq<Submission> {
    if steps == [] then [] else Made(steps[0], now) + Submissions(steps[1..], Later(steps[0], now))
  }

  function Logged(h: History): seq<Submission>
    requires |h.submitted| == |h.times|
  {
    seq(|h.submitted|, i requires 0 <= i < |h.submitted| => Submission(h.submitted[i], h.times[i]))
  }

  lemma StepLogs(s: State, step: Step)
    requires |s.h.submitted| == |s.h.times| && Enabled(s, step)
    ensures var t := Next(s, step);
            && |t.h.submitted| == |t.h.times|
            && Logged(t.h) == Logged(s.h) + Made(step, s.now) && t.now == Later(step, s.now)
  {
    assert Logged(s.h) + [] == Logged(s.h);
  }

  lemma {:induction false} RunLogsSubmissions(s: State, steps: seq<Step>, t: State, logged: seq<Submission>)
    requires |s.h.submitted| == |s.h.times| && Logged(s.h) == logged && Runs(s, steps, t)
    ensures |t.h.submitted| == |t.h.times| && Logged(t.h) == logged + Submissions(steps, s.now)
    decreases |steps|
  {
    if steps == [] {
      assert logged + [] == logged;
    } else {
      var made := Made(steps[0], s.now);
      StepLogs(s, steps[0]);
      RunLogsSubmissions(Next(s, steps[0]), steps[1..], t, logged + made);
      var rest := Submissions(steps[1..], Later(steps[0], s.now));
      assert logged + made + rest == logged + (made + rest);
    }
  }

  /** Every run logs exactly the non-empty batches submitted in it, with the
      time on the clock when they were. */
  lemma LogIsSubmissions(start: int, steps: seq<Step>, s: State)
    requires Runs(Init(start), steps, s)
    ensures |s.h.submitted| == |s.h.times| && Logged(s.h) == Submissions(steps, start)
  {
    RunLogsSubmissions(Init(start), steps, s, []);
    assert [] + Submissions(steps, start) == Submissions(steps, start);
  }

  /** Batch `i` is the first that joined window `w`. */
  ghost predicate FirstOf(h: History, w: nat, i: nat) {
    i < |h.windowOf| && h.windowOf[i] == Some(w) && forall j :: 0 <= j < i ==> h.windowOf[j] != Some(w)
  }

  /** Every window has a first batch; it opened at that batch's submission and
      lasts for that batch's window. */
  lemma WindowIsItsFirstBatch(s: State, w: nat) returns (i: nat)
    requires Reachable(s) && w < |s.h.windows|
    ensures |s.h.windowOf| == |s.h.submitted| == |s.h.times| && FirstOf(s.h, w, i)
    ensures s.h.windows[w].length == s.h.submitted[i].window && s.h.windows[w].openedAt == s.h.times[i]
  {
    ReachableInv(s);
    assert OpenedBy(s.h, w);
    i := s.h.windows[w].opener;
  }

  lemma FirstIsOpener(s: State, w: nat, i: nat)
    requires Inv(s) && FirstOf(s.h, w, i)
    ensures w < |s.h.windows| && s.h.windows[w].opener == i && OpenedBy(s.h, w)
  {
    assert OpenedBy(s.h, w);
  }

  /** A pending key is due a window after its first batch was submitted, that
      batch's window, however often the batch has been replaced. */
  lemma PendingIsDue(s: State, k: Key, i: nat)
    requires Reachable(s) && k in s.core.pending
    requires FirstOf(s.h, s.core.pending[k].timer.id, i)
    ensures i < |s.h.submitted| == |s.h.times| && s.h.submitted[i].key == k
    ensures s.core.pending[k].timer.due == s.h.times[i] + s.h.submitted[i].window
  {
    ReachableInv(s);
    FirstIsOpener(s, s.core.pending[k].timer.id, i);
    assert EntryOk(s, k, s.core.pending[k]);
  }

  /** No window is closed before its first batch has been held for its window. */
  lemma ClaimsWaitTheWindow(s: State, c: nat, i: nat)
    requires Reachable(s) && c < |s.h.claims| && FirstOf(s.h, s.h.claims[c].window, i)
    ensures i < |s.h.submitted| == |s.h.times| && s.h.submitted[i].key == s.h.claims[c].key
    ensures s.h.claims[c].at >= s.h.times[i] + s.h.submitted[i].window
  {
    ReachableInv(s);
    FirstIsOpener(s, s.h.claims[c].window, i);
    assert ClaimOk(s.h.windows, s.h.claims[c], s.now);
  }

  /** Two window-close claims of one key are at least the window of the second
      one's first batch apart. */
  lemma ClaimSpacing(s: State, i: nat, j: nat, first: nat)
    requires Reachable(s) && i < j < |s.h.claims| && s.h.claims[i].key == s.h.claims[j].key
    requires FirstOf(s.h, s.h.claims[j].window, first)
    ensures first < |s.h.submitted|
    ensures s.h.claims[j].at - s.h.claims[i].at >= s.h.submitted[first].window
  {
    ReachableInv(s);
    FirstIsOpener(s, s.h.claims[j].window, first);
    assert ClaimOk(s.h.windows, s.h.claims[j], s.now);
  }

  /** The flush never runs more than eight executions at once. */
  lemma AtMostEightFlushing(s: State)
    requires Reachable(s)
    ensures |s.flushing| <= 8
  {
    ReachableInv(s);
  }

  /** When the first Stop has returned nothing is pending, waiting or in
      flight, and every batch was replaced, executed once or dropped once. */
  lemma ReturnedMeansDone(s: State)
    requires Reachable(s) && s.phase == Returned
    ensures s.core.pending == map[] && s.queue == s.admitted == s.running == s.flushing == {}
    ensures forall id: nat :: id < |s.h.submitted| ==>
        |s.h.windowOf| == |s.h.submitted| &&
        Count(JoinedLater(s, id)) + s.h.executed[id] + s.h.dropped[id] == 1
  {
    ReachableInv(s);
    forall id: nat | id < |s.h.submitted|
      ensures |s.h.windowOf| == |s.h.submitted| && Count(JoinedLater(s, id)) + s.h.executed[id] + s.h.dropped[id] == 1
    {
      ExactlyOnePlace(s, id);
    }
  }

  /** What the flush still has to do. */
  function WorkLeft(s: State): nat { 3 * |s.queue| + 2 * |s.admitted| + |s.flushing| + |s.running| }

  /** While Stop is flushing, some step of its own or of a running execution can
      be taken, and it returns or leaves less to do. */
  lemma StopAdvances(s: State) returns (step: Step)
    requires WorkOk(s) && s.phase == Flushing
    ensures Enabled(s, step)
    ensures step == StopReturn ||
            (Next(s, step).phase == Flushing && WorkLeft(Next(s, step)) < WorkLeft(s))
  {
    if s.running != {} {
      var id :| id in s.running;
      step := ExecDone(id);
    } else if s.flushing != {} {
      var id :| id in s.flushing;
      step := FlushDone(id);
    } else if s.admitted != {} {
      var id :| id in s.admitted;
      step := FlushAcquire(id);
    } else if s.queue != {} {
      var id :| id in s.queue;
      step := FlushCheck(id);
    } else {
      step := StopReturn;
    }
  }

  /** Stop can always finish: from every reachable flushing state, if running
      executions end, it returns. */
  lemma {:induction false} StopReturns(s: State) returns (steps: seq<Step>, t: State)
    requires Inv(s) && s.phase == Flushing
    ensures Runs(s, steps, t) && t.phase == Returned
    decreases WorkLeft(s)
  {
    var step := StopAdvances(s);
    StepKeepsInv(s, step);
    if step == StopReturn {
      steps, t := [step], Next(s, step);
      assert Runs(t, steps[1..], t);
    } else {
      var rest;
      rest, t := StopReturns(Next(s, step));
      steps := [step] + rest;
      assert steps[1..] == rest;
    }
  }

  lemma ReturnedIsFinal(s: State, step: Step)
    requires Inv(s) && s.phase == Returned && Enabled(s, step)
    ensures Next(s, step).phase == Returned && Next(s, step).h.executed == s.h.executed
  {
  }

  /** No step after that executes anything, however long the run goes on. */
  lemma {:induction false} NothingExecutesAfterReturn(s: State, steps: seq<Step>, t: State)
    requires Reachable(s) && s.phase == Returned && Runs(s, steps, t)
    ensures t.h.executed == s.h.executed && t.running == t.flushing == {}
    decreases |steps|
  {
    ReachableInv(s);
    RunKeepsInv(s, steps, t);
    ReturnedRun(s, steps, t);
  }

  lemma {:induction false} ReturnedRun(s: State, steps: seq<Step>, t: State)
    requires Inv(s) && s.phase == Returned && Runs(s, steps, t)
    ensures t.phase == Returned && t.h.executed == s.h.executed
    decreases |steps|
  {
    if steps != [] {
      ReturnedIsFinal(s, steps[0]);
      StepKeepsInv(s, steps[0]);
      ReturnedRun(Next(s, steps[0]), steps[1..], t);
    }
  }
}
