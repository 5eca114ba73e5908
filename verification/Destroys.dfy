/**
 * `destroy` checks its core, lets go of the core but not of the table, and then takes the core out of the
 * table: what can happen in between.
 */
module Destroys {
  import opened Wrappers
  import opened Bytes
  import opened Cores
  import opened Steps
  import opened LeaseProofs
  import opened Interleavings
  import opened Instants

  /** The thread has looked core `h` up, and its next section needs only the core. */
  predicate PastLookUp(s: State, t: ThreadId, h: Handle) {
    var pc := ThreadOf(s, t).pc;
    && pc.Busy? && !pc.call.Create? && !pc.call.Destroy? && pc.call.core == h
    && (pc.at == Section1 || pc.at == Transition || pc.at == Removal)
  }

  lemma OtherCoresStay(sha: Hash, s: State, t: ThreadId, call: Call, h: Handle)
    requires HandlesInOrder(s) && h in s.objects && (call.Create? || call.Destroy? || call.core != h)
    ensures h in Section(sha, s, t, call).objects && Section(sha, s, t, call).objects[h] == s.objects[h]
  {
    hide BatchOutcome, Revision, SetEpochOn, RegisterOn, AcquireCheck, SubmitCheck, DiscardOn;
  }

  lemma OtherCoresStayInTransition(s: State, t: ThreadId, call: Call, h: Handle)
    requires Transitions(call) && h in s.objects && call.core != h
    ensures h in LeaseTransition(s, t, call).objects && LeaseTransition(s, t, call).objects[h] == s.objects[h]
  {
    hide TransitionOn;
  }

  /** A thread that still has to look a core up leaves it as it is. */
  lemma OthersLeaveTheCore(sha: Hash, s: State, a: Action, h: Handle)
    requires HandlesInOrder(s) && h in s.objects && !PastLookUp(s, a.thread, h)
    ensures h in Next(sha, s, a).objects && Next(sha, s, a).objects[h] == s.objects[h]
  {
    hide Section, LeaseTransition, Refused;
    var pc := ThreadOf(s, a.thread).pc;
    if a.Continue? && pc.Busy? && WellPlaced(pc) && !Waits(s, pc) {
      match pc.at
      case Section1 => OtherCoresStay(sha, s, a.thread, pc.call, h);
      case Transition => OtherCoresStayInTransition(s, a.thread, pc.call, h);
      case _ =>
    }
  }

  /** While the table is kept, nobody gets past a look-up. */
  lemma NobodyGetsPast(sha: Hash, s: State, a: Action, t: ThreadId, h: Handle)
    requires s.holder.Some? && PastLookUp(Next(sha, s, a), t, h)
    ensures ThreadOf(Next(sha, s, a), t).pc == ThreadOf(s, t).pc
  {
    if t != a.thread {
      hide Next;
      OthersStay(sha, s, a, t);
    } else {
      MoverGetsNotPast(sha, s, a, h);
    }
  }

  lemma MoverGetsNotPast(sha: Hash, s: State, a: Action, h: Handle)
    requires s.holder.Some? && PastLookUp(Next(sha, s, a), a.thread, h)
    ensures ThreadOf(Next(sha, s, a), a.thread).pc == ThreadOf(s, a.thread).pc
  {
    hide Section, LeaseTransition, Refused;
    var pc := ThreadOf(s, a.thread).pc;
    if pc.Busy? {
      SectionEnds(sha, s, a.thread, pc.call);
      if Transitions(pc.call) {
        TransitionEnds(s, a.thread, pc.call);
      }
    }
  }

  // The check, and what has been registered since.

  predicate Unlists(s: State, u: ThreadId, h: Handle) {
    ThreadOf(s, u).pc == Busy(Destroy(h), Unlist)
  }

  /** At action `m` the `destroy` of `u` passed its check, and `u` has kept the table since. */
  ghost predicate CheckedSince(sha: Hash, actions: seq<Action>, u: ThreadId, h: Handle, m: nat) {
    && m < |actions| && actions[m] == Continue(u)
    && ThreadOf(After(sha, actions[..m]), u).pc == Busy(Destroy(h), Section1)
    && forall k :: m < k <= |actions| ==> Unlists(After(sha, actions[..k]), u, h)
  }

  /** The core as its owner found it: in the table, without leases. */
  predicate FoundEmpty(s: State, u: ThreadId, h: Handle) {
    && s.holder.None? && h in s.table && h in s.objects
    && s.objects[h].owner == u && s.objects[h].leases == map[]
  }

  /** In the trace since `s0`, `e` happened on `h` at position `i`. */
  predicate Since(s0: State, s: State, h: Handle, i: int) {
    |s0.trace| <= i < |s.trace| && s.trace[i].core == h
  }

  predicate AtRegister(s: State, t: ThreadId) {
    var pc := ThreadOf(s, t).pc;
    pc.Busy? && pc.at == Section1 && pc.call.Register?
  }

  /** `t` was past its look-up in a `register` on `h`. */
  predicate WasRegistering(s: State, t: ThreadId, h: Handle) {
    AtRegister(s, t) && ThreadOf(s, t).pc.call.core == h
  }

  /** Whoever is past a look-up of `h` has not moved since the check. */
  ghost predicate NobodyNew(s0: State, s: State, h: Handle) {
    forall t: ThreadId :: PastLookUp(s, t, h) ==> ThreadOf(s, t).pc == ThreadOf(s0, t).pc
  }

  /** A lease of `h` was registered since the check, by a thread that has returned from that `register`. */
  ghost predicate CameSince(s0: State, s: State, h: Handle, id: nat)
    requires HasTheLease(s, h, id)
  {
    var t := s.objects[h].leases[id].owner;
    && WasRegistering(s0, t, h) && !PastLookUp(s, t, h)
    && exists i :: Since(s0, s, h, i) && s.trace[i] == Event(t, RegisterOp, h, id)
  }

  /** What happened on `h` since the check is a registration of a lease that is still there. */
  predicate StillThere(s0: State, s: State, h: Handle, i: nat)
    requires i < |s.trace|
  {
    var e := s.trace[i];
    e.op == RegisterOp && WasRegistering(s0, e.thread, h) && HasTheLease(s, h, e.lease)
  }

  ghost predicate OnlyRegistered(s0: State, s: State, h: Handle) {
    && s0.trace <= s.trace
    && (forall id | HasTheLease(s, h, id) :: CameSince(s0, s, h, id))
    && (forall i | Since(s0, s, h, i) :: StillThere(s0, s, h, i))
  }

  predicate AtMostOneMore(trace: seq<Event>, longer: seq<Event>) {
    longer == trace || (|longer| == |trace| + 1 && longer == trace + [longer[|trace|]])
  }

  lemma SectionTraceGrows(sha: Hash, s: State, t: ThreadId, call: Call)
    ensures AtMostOneMore(s.trace, Section(sha, s, t, call).trace)
  {
    hide RegisterOn, DiscardOn;
    if !call.Register? && !call.Discard? {
      hide Section;
      QuietSection(sha, s, t, call);
    }
  }

  lemma TransitionTraceGrows(s: State, t: ThreadId, call: Call)
    requires Transitions(call)
    ensures AtMostOneMore(s.trace, LeaseTransition(s, t, call).trace)
  {
    hide TransitionOn;
  }

  /** A step adds at most one event to the trace. */
  lemma TraceGrows(sha: Hash, s: State, a: Action)
    ensures AtMostOneMore(s.trace, Next(sha, s, a).trace)
  {
    hide Section, LeaseTransition, Refused, AtMostOneMore;
    var pc := ThreadOf(s, a.thread).pc;
    assert AtMostOneMore(s.trace, s.trace) by { NoneMore(s.trace); }
    if pc.Busy? {
      SectionTraceGrows(sha, s, a.thread, pc.call);
      if Transitions(pc.call) {
        TransitionTraceGrows(s, a.thread, pc.call);
      }
    }
  }

  lemma NoneMore(trace: seq<Event>)
    ensures AtMostOneMore(trace, trace)
  {
  }

  lemma PerformerIsPast(s: State, e: Event)
    requires Performs(s, e)
    ensures PastLookUp(s, e.thread, e.core)
    ensures e.op != RegisterOp ==>
      HasTheLease(s, e.core, e.lease) && s.objects[e.core].leases[e.lease].owner == e.thread
  {
    hide RegisterOn;
  }

  /** The step is of a thread that still has to look `h` up. */
  lemma OutsiderKeepsLeases(sha: Hash, s0: State, s: State, a: Action, h: Handle)
    requires HandlesInOrder(s) && s.holder.Some? && h in s.objects
    requires OnlyRegistered(s0, s, h) && !PastLookUp(s, a.thread, h)
    ensures OnlyRegistered(s0, Next(sha, s, a), h)
  {
    var s' := Next(sha, s, a);
    OthersLeaveTheCore(sha, s, a, h);
    TraceGrows(sha, s, a);
    if s'.trace != s.trace {
      RecordedIsPerformed(sha, s, a, s'.trace[|s.trace|]);
      PerformerIsPast(s, s'.trace[|s.trace|]);
    }
    hide Next, PastLookUp, Performs;
    forall id | HasTheLease(s', h, id) ensures CameSince(s0, s', h, id) {
      assert CameSince(s0, s, h, id);
      var t := s.objects[h].leases[id].owner;
      var i :| Since(s0, s, h, i) && s.trace[i] == Event(t, RegisterOp, h, id);
      assert Since(s0, s', h, i) && s'.trace[i] == s.trace[i];
      if PastLookUp(s', t, h) {
        NobodyGetsPast(sha, s, a, t, h);
        PastReads(s, s', t, h);
      }
    }
    forall i | Since(s0, s', h, i) ensures StillThere(s0, s', h, i) {
      assert i < |s.trace|;
      assert s'.trace[i] == s.trace[i];
      assert StillThere(s0, s, h, i);
    }
  }

  lemma PastReads(s: State, s': State, t: ThreadId, h: Handle)
    requires ThreadOf(s', t).pc == ThreadOf(s, t).pc
    ensures PastLookUp(s', t, h) == PastLookUp(s, t, h)
  {
  }

  /** The step is of a thread that was past its look-up at the check: it owns no lease of `h`. */
  lemma InsiderKeepsLeases(sha: Hash, s0: State, s: State, a: Action, h: Handle)
    requires Inv(s) && LockInOrder(s) && s.holder.Some? && h in s.objects
    requires OnlyRegistered(s0, s, h) && NobodyNew(s0, s, h) && PastLookUp(s, a.thread, h)
    ensures OnlyRegistered(s0, Next(sha, s, a), h)
  {
    var s' := Next(sha, s, a);
    InOrderHandles(s);
    OwnersAreKept(sha, s, a, h);
    TraceGrows(sha, s, a);
    var n := |s.trace|;
    if s'.trace != s.trace {
      RecordedIsPerformed(sha, s, a, s'.trace[n]);
      PerformerIsPast(s, s'.trace[n]);
    }
    hide Next, PastLookUp, Inv, LockInOrder;
    forall id | HasTheLease(s, h, id)
      ensures HasTheLease(s', h, id) && s'.objects[h].leases[id] == s.objects[h].leases[id]
    {
      assert CameSince(s0, s, h, id);
      OnlyTheOwnerMovesALease(sha, s, a, h, id);
    }
    forall id | HasTheLease(s', h, id) ensures CameSince(s0, s', h, id) {
      if HasTheLease(s, h, id) {
        assert CameSince(s0, s, h, id);
        var t := s.objects[h].leases[id].owner;
        var i :| Since(s0, s, h, i) && s.trace[i] == Event(t, RegisterOp, h, id);
        assert Since(s0, s', h, i) && s'.trace[i] == s.trace[i];
        if PastLookUp(s', t, h) {
          NobodyGetsPast(sha, s, a, t, h);
          PastReads(s, s', t, h);
        }
      } else {
        NewLeaseIsRecorded(sha, s, a, h, id);
        assert Since(s0, s', h, n);
        assert ThreadOf(s, a.thread).pc == ThreadOf(s0, a.thread).pc;
      }
    }
    forall i | Since(s0, s', h, i) ensures StillThere(s0, s', h, i) {
      if i < n {
        assert s'.trace[i] == s.trace[i];
        assert StillThere(s0, s, h, i);
      } else {
        RegisteredNow(sha, s0, s, a, h);
      }
    }
  }

  /** The lease that a step adds is one that its own `register` records, and ends with. */
  lemma NewLeaseIsRecorded(sha: Hash, s: State, a: Action, h: Handle, id: nat)
    requires Inv(s) && HasTheLease(Next(sha, s, a), h, id) && !HasTheLease(s, h, id)
    ensures
      var s' := Next(sha, s, a);
      && s'.trace == s.trace + [Event(a.thread, RegisterOp, h, id)]
      && s'.objects[h].leases[id].owner == a.thread && ThreadOf(s', a.thread).pc == Idle
      && a == Continue(a.thread) && WasRegistering(s, a.thread, h)
  {
    var s' := Next(sha, s, a);
    InOrderHandles(s);
    LeasesComeFrom(sha, s, a, h, id);
    FreshLeaseEndsItsCall(sha, s, a);
    hide Inv;
    HandleIsRegistered(sha, s, a, h, id);
  }

  lemma HandleIsRegistered(sha: Hash, s: State, a: Action, h: Handle, id: nat)
    requires HandlesInOrder(s) && h in s.objects
    requires HasTheLease(Next(sha, s, a), h, id) && !HasTheLease(s, h, id)
    ensures a == Continue(a.thread) && WasRegistering(s, a.thread, h)
    ensures Next(sha, s, a).trace == s.trace + [Event(a.thread, RegisterOp, h, id)]
  {
    hide Section, LeaseTransition, Refused;
    var pc := ThreadOf(s, a.thread).pc;
    if a.Continue? && pc.Busy? && WellPlaced(pc) && !Waits(s, pc) {
      if pc.at == Section1 {
        SectionRegisters(sha, s, a.thread, pc.call, h, id);
      } else if pc.at == Transition {
        TransitionComesFrom(s, a.thread, pc.call, h, id);
        TransitionAddsNone(s, a.thread, pc.call, h, id);
      }
    }
  }

  lemma TransitionAddsNone(s: State, t: ThreadId, call: Call, h: Handle, id: nat)
    requires Transitions(call) && HasTheLease(LeaseTransition(s, t, call), h, id)
    ensures HasTheLease(s, h, id)
  {
  }

  lemma SectionRegisters(sha: Hash, s: State, t: ThreadId, call: Call, h: Handle, id: nat)
    requires HandlesInOrder(s) && h in s.objects
    requires HasTheLease(Section(sha, s, t, call), h, id) && !HasTheLease(s, h, id)
    ensures call.Register? && call.core == h
    ensures Section(sha, s, t, call).trace == s.trace + [Event(t, RegisterOp, h, id)]
  {
    hide BatchOutcome, Revision;
    if call.SubmitBatch? && call.core in s.objects {
      var c := s.objects[call.core];
      if BatchOutcome(sha, c, t, call.batch, call.expected, call.epoch).Ok? {
        BatchKeepsLeases(sha, c, t, call.batch, call.expected, call.epoch);
      }
    }
  }

  /** What a thread past its look-up records on `h` is a registration, since it owns no lease there. */
  lemma RegisteredNow(sha: Hash, s0: State, s: State, a: Action, h: Handle)
    requires Inv(s) && OnlyRegistered(s0, s, h) && NobodyNew(s0, s, h) && PastLookUp(s, a.thread, h)
    requires
      var s', n := Next(sha, s, a), |s.trace|;
      |s'.trace| == n + 1 && s'.trace == s.trace + [s'.trace[n]] && s'.trace[n].core == h
    ensures StillThere(s0, Next(sha, s, a), h, |s.trace|)
  {
    var e := Next(sha, s, a).trace[|s.trace|];
    assert forall id | HasTheLease(s, h, id) :: !PastLookUp(s, s.objects[h].leases[id].owner, h) by {
      assert forall id | HasTheLease(s, h, id) :: CameSince(s0, s, h, id);
    }
    RecordedIsPerformed(sha, s, a, e);
    PerformerIsPast(s, e);
    assert ThreadOf(s, a.thread).pc == ThreadOf(s0, a.thread).pc;
    hide Inv, Section, Performs;
    RegisterIsStored(sha, s, a, e);
  }

  lemma RegisterIsStored(sha: Hash, s: State, a: Action, e: Event)
    requires e.op == RegisterOp && Next(sha, s, a).trace == s.trace + [e]
    ensures WasRegistering(s, e.thread, e.core) && HasTheLease(Next(sha, s, a), e.core, e.lease)
  {
    RecordedIsPerformed(sha, s, a, e);
    var call := ThreadOf(s, e.thread).pc.call;
    hide CoreSection;
    RegisterSection(sha, s, e.thread, call, s.objects[e.core]);
    assert (s.trace + [e])[|s.trace|] == e;
  }

  lemma StepKeepsRegistered(sha: Hash, s0: State, s: State, a: Action, u: ThreadId, h: Handle)
    requires Inv(s) && LockInOrder(s) && Unlists(s, u, h)
    requires OnlyRegistered(s0, s, h) && NobodyNew(s0, s, h)
    ensures OnlyRegistered(s0, Next(sha, s, a), h) && NobodyNew(s0, Next(sha, s, a), h)
  {
    assert AtUnlist(s, u);
    assert Unlisting(s, u);
    InOrderHandles(s);
    hide Next, Inv, LockInOrder, OnlyRegistered, QuietCore, PastLookUp;
    var s' := Next(sha, s, a);
    if PastLookUp(s, a.thread, h) {
      InsiderKeepsLeases(sha, s0, s, a, h);
    } else {
      OutsiderKeepsLeases(sha, s0, s, a, h);
    }
    forall t: ThreadId | PastLookUp(s', t, h) ensures ThreadOf(s', t).pc == ThreadOf(s0, t).pc {
      NobodyGetsPast(sha, s, a, t, h);
      PastReads(s, s', t, h);
    }
  }

  lemma CheckPassed(sha: Hash, actions: seq<Action>, a: Action, u: ThreadId)
    requires AtUnlist(After(sha, actions + [a]), u) && !AtUnlist(After(sha, actions), u)
    ensures
      var s := After(sha, actions);
      var pc := ThreadOf(After(sha, actions + [a]), u).pc;
      && a == Continue(u) && pc.call.Destroy?
      && ThreadOf(s, u).pc == Busy(pc.call, Section1) && FoundEmpty(s, u, pc.call.core)
  {
    hide After, Next, LockInOrder, Inv;
    var s := After(sha, actions);
    EveryInterleavingIsInOrder(sha, actions);
    AfterMore(sha, actions, a);
    if a.thread != u {
      OthersStay(sha, s, a, u);
    } else {
      if !a.Continue? {
        StartsElsewhere(sha, s, a);
      }
      CheckedCoreIsQuiet(sha, s, u);
    }
  }

  lemma UnlistGoesOn(sha: Hash, actions: seq<Action>, a: Action, u: ThreadId)
    requires AtUnlist(After(sha, actions + [a]), u) && AtUnlist(After(sha, actions), u)
    ensures ThreadOf(After(sha, actions + [a]), u).pc == ThreadOf(After(sha, actions), u).pc && a != Continue(u)
  {
    hide After, Next, LockInOrder, Inv, QuietCore;
    var s := After(sha, actions);
    EveryInterleavingIsInOrder(sha, actions);
    AfterMore(sha, actions, a);
    UnlistingIsDestroy(s, u);
    TableIsKept(sha, s, a);
    if a.thread != u {
      OthersStay(sha, s, a, u);
    } else {
      UnlistWaitsForItself(sha, s, a);
    }
  }

  lemma UnlistingIsDestroy(s: State, u: ThreadId)
    requires LockInOrder(s) && AtUnlist(s, u)
    ensures
      var call := ThreadOf(s, u).pc.call;
      && call.Destroy? && s.holder == Some(u) && call.core in s.table && call.core in s.objects
      && s.objects[call.core].owner == u && Unlists(s, u, call.core)
  {
    hide QuietCore;
    assert Unlisting(s, u);
  }

  /** Every thread that stands between the sections of `destroy` found its core empty, in that very call. */
  lemma {:induction false} DestroyWasChecked(sha: Hash, actions: seq<Action>, u: ThreadId) returns (m: nat)
    requires AtUnlist(After(sha, actions), u)
    ensures ThreadOf(After(sha, actions), u).pc.call.Destroy?
    ensures
      var h := ThreadOf(After(sha, actions), u).pc.call.core;
      CheckedSince(sha, actions, u, h, m) && FoundEmpty(After(sha, actions[..m]), u, h)
    decreases |actions|
  {
    hide Next, LockInOrder, Inv;
    var front, a := actions[..|actions| - 1], actions[|actions| - 1];
    assert actions == front + [a];
    EveryInterleavingIsInOrder(sha, actions);
    UnlistingIsDestroy(After(sha, actions), u);
    assert actions[..|actions|] == actions;
    if AtUnlist(After(sha, front), u) {
      UnlistGoesOn(sha, front, a, u);
      m := DestroyWasChecked(sha, front, u);
      var h := ThreadOf(After(sha, actions), u).pc.call.core;
      assert front[..m] == actions[..m];
      forall k | m < k <= |actions| ensures Unlists(After(sha, actions[..k]), u, h) {
        assert k < |actions| ==> actions[..k] == front[..k];
      }
    } else {
      CheckPassed(sha, front, a, u);
      m := |front|;
    }
  }

  lemma CheckChangesNothing(sha: Hash, s: State, u: ThreadId, h: Handle)
    requires FoundEmpty(s, u, h) && ThreadOf(s, u).pc == Busy(Destroy(h), Section1)
    ensures
      var s' := Next(sha, s, Continue(u));
      s' == Goto(s, u, Destroy(h), Unlist).(holder := Some(u))
  {
  }

  lemma NothingYet(sha: Hash, s: State, u: ThreadId, h: Handle)
    requires FoundEmpty(s, u, h) && ThreadOf(s, u).pc == Busy(Destroy(h), Section1)
    ensures
      var s' := Next(sha, s, Continue(u));
      OnlyRegistered(s, s', h) && NobodyNew(s, s', h)
  {
    CheckChangesNothing(sha, s, u, h);
    var s' := Next(sha, s, Continue(u));
    hide Next;
    forall t: ThreadId | PastLookUp(s', t, h) ensures ThreadOf(s', t).pc == ThreadOf(s, t).pc {
      assert t != u;
    }
  }

  lemma {:induction false} RegisteredSinceCheck(sha: Hash, actions: seq<Action>, u: ThreadId, h: Handle, m: nat)
    requires CheckedSince(sha, actions, u, h, m) && FoundEmpty(After(sha, actions[..m]), u, h)
    ensures OnlyRegistered(After(sha, actions[..m]), After(sha, actions), h)
    ensures NobodyNew(After(sha, actions[..m]), After(sha, actions), h)
    decreases |actions|
  {
    hide Next, LockInOrder, Inv, OnlyRegistered, NobodyNew, After;
    var front, a := actions[..|actions| - 1], actions[|actions| - 1];
    assert actions == front + [a];
    AfterMore(sha, front, a);
    if m == |front| {
      NothingYet(sha, After(sha, front), u, h);
    } else {
      assert front[..m] == actions[..m];
      forall k | m < k <= |front| ensures Unlists(After(sha, front[..k]), u, h) {
        assert actions[..k] == front[..k];
      }
      RegisteredSinceCheck(sha, front, u, h, m);
      EveryInterleavingIsInOrder(sha, front);
      assert front[..|front|] == front;
      StepKeepsRegistered(sha, After(sha, actions[..m]), After(sha, front), a, u, h);
    }
  }

  /** In the trace since `s0`, lease `id` of `h` was registered. */
  ghost predicate WasRegistered(s0: State, s: State, h: Handle, id: nat) {
    exists i :: Since(s0, s, h, i) && s.trace[i].lease == id
  }

  /**
   * A core leaves the table only in the second section of its owner's `destroy`, whose first section found the
   * core without leases. The leases it holds when it leaves are exactly those registered in between, all by
   * other threads that were already past their look-up.
   */
  lemma CoreLeavesAfterItsCheck(sha: Hash, actions: seq<Action>, a: Action, h: Handle) returns (u: ThreadId, m: nat)
    requires h in After(sha, actions).table && h !in After(sha, actions + [a]).table
    ensures a == Continue(u) && CheckedSince(sha, actions, u, h, m)
    ensures FoundEmpty(After(sha, actions[..m]), u, h)
    ensures
      var s0, s := After(sha, actions[..m]), After(sha, actions);
      && (forall id :: HasTheLease(s, h, id) <==> WasRegistered(s0, s, h, id))
      && (forall i | Since(s0, s, h, i) ::
            s.trace[i].op == RegisterOp && s.trace[i].thread != u && WasRegistering(s0, s.trace[i].thread, h))
  {
    hide After, Next, QuietCore;
    CoreLeavesByItsOwner(sha, actions, a, h);
    u := a.thread;
    m := DestroyWasChecked(sha, actions, u);
    RegisteredSinceCheck(sha, actions, u, h, m);
    var s0, s := After(sha, actions[..m]), After(sha, actions);
    forall id ensures HasTheLease(s, h, id) <==> WasRegistered(s0, s, h, id) {
      if HasTheLease(s, h, id) {
        assert CameSince(s0, s, h, id);
      }
      if WasRegistered(s0, s, h, id) {
        var i :| Since(s0, s, h, i) && s.trace[i].lease == id;
        assert StillThere(s0, s, h, i);
      }
    }
    forall i | Since(s0, s, h, i)
      ensures s.trace[i].op == RegisterOp && s.trace[i].thread != u && WasRegistering(s0, s.trace[i].thread, h)
    {
      assert StillThere(s0, s, h, i);
    }
  }

  // When a core can leave with a lease.

  /** `t` stands before the core section of a `register` that the core would accept. */
  predicate WouldRegister(s: State, t: ThreadId, h: Handle) {
    var pc := ThreadOf(s, t).pc;
    && AtRegister(s, t) && pc.call.core == h && h in s.objects
    && pc.call.metadata.epoch == s.objects[h].epoch && pc.call.metadata.revision == Revision(s.objects[h])
  }

  /** The core section of `register` on a core with the lease's epoch and revision. */
  lemma RegisterEnds(sha: Hash, s: State, t: ThreadId, h: Handle)
    requires WouldRegister(s, t, h)
    ensures
      var s', c := Next(sha, s, Continue(t)), s.objects[h];
      var metadata := ThreadOf(s, t).pc.call.metadata;
      var lease := Lease(metadata.(leaseId := s.next, state := Registered), Registered, t);
      && h in s'.objects && s'.objects[h] == c.(leases := c.leases[s.next := lease])
      && s'.table == s.table && s'.holder == s.holder && s'.next == s.next + 1
      && s'.trace == s.trace + [Event(t, RegisterOp, h, s.next)]
      && ThreadOf(s', t) == Thread(Idle, ThreadOf(s, t).inCallback, Some(Success))
  {
    hide Revision;
  }

  ghost predicate SomeoneWouldRegister(s: State, h: Handle) {
    exists t: ThreadId :: WouldRegister(s, t, h)
  }

  /** `more` are steps of other threads, after which the `destroy` of `u` takes `h` out with a lease in it. */
  ghost predicate LeavesWithALease(sha: Hash, actions: seq<Action>, more: seq<Action>, u: ThreadId, h: Handle) {
    && (forall i :: 0 <= i < |more| ==> more[i].thread != u)
    && h in After(sha, actions + more).objects && After(sha, actions + more).objects[h].leases != map[]
  }

  lemma NewlyRegistering(sha: Hash, s: State, a: Action, u: ThreadId, h: Handle)
    requires Inv(s) && LockInOrder(s) && Unlists(s, u, h) && a.thread != u
    requires SomeoneWouldRegister(Next(sha, s, a), h)
    ensures SomeoneWouldRegister(s, h)
  {
    assert AtUnlist(s, u);
    UnlistingIsDestroy(s, u);
    InOrderHandles(s);
    var s' := Next(sha, s, a);
    OnlyTheOwnerMovesOn(sha, s, a, h);
    hide Next, Inv, LockInOrder, Revision;
    var t: ThreadId :| WouldRegister(s', t, h);
    NobodyGetsPast(sha, s, a, t, h);
    SameLog(s.objects[h], s'.objects[h]);
    assert WouldRegister(s, t, h);
  }

  lemma SameLog(c: Core, c': Core)
    requires c.history == c'.history
    ensures Revision(c) == Revision(c')
  {
  }

  /** No lease comes to a core while no thread would register one. */
  lemma {:induction false} StaysEmpty(
      sha: Hash, actions: seq<Action>, more: seq<Action>, u: ThreadId, h: Handle)
    requires Unlists(After(sha, actions), u, h) && h in After(sha, actions).objects
    requires After(sha, actions).objects[h].leases == map[] && !SomeoneWouldRegister(After(sha, actions), h)
    requires forall i :: 0 <= i < |more| ==> more[i].thread != u
    ensures
      var s' := After(sha, actions + more);
      && Unlists(s', u, h) && h in s'.objects && s'.objects[h].leases == map[]
      && !SomeoneWouldRegister(s', h)
    decreases |more|
  {
    hide After, Next, Inv, LockInOrder, WouldRegister;
    if more == [] {
      assert actions + more == actions;
    } else {
      var front, last := more[..|more| - 1], more[|more| - 1];
      StaysEmpty(sha, actions, front, u, h);
      var s := After(sha, actions + front);
      EveryInterleavingIsInOrder(sha, actions + front);
      InOrderHandles(s);
      AfterMore(sha, actions + front, last);
      assert actions + more == actions + front + [last];
      OthersStay(sha, s, last, u);
      OwnersAreKept(sha, s, last, h);
      var s' := Next(sha, s, last);
      forall id ensures id !in s'.objects[h].leases {
        if HasTheLease(s', h, id) {
          NewLeaseIsRecorded(sha, s, last, h, id);
          NewLeaseWouldRegister(sha, s, last, h, id);
        }
      }
      assert s'.objects[h].leases == map[];
      if SomeoneWouldRegister(s', h) {
        NewlyRegistering(sha, s, last, u, h);
      }
    }
  }

  lemma NewLeaseWouldRegister(sha: Hash, s: State, a: Action, h: Handle, id: nat)
    requires Next(sha, s, a).trace == s.trace + [Event(a.thread, RegisterOp, h, id)]
    ensures SomeoneWouldRegister(s, h)
  {
    hide Revision;
    RecordedIsPerformed(sha, s, a, Event(a.thread, RegisterOp, h, id));
    assert WouldRegister(s, a.thread, h);
  }

  /**
   * Between the sections of a `destroy`, the core can still come to leave with a lease exactly if it has one
   * already or some thread stands at a `register` that the core would accept.
   */
  lemma LeavesWithALeaseExactly(sha: Hash, actions: seq<Action>, u: ThreadId, h: Handle)
    requires Unlists(After(sha, actions), u, h)
    ensures h in After(sha, actions).objects
    ensures (exists more :: LeavesWithALease(sha, actions, more, u, h))
      <==> After(sha, actions).objects[h].leases != map[] || SomeoneWouldRegister(After(sha, actions), h)
  {
    hide After, Next, Inv, LockInOrder, WouldRegister;
    var s := After(sha, actions);
    EveryInterleavingIsInOrder(sha, actions);
    assert AtUnlist(s, u);
    UnlistingIsDestroy(s, u);
    if s.objects[h].leases != map[] {
      assert actions + [] == actions;
      assert LeavesWithALease(sha, actions, [], u, h);
    } else if SomeoneWouldRegister(s, h) {
      var t: ThreadId :| WouldRegister(s, t, h);
      RegisterEnds(sha, s, t, h);
      AfterMore(sha, actions, Continue(t));
      WouldRegisterIsNotUnlisting(s, t, u, h);
      assert s.next in After(sha, actions + [Continue(t)]).objects[h].leases;
      assert LeavesWithALease(sha, actions, [Continue(t)], u, h);
    } else {
      forall more ensures !LeavesWithALease(sha, actions, more, u, h) {
        if LeavesWithALease(sha, actions, more, u, h) {
          StaysEmpty(sha, actions, more, u, h);
        }
      }
    }
  }

  lemma WouldRegisterIsNotUnlisting(s: State, t: ThreadId, u: ThreadId, h: Handle)
    requires WouldRegister(s, t, h) && Unlists(s, u, h)
    ensures t != u
  {
  }
}
