/** What a call with several lock sections may rely on between them. */
module Instants {
  import opened Bytes
  import opened Cores
  import opened Steps
  import opened LeaseProofs
  import opened Interleavings

  predicate InCall(sha: Hash, actions: seq<Action>, t: ThreadId, call: Call, k: nat)
    requires k <= |actions|
  {
    var pc := ThreadOf(After(sha, actions[..k]), t).pc;
    pc.Busy? && pc.call == call
  }

  /** After every action from `m` on, the thread is inside `call`. */
  ghost predicate InCallFrom(sha: Hash, actions: seq<Action>, t: ThreadId, call: Call, m: nat) {
    forall k :: m <= k <= |actions| ==> InCall(sha, actions, t, call, k)
  }

  lemma InCallBefore(sha: Hash, front: seq<Action>, a: Action, t: ThreadId, call: Call, m: nat)
    requires m <= |front| && InCallFrom(sha, front + [a], t, call, m)
    ensures InCallFrom(sha, front, t, call, m)
    ensures InCall(sha, front, t, call, |front|) && InCall(sha, front + [a], t, call, |front| + 1)
  {
    hide After;
    forall k | m <= k <= |front| ensures InCall(sha, front, t, call, k) {
      assert InCall(sha, front + [a], t, call, k);
      assert (front + [a])[..k] == front[..k];
    }
  }

  lemma InCallAfter(sha: Hash, front: seq<Action>, a: Action, t: ThreadId, call: Call, m: nat)
    requires m <= |front| && InCallFrom(sha, front, t, call, m)
    requires var pc := ThreadOf(After(sha, front + [a]), t).pc; pc.Busy? && pc.call == call
    ensures InCallFrom(sha, front + [a], t, call, m)
  {
    hide After;
    var longer := front + [a];
    assert longer[..|longer|] == longer;
    forall k | m <= k <= |longer| ensures InCall(sha, longer, t, call, k) {
      if k < |longer| {
        assert InCall(sha, front, t, call, k);
        assert longer[..k] == front[..k];
      }
    }
  }

  // A lease is held, and its core with it, for the length of its owner's call.

  /** Inside the owner's call the lease outlives every step, of any thread, that does not end the call. */
  lemma HoldersGoOn(sha: Hash, s: State, a: Action, t: ThreadId)
    requires Inv(s) && HoldsCore(s, t)
    requires
      var pc, pc' := ThreadOf(s, t).pc, ThreadOf(Next(sha, s, a), t).pc;
      pc'.Busy? && pc'.call == pc.call
    ensures
      var call, s' := ThreadOf(s, t).pc.call, Next(sha, s, a);
      && HoldsCore(s', t)
      && SameTerms(s.objects[call.core].leases[call.lease], s'.objects[call.core].leases[call.lease])
  {
    if a.thread != t {
      hide Inv, Next;
      OthersStay(sha, s, a, t);
      OnlyTheOwnerMovesALease(sha, s, a, ThreadOf(s, t).pc.call.core, ThreadOf(s, t).pc.call.lease);
    } else {
      hide Inv;
      OwnStepKeepsHolding(sha, s, a);
    }
  }

  lemma OwnStepKeepsHolding(sha: Hash, s: State, a: Action)
    requires HoldsCore(s, a.thread)
    requires
      var pc, pc' := ThreadOf(s, a.thread).pc, ThreadOf(Next(sha, s, a), a.thread).pc;
      pc'.Busy? && pc'.call == pc.call
    ensures
      var call, s' := ThreadOf(s, a.thread).pc.call, Next(sha, s, a);
      && HoldsCore(s', a.thread)
      && SameTerms(s.objects[call.core].leases[call.lease], s'.objects[call.core].leases[call.lease])
  {
    hide Revision, BatchOutcome;
    var pc := ThreadOf(s, a.thread).pc;
    if pc.at == Section1 {
      SectionEnds(sha, s, a.thread, pc.call);
    }
  }

  /**
   * From the section in which a call finds a lease that its thread owns, to every later state of that same
   * call: the lease is in its core on the same terms, and the core is in the table.
   */
  lemma {:induction false} LeaseAndCoreStay(
      sha: Hash, actions: seq<Action>, more: seq<Action>, t: ThreadId, call: Call)
    requires HoldsCore(After(sha, actions), t) && ThreadOf(After(sha, actions), t).pc.call == call
    requires InCallFrom(sha, actions + more, t, call, |actions|)
    ensures
      var s, s' := After(sha, actions), After(sha, actions + more);
      && HoldsCore(s', t) && ThreadOf(s', t).pc.call == call
      && call.core in s'.table
      && SameTerms(s.objects[call.core].leases[call.lease], s'.objects[call.core].leases[call.lease])
    decreases |more|
  {
    hide After, Next, Inv, LockInOrder;
    EveryInterleavingIsInOrder(sha, actions + more);
    if more == [] {
      assert actions + more == actions;
    } else {
      var front, a := more[..|more| - 1], more[|more| - 1];
      assert actions + more == actions + front + [a];
      InCallBefore(sha, actions + front, a, t, call, |actions|);
      LeaseAndCoreStay(sha, actions, front, t, call);
      EveryInterleavingIsInOrder(sha, actions + front);
      AfterMore(sha, actions + front, a);
      InCallNow(sha, actions + more, t, call);
      HoldersGoOn(sha, After(sha, actions + front), a, t);
    }
    HeldIsInTable(After(sha, actions + more), t);
  }

  lemma InCallNow(sha: Hash, actions: seq<Action>, t: ThreadId, call: Call)
    requires InCall(sha, actions, t, call, |actions|)
    ensures var pc := ThreadOf(After(sha, actions), t).pc; pc.Busy? && pc.call == call
  {
    hide After;
    assert actions[..|actions|] == actions;
  }

  lemma HeldIsInTable(s: State, t: ThreadId)
    requires Inv(s) && HoldsCore(s, t)
    ensures ThreadOf(s, t).pc.call.core in s.table
  {
  }

  // The instant of the check in `acquire` and `submit`.

  predicate LeaseIsCurrent(s: State, h: Handle, id: nat) {
    && HasTheLease(s, h, id)
    && s.objects[h].leases[id].metadata.epoch == s.objects[h].epoch
    && s.objects[h].leases[id].metadata.revision == Revision(s.objects[h])
  }

  predicate Checks(call: Call) {
    call.Acquire? || call.SubmitLease?
  }

  /** What the first core section checks: `submit` the lease, `acquire` its own arguments. */
  predicate PassesCheck(s: State, call: Call)
    requires Checks(call)
  {
    if call.SubmitLease? then LeaseIsCurrent(s, call.core, call.lease)
    else
      call.core in s.objects && call.epoch == s.objects[call.core].epoch
      && call.revision == Revision(s.objects[call.core])
  }

  /** At action `m` the call passed its check, and the thread has been inside it since. */
  ghost predicate CheckedAt(sha: Hash, actions: seq<Action>, t: ThreadId, call: Call, m: nat) {
    && m < |actions| && Checks(call) && actions[m] == Continue(t)
    && ThreadOf(After(sha, actions[..m]), t).pc == Busy(call, Section1)
    && PassesCheck(After(sha, actions[..m]), call)
    && InCallFrom(sha, actions, t, call, m)
  }

  lemma CheckPasses(sha: Hash, s: State, t: ThreadId, call: Call)
    requires Checks(call) && ThreadOf(s, t).pc == Busy(call, Section1)
    requires ThreadOf(Next(sha, s, Continue(t)), t).pc.Busy?
    ensures PassesCheck(s, call)
    ensures ThreadOf(Next(sha, s, Continue(t)), t).pc == Busy(call, LookUp2)
  {
    hide Revision;
  }

  predicate PastCheck(pc: Pc, call: Call) {
    pc == Busy(call, LookUp2) || pc == Busy(call, Transition)
  }

  lemma CallAdvances(sha: Hash, s: State, t: ThreadId, a: Action, call: Call)
    requires PastCheck(ThreadOf(Next(sha, s, a), t).pc, call)
    requires Checks(call) && a.thread == t
    ensures
      var pc := ThreadOf(s, t).pc;
      (pc == Busy(call, Section1) && a.Continue?) || PastCheck(pc, call)
  {
    hide Section, Refused, LeaseTransition;
    var pc := ThreadOf(s, t).pc;
    if pc.Busy? {
      SectionEnds(sha, s, t, pc.call);
      if Transitions(pc.call) {
        TransitionEnds(s, t, pc.call);
      }
    }
  }

  lemma CheckStaysKnown(sha: Hash, front: seq<Action>, a: Action, t: ThreadId, call: Call, m: nat)
    requires CheckedAt(sha, front, t, call, m)
    requires var pc := ThreadOf(After(sha, front + [a]), t).pc; pc.Busy? && pc.call == call
    ensures CheckedAt(sha, front + [a], t, call, m)
  {
    hide After, PassesCheck, InCallFrom;
    assert (front + [a])[..m] == front[..m];
    InCallAfter(sha, front, a, t, call, m);
  }

  lemma CheckedNow(sha: Hash, front: seq<Action>, a: Action, t: ThreadId, call: Call)
    requires a == Continue(t)
    requires Checks(call) && ThreadOf(After(sha, front), t).pc == Busy(call, Section1)
    requires PassesCheck(After(sha, front), call)
    requires var pc := ThreadOf(After(sha, front + [a]), t).pc; pc.Busy? && pc.call == call
    ensures CheckedAt(sha, front + [a], t, call, |front|)
  {
    hide After, PassesCheck;
    var longer := front + [a];
    assert longer[..|front|] == front && longer[..|longer|] == longer;
  }

  lemma {:induction false} WasChecked(sha: Hash, actions: seq<Action>, t: ThreadId, call: Call) returns (m: nat)
    requires Checks(call) && PastCheck(ThreadOf(After(sha, actions), t).pc, call)
    ensures CheckedAt(sha, actions, t, call, m)
    decreases |actions|
  {
    hide PassesCheck, Next, CheckedAt;
    var front, a := actions[..|actions| - 1], actions[|actions| - 1];
    var s := After(sha, front);
    assert actions == front + [a];
    if a.thread != t {
      OthersStay(sha, s, a, t);
    } else {
      CallAdvances(sha, s, t, a, call);
    }
    if PastCheck(ThreadOf(s, t).pc, call) {
      m := WasChecked(sha, front, t, call);
      CheckStaysKnown(sha, front, a, t, call, m);
    } else {
      CheckPasses(sha, s, t, call);
      m := |front|;
      CheckedNow(sha, front, a, t, call);
    }
  }

  lemma PastStays(sha: Hash, s: State, a: Action, t: ThreadId, call: Call)
    requires Checks(call) && PastCheck(ThreadOf(s, t).pc, call)
    requires var pc := ThreadOf(Next(sha, s, a), t).pc; pc.Busy? && pc.call == call
    ensures PastCheck(ThreadOf(Next(sha, s, a), t).pc, call)
  {
    hide Section, LeaseTransition, Refused;
    if a.thread != t {
      OthersStay(sha, s, a, t);
    } else {
      TransitionEnds(s, t, call);
    }
  }

  /** Having passed its check, a call stays past it until it ends. */
  lemma {:induction false} CheckedIsPast(sha: Hash, actions: seq<Action>, t: ThreadId, call: Call, m: nat)
    requires CheckedAt(sha, actions, t, call, m)
    ensures PastCheck(ThreadOf(After(sha, actions), t).pc, call)
    decreases |actions|
  {
    hide Next, PassesCheck, After;
    var front, a := actions[..|actions| - 1], actions[|actions| - 1];
    assert actions == front + [a];
    AfterMore(sha, front, a);
    InCallNow(sha, actions, t, call);
    if m == |front| {
      CheckPasses(sha, After(sha, front), t, call);
    } else {
      assert front[..m] == actions[..m];
      InCallBefore(sha, front, a, t, call, m);
      CheckedIsPast(sha, front, t, call, m);
      PastStays(sha, After(sha, front), a, t, call);
    }
  }

  // What was true all the way from the check to the operation.

  /** One step back inside the call: the lease was there, with the same owner and on the same terms. */
  lemma HeldBefore(sha: Hash, s: State, a: Action, t: ThreadId, call: Call)
    requires Inv(s) && Checks(call) && HoldsCore(Next(sha, s, a), t)
    requires ThreadOf(Next(sha, s, a), t).pc.call == call
    requires var pc := ThreadOf(s, t).pc; pc == Busy(call, Section1) || PastCheck(pc, call)
    ensures
      var s' := Next(sha, s, a);
      && HoldsCore(s, t)
      && SameTerms(s.objects[call.core].leases[call.lease], s'.objects[call.core].leases[call.lease])
  {
    hide Next, TraceInOrder, LeasesInOrder, RetiresInOrder, CoresHeld;
    var s' := Next(sha, s, a);
    LeasesComeFrom(sha, s, a, call.core, call.lease);
    if !(HasTheLease(s, call.core, call.lease)
         && SameTerms(s.objects[call.core].leases[call.lease], s'.objects[call.core].leases[call.lease])) {
      FreshLeaseEndsItsCall(sha, s, a);
    }
  }

  /** A step that hands out a lease ends the call it belongs to, or belongs to no lease call. */
  lemma FreshLeaseEndsItsCall(sha: Hash, s: State, a: Action)
    requires Next(sha, s, a).next > s.next
    ensures ThreadOf(Next(sha, s, a), a.thread).pc.Idle?
  {
    hide Revision, BatchOutcome;
  }

  lemma CallPoint(sha: Hash, front: seq<Action>, a: Action, t: ThreadId, call: Call)
    requires Checks(call) && PastCheck(ThreadOf(After(sha, front + [a]), t).pc, call)
    ensures var pc := ThreadOf(After(sha, front), t).pc; pc == Busy(call, Section1) || PastCheck(pc, call)
  {
    hide Next, After;
    AfterMore(sha, front, a);
    if a.thread != t {
      OthersStay(sha, After(sha, front), a, t);
    } else {
      CallAdvances(sha, After(sha, front), t, a, call);
    }
  }

  /** `t` holds the lease of `call` after the first `k` actions, on the terms it has after all of them. */
  predicate HeldAt(sha: Hash, actions: seq<Action>, t: ThreadId, call: Call, k: nat)
    requires k <= |actions| && Checks(call)
    requires HasTheLease(After(sha, actions), call.core, call.lease)
  {
    var s, s' := After(sha, actions[..k]), After(sha, actions);
    && HoldsCore(s, t) && ThreadOf(s, t).pc.call == call && call.core in s.table
    && SameTerms(s.objects[call.core].leases[call.lease], s'.objects[call.core].leases[call.lease])
  }

  /** The lease that a call is about to operate on was held from the check on. */
  lemma {:induction false} HeldSinceCheck(sha: Hash, actions: seq<Action>, t: ThreadId, call: Call, m: nat)
    requires CheckedAt(sha, actions, t, call, m) && PastCheck(ThreadOf(After(sha, actions), t).pc, call)
    requires HoldsCore(After(sha, actions), t)
    ensures forall k :: m <= k <= |actions| ==> HeldAt(sha, actions, t, call, k)
    decreases |actions|
  {
    hide After, Next, Inv, LockInOrder, PassesCheck, HoldsCore;
    assert HasTheLease(After(sha, actions), call.core, call.lease) by { HeldHasTheLease(After(sha, actions), t); }
    EveryInterleavingIsInOrder(sha, actions);
    HeldIsInTable(After(sha, actions), t);
    assert actions[..|actions|] == actions;
    var front, a := actions[..|actions| - 1], actions[|actions| - 1];
    assert actions == front + [a];
    EveryInterleavingIsInOrder(sha, front);
    CallPoint(sha, front, a, t, call);
    AfterMore(sha, front, a);
    HeldBefore(sha, After(sha, front), a, t, call);
    HeldIsInTable(After(sha, front), t);
    HeldHasTheLease(After(sha, front), t);
    if m < |front| {
      assert front[..m] == actions[..m];
      InCallBefore(sha, front, a, t, call, m);
      CheckedIsPast(sha, front, t, call, m);
      HeldSinceCheck(sha, front, t, call, m);
    }
    forall k | m <= k <= |actions| ensures HeldAt(sha, actions, t, call, k) {
      if k < |front| {
        assert HeldAt(sha, front, t, call, k);
        assert front[..k] == actions[..k];
      } else if k == |front| {
        assert actions[..k] == front;
      }
    }
  }

  lemma HeldHasTheLease(s: State, t: ThreadId)
    requires HoldsCore(s, t)
    ensures HasTheLease(s, ThreadOf(s, t).pc.call.core, ThreadOf(s, t).pc.call.lease)
  {
  }

  /** Action `a` after `actions` is a successful operation, recorded as `e`. */
  ghost predicate Records(sha: Hash, actions: seq<Action>, a: Action, e: Event) {
    After(sha, actions + [a]).trace == After(sha, actions).trace + [e]
  }

  /** `e` is what `call` set out to do. */
  predicate IsOperationOf(e: Event, call: Call)
    requires Checks(call)
  {
    OpOf(call) == e.op && call.core == e.core && call.lease == e.lease
  }

  lemma OperationIsItsCall(sha: Hash, s: State, a: Action, e: Event)
    requires Inv(s) && (e.op == AcquireOp || e.op == SubmitOp) && Next(sha, s, a).trace == s.trace + [e]
    ensures a == Continue(e.thread)
    ensures
      var pc, s' := ThreadOf(s, e.thread).pc, Next(sha, s, a);
      && pc.Busy? && pc.at == Transition && Checks(pc.call) && IsOperationOf(e, pc.call)
      && HoldsCore(s, e.thread) && HasTheLease(s', e.core, e.lease)
      && s'.objects[e.core] == s.objects[e.core].(leases := s'.objects[e.core].leases)
      && SameTerms(s.objects[e.core].leases[e.lease], s'.objects[e.core].leases[e.lease])
  {
    RecordedIsPerformed(sha, s, a, e);
    HandedOutBelowNext(s, e.core);
    hide Inv, LeaseTransition;
    TransitionSection(s, e.thread, ThreadOf(s, e.thread).pc.call);
  }

  /**
   * Every successful `submit` had an instant, in that very call, at which the lease's epoch and revision were
   * its core's; from then on the lease was held, unchanged in its terms, and its core stayed in the table.
   */
  lemma EverySubmitWasCurrent(sha: Hash, actions: seq<Action>, a: Action, e: Event) returns (m: nat, call: Call)
    requires e.op == SubmitOp && Records(sha, actions, a, e)
    ensures CheckedAt(sha, actions, e.thread, call, m) && call.SubmitLease? && IsOperationOf(e, call)
    ensures LeaseIsCurrent(After(sha, actions[..m]), e.core, e.lease)
    ensures HasTheLease(After(sha, actions), e.core, e.lease)
    ensures forall k :: m <= k <= |actions| ==> HeldAt(sha, actions, e.thread, call, k)
  {
    m, call := OperationWasChecked(sha, actions, a, e);
  }

  /** Every successful `acquire` had an instant, in that very call, at which its arguments were the core's. */
  lemma EveryAcquireWasChecked(sha: Hash, actions: seq<Action>, a: Action, e: Event) returns (m: nat, call: Call)
    requires e.op == AcquireOp && Records(sha, actions, a, e)
    ensures CheckedAt(sha, actions, e.thread, call, m) && call.Acquire? && IsOperationOf(e, call)
    ensures
      var s := After(sha, actions[..m]);
      e.core in s.objects && call.epoch == s.objects[e.core].epoch && call.revision == Revision(s.objects[e.core])
    ensures HasTheLease(After(sha, actions), e.core, e.lease)
    ensures forall k :: m <= k <= |actions| ==> HeldAt(sha, actions, e.thread, call, k)
  {
    m, call := OperationWasChecked(sha, actions, a, e);
  }

  lemma OperationWasChecked(sha: Hash, actions: seq<Action>, a: Action, e: Event) returns (m: nat, call: Call)
    requires (e.op == AcquireOp || e.op == SubmitOp) && Records(sha, actions, a, e)
    ensures CheckedAt(sha, actions, e.thread, call, m) && IsOperationOf(e, call)
    ensures HasTheLease(After(sha, actions), e.core, e.lease)
    ensures forall k :: m <= k <= |actions| ==> HeldAt(sha, actions, e.thread, call, k)
  {
    hide After, Next, CheckedAt, HoldsCore, Inv;
    var s := After(sha, actions);
    AfterMore(sha, actions, a);
    EveryInterleavingIsInOrder(sha, actions);
    OperationIsItsCall(sha, s, a, e);
    call := ThreadOf(s, e.thread).pc.call;
    HeldHasTheLease(s, e.thread);
    m := WasChecked(sha, actions, e.thread, call);
    HeldSinceCheck(sha, actions, e.thread, call, m);
  }

  // An acquired lease.

  lemma OwnStepFreezes(sha: Hash, s: State, a: Action, call: Call)
    requires Checks(call)
    requires var pc := ThreadOf(s, a.thread).pc; pc == Busy(call, Section1) || PastCheck(pc, call)
    requires PastCheck(ThreadOf(Next(sha, s, a), a.thread).pc, call)
    ensures Next(sha, s, a).objects == s.objects
  {
    hide Revision, Refused;
    TransitionEnds(s, a.thread, call);
  }

  /** While its owner is inside `acquire` or `submit`, a core keeps its epoch and history. */
  lemma {:induction false} OwnCoreIsFrozen(sha: Hash, actions: seq<Action>, t: ThreadId, call: Call, m: nat)
    requires CheckedAt(sha, actions, t, call, m)
    requires
      var s := After(sha, actions[..m]);
      call.core in s.objects && s.objects[call.core].owner == t
    ensures
      var s, s' := After(sha, actions[..m]), After(sha, actions);
      && call.core in s'.objects && s'.objects[call.core].owner == t
      && s'.objects[call.core].epoch == s.objects[call.core].epoch
      && s'.objects[call.core].history == s.objects[call.core].history
    decreases |actions|
  {
    hide Next, PassesCheck, After, Inv, LockInOrder;
    var front, a := actions[..|actions| - 1], actions[|actions| - 1];
    assert actions == front + [a];
    var s := After(sha, front);
    AfterMore(sha, front, a);
    EveryInterleavingIsInOrder(sha, front);
    InOrderHandles(s);
    CheckedIsPast(sha, actions, t, call, m);
    if m < |front| {
      assert front[..m] == actions[..m];
      InCallBefore(sha, front, a, t, call, m);
      CheckedIsPast(sha, front, t, call, m);
      OwnCoreIsFrozen(sha, front, t, call, m);
    } else {
      assert actions[..m] == front;
    }
    OnlyTheOwnerChangesACore(sha, s, a, call.core);
    if a.thread == t {
      OwnStepFreezes(sha, s, a, call);
    }
  }

  /** The lease's metadata names the epoch and revision that the call was given. */
  predicate ArgumentsAgree(s: State, call: Call)
    requires call.Acquire? && HasTheLease(s, call.core, call.lease)
  {
    var lease := s.objects[call.core].leases[call.lease].metadata;
    lease.epoch == call.epoch && lease.revision == call.revision
  }

  /** On a core of one's own, an acquired lease is current exactly if it agrees with the arguments. */
  lemma OwnAcquireIsCurrentExactly(
      sha: Hash, actions: seq<Action>, a: Action, e: Event, m: nat, call: Call)
    requires e.op == AcquireOp && Records(sha, actions, a, e)
    requires CheckedAt(sha, actions, e.thread, call, m) && call.Acquire? && IsOperationOf(e, call)
    requires e.core in After(sha, actions).objects && After(sha, actions).objects[e.core].owner == e.thread
    ensures HasTheLease(After(sha, actions), e.core, e.lease)
    ensures LeaseIsCurrent(After(sha, actions + [a]), e.core, e.lease) <==> ArgumentsAgree(After(sha, actions), call)
  {
    hide Next, After, Inv;
    var s := After(sha, actions);
    AfterMore(sha, actions, a);
    EveryInterleavingIsInOrder(sha, actions);
    OperationIsItsCall(sha, s, a, e);
    assert PassesCheck(After(sha, actions[..m]), call);
    OwnersStay(sha, actions[..m], actions[m..], e.core);
    assert actions[..m] + actions[m..] == actions;
    OwnCoreIsFrozen(sha, actions, e.thread, call, m);
  }

  /** A core keeps its owner. */
  lemma {:induction false} OwnersStay(sha: Hash, actions: seq<Action>, more: seq<Action>, h: Handle)
    requires h in After(sha, actions).objects
    ensures h in After(sha, actions + more).objects
    ensures After(sha, actions + more).objects[h].owner == After(sha, actions).objects[h].owner
    decreases |more|
  {
    hide After, Next, Inv, LockInOrder;
    if more == [] {
      assert actions + more == actions;
    } else {
      var front, last := more[..|more| - 1], more[|more| - 1];
      OwnersStay(sha, actions, front, h);
      EveryInterleavingIsInOrder(sha, actions + front);
      InOrderHandles(After(sha, actions + front));
      OnlyTheOwnerChangesACore(sha, After(sha, actions + front), last, h);
      AfterMore(sha, actions + front, last);
      assert actions + more == actions + front + [last];
    }
  }
}
