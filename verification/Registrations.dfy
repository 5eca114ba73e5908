/** `register` looks its core up, lets go of the table, and locks the core: when that can lose the lease. */
module Registrations {
  import opened Bytes
  import opened Cores
  import opened Steps
  import opened LeaseProofs
  import opened Interleavings
  import opened Instants
  import opened Destroys

  /** The core is out of the table, or its owner is past the check and about to take it out. */
  predicate Condemned(s: State, h: Handle) {
    h !in s.table || (s.holder.Some? && Unlists(s, s.holder.value, h))
  }

  // What the owner of a core registers.

  predicate FindsItsCore(s: State, t: ThreadId) {
    AtRegister(s, t) ==>
      var h := ThreadOf(s, t).pc.call.core;
      h in s.objects && (s.objects[h].owner == t ==> h in s.table)
  }

  /** Past its look-up, a `register` by the owner of the core still has the core in the table. */
  ghost predicate RegistersFind(s: State) {
    forall t: ThreadId :: FindsItsCore(s, t)
  }

  lemma RegisterWasLookedUp(sha: Hash, s: State, a: Action)
    requires HandlesInOrder(s) && AtRegister(Next(sha, s, a), a.thread) && FindsItsCore(s, a.thread)
    ensures FindsItsCore(Next(sha, s, a), a.thread)
  {
    hide Section, LeaseTransition, Refused;
    var pc := ThreadOf(s, a.thread).pc;
    if pc.Busy? {
      SectionEnds(sha, s, a.thread, pc.call);
      if Transitions(pc.call) {
        TransitionEnds(s, a.thread, pc.call);
      }
    }
  }

  lemma StepKeepsRegistersFind(sha: Hash, s: State, a: Action)
    requires Inv(s) && LockInOrder(s) && RegistersFind(s)
    ensures RegistersFind(Next(sha, s, a))
  {
    InOrderHandles(s);
    hide Next, Inv, LockInOrder;
    var s' := Next(sha, s, a);
    forall t: ThreadId ensures FindsItsCore(s', t) {
      assert FindsItsCore(s, t);
      if t == a.thread {
        if AtRegister(s', t) {
          RegisterWasLookedUp(sha, s, a);
        }
      } else {
        OthersStay(sha, s, a, t);
        if AtRegister(s, t) {
          OnlyTheOwnerChangesACore(sha, s, a, ThreadOf(s, t).pc.call.core);
        }
      }
    }
  }

  lemma {:induction false} RegistersAlwaysFind(sha: Hash, actions: seq<Action>)
    ensures RegistersFind(After(sha, actions))
    decreases |actions|
  {
    hide Next, Inv, LockInOrder;
    if actions != [] {
      var front, a := actions[..|actions| - 1], actions[|actions| - 1];
      RegistersAlwaysFind(sha, front);
      EveryInterleavingIsInOrder(sha, front);
      StepKeepsRegistersFind(sha, After(sha, front), a);
    }
  }

  lemma RegisterIsItsCall(sha: Hash, s: State, a: Action, e: Event)
    requires e.op == RegisterOp && Next(sha, s, a).trace == s.trace + [e]
    ensures a == Continue(e.thread) && WasRegistering(s, e.thread, e.core)
    ensures
      var s' := Next(sha, s, a);
      && s'.table == s.table && s'.holder == s.holder && HasTheLease(s', e.core, e.lease)
      && ThreadOf(s', e.thread).pc == Idle
      && forall u: ThreadId :: u != e.thread ==> ThreadOf(s', u) == ThreadOf(s, u)
  {
    hide CoreSection, RegisterOn;
    RecordedIsPerformed(sha, s, a, e);
    RegisterIsStored(sha, s, a, e);
    RegisterSection(sha, s, e.thread, ThreadOf(s, e.thread).pc.call, s.objects[e.core]);
    SectionKeepsTable(sha, s, e.thread, ThreadOf(s, e.thread).pc.call);
  }

  /** While its owner is inside `register`, nobody can be about to take the core out. */
  lemma OwnerDoesNotUnlist(s: State, t: ThreadId, h: Handle)
    requires LockInOrder(s) && AtRegister(s, t) && h in s.table && h in s.objects && s.objects[h].owner == t
    ensures !Condemned(s, h)
  {
    hide QuietCore;
    assert s.holder.Some? ==> Unlisting(s, s.holder.value);
  }

  /** Registering on a core leaves it condemned or not. */
  lemma RegisterKeepsCondemned(sha: Hash, s: State, a: Action, e: Event)
    requires e.op == RegisterOp && Next(sha, s, a).trace == s.trace + [e]
    ensures Condemned(Next(sha, s, a), e.core) == Condemned(s, e.core)
  {
    hide Next;
    RegisterIsItsCall(sha, s, a, e);
  }

  /** In every run, a lease that the owner of the core registers is on a core in the table, and not condemned. */
  lemma OwnRegisterFindsItsCore(sha: Hash, actions: seq<Action>, a: Action, e: Event)
    requires e.op == RegisterOp && Records(sha, actions, a, e)
    ensures e.core in After(sha, actions).objects
    ensures After(sha, actions).objects[e.core].owner == e.thread ==> !Condemned(After(sha, actions + [a]), e.core)
  {
    hide After, Next, LockInOrder, Inv, Condemned;
    var s := After(sha, actions);
    AfterMore(sha, actions, a);
    RegistersAlwaysFind(sha, actions);
    EveryInterleavingIsInOrder(sha, actions);
    RegisterIsItsCall(sha, s, a, e);
    RegisterKeepsCondemned(sha, s, a, e);
    assert FindsItsCore(s, e.thread);
    if s.objects[e.core].owner == e.thread {
      OwnerDoesNotUnlist(s, e.thread, e.core);
    }
  }

  // A lease keeps its core.

  lemma NextNeverFalls(sha: Hash, s: State, a: Action)
    ensures s.next <= Next(sha, s, a).next
  {
    hide BatchOutcome, Revision, Refused, SetEpochOn, RegisterOn, AcquireCheck, SubmitCheck, DiscardOn, TransitionOn;
  }

  /** A core that holds a lease does not become condemned. */
  lemma LeaseKeepsItsCore(sha: Hash, s: State, a: Action, h: Handle, id: nat)
    requires LockInOrder(s) && HasTheLease(s, h, id) && !Condemned(s, h)
    ensures !Condemned(Next(sha, s, a), h)
  {
    hide Next, QuietCore;
    var s', t := Next(sha, s, a), a.thread;
    TableIsKept(sha, s, a);
    if a.Continue? && AtUnlist(s, t) {
      assert Unlisting(s, t);
    } else if s'.holder.Some? {
      var w := s'.holder.value;
      if s.holder.Some? {
        assert Unlisting(s, w);
        HolderStandsStill(sha, s, a, w);
      } else if AtUnlist(s', t) {
        assert !AtUnlist(s, t);
        if a.Continue? {
          CheckedCoreIsQuiet(sha, s, t);
        } else {
          StartsElsewhere(sha, s, a);
        }
      }
    }
  }

  lemma HolderStandsStill(sha: Hash, s: State, a: Action, w: ThreadId)
    requires AtUnlist(s, w) && !(a.Continue? && a.thread == w)
    ensures ThreadOf(Next(sha, s, a), w) == ThreadOf(s, w)
  {
    hide Next;
    if a.thread == w {
      UnlistWaitsForItself(sha, s, a);
    } else {
      OthersStay(sha, s, a, w);
    }
  }

  /** As long as a lease on a core that is not condemned exists, the core stays that way. */
  lemma {:induction false} RegisteredCoreStays(
      sha: Hash, actions: seq<Action>, more: seq<Action>, h: Handle, id: nat)
    requires HasTheLease(After(sha, actions), h, id) && !Condemned(After(sha, actions), h)
    ensures After(sha, actions).next <= After(sha, actions + more).next
    ensures HasTheLease(After(sha, actions + more), h, id) ==> !Condemned(After(sha, actions + more), h)
    decreases |more|
  {
    hide After, Next, Inv, LockInOrder, Condemned;
    if more == [] {
      assert actions + more == actions;
    } else {
      var front, last := more[..|more| - 1], more[|more| - 1];
      RegisteredCoreStays(sha, actions, front, h, id);
      var s := After(sha, actions + front);
      EveryInterleavingIsInOrder(sha, actions);
      HandedOutBelowNext(After(sha, actions), h);
      EveryInterleavingIsInOrder(sha, actions + front);
      InOrderHandles(s);
      AfterMore(sha, actions + front, last);
      assert actions + more == actions + front + [last];
      NextNeverFalls(sha, s, last);
      if HasTheLease(Next(sha, s, last), h, id) {
        LeasesComeFrom(sha, s, last, h, id);
        LeaseKeepsItsCore(sha, s, last, h, id);
      }
    }
  }

  /** A lease of a thread that does not move stays, and so does its core. */
  lemma {:induction false} OwnLeaseStays(
      sha: Hash, actions: seq<Action>, more: seq<Action>, t: ThreadId, h: Handle, id: nat)
    requires HasTheLease(After(sha, actions), h, id) && After(sha, actions).objects[h].leases[id].owner == t
    requires Without(more, t)
    ensures
      var s' := After(sha, actions + more);
      HasTheLease(s', h, id) && s'.objects[h].leases[id] == After(sha, actions).objects[h].leases[id]
    decreases |more|
  {
    hide After, Next, Inv, LockInOrder;
    if more == [] {
      assert actions + more == actions;
    } else {
      var front, last := more[..|more| - 1], more[|more| - 1];
      OwnLeaseStays(sha, actions, front, t, h, id);
      EveryInterleavingIsInOrder(sha, actions + front);
      AfterMore(sha, actions + front, last);
      assert actions + more == actions + front + [last];
      OnlyTheOwnerMovesALease(sha, After(sha, actions + front), last, h, id);
    }
  }

  // How a lease is lost.

  /** The core still exists, for those who looked it up in time, but not in the table. */
  predicate Lost(s: State, h: Handle) {
    h in s.objects && h !in s.table
  }

  /** Nothing in the run is a step of `t`. */
  ghost predicate Without(run: seq<Action>, t: ThreadId) {
    forall i :: 0 <= i < |run| ==> run[i].thread != t
  }

  /** The next step of `t` registers lease `id` on `h`, and after `later` the lease is on a lost core. */
  ghost predicate LosesIt(sha: Hash, run: seq<Action>, later: seq<Action>, t: ThreadId, h: Handle, id: nat) {
    && Records(sha, run, Continue(t), Event(t, RegisterOp, h, id))
    && Lost(After(sha, run + [Continue(t)] + later), h) && HasTheLease(After(sha, run + [Continue(t)] + later), h, id)
  }

  /** The call of `t`, which stands at its `register`, can come to lose its lease. */
  ghost predicate CanLose(sha: Hash, actions: seq<Action>, t: ThreadId, h: Handle) {
    exists before: seq<Action>, later, id ::
      Without(before, t) && LosesIt(sha, actions + before, later, t, h, id)
  }

  lemma CondemnedLoses(sha: Hash, actions: seq<Action>, before: seq<Action>, t: ThreadId, h: Handle)
    requires Without(before, t)
    requires WouldRegister(After(sha, actions + before), t, h) && Condemned(After(sha, actions + before), h)
    ensures CanLose(sha, actions, t, h)
  {
    hide After, Next, Revision, WouldRegister, Without;
    var run := actions + before;
    var s := After(sha, run);
    RegisterEnds(sha, s, t, h);
    AfterMore(sha, run, Continue(t));
    if h !in s.table {
      assert run + [Continue(t)] + [] == run + [Continue(t)];
      assert LosesIt(sha, run, [], t, h, s.next);
    } else {
      WouldRegisterIsNotUnlisting(s, t, s.holder.value, h);
      assert AtRegister(s, t) by { WouldRegisterIsAtRegister(s, t, h); }
      OthersStay(sha, s, Continue(t), s.holder.value);
      TableIsGivenBack(sha, run + [Continue(t)]);
      assert LosesIt(sha, run, [Continue(s.holder.value)], t, h, s.next);
    }
  }

  lemma WouldRegisterIsAtRegister(s: State, t: ThreadId, h: Handle)
    requires WouldRegister(s, t, h)
    ensures AtRegister(s, t) && ThreadOf(s, t).pc.call.core == h && h in s.objects
  {
  }

  lemma LostIsCondemned(sha: Hash, run: seq<Action>, later: seq<Action>, t: ThreadId, h: Handle, id: nat)
    requires LosesIt(sha, run, later, t, h, id)
    ensures Condemned(After(sha, run), h)
  {
    hide After, Next;
    var e := Event(t, RegisterOp, h, id);
    AfterMore(sha, run, Continue(t));
    RegisterIsItsCall(sha, After(sha, run), Continue(t), e);
    RegisterKeepsCondemned(sha, After(sha, run), Continue(t), e);
    if !Condemned(After(sha, run), h) {
      RegisteredCoreStays(sha, run + [Continue(t)], later, h, id);
    }
  }

  /** Neither the owner of the core nor a thread that has a lease on it loses a lease there. */
  lemma SafeThreadsNeverLose(sha: Hash, actions: seq<Action>, t: ThreadId, h: Handle)
    requires
      var s := After(sha, actions);
      && h in s.objects && !Condemned(s, h)
      && (s.objects[h].owner == t || !NoLeaseOf(s, t, h))
    ensures !CanLose(sha, actions, t, h)
  {
    hide After, Next, LosesIt, Without, Condemned;
    if CanLose(sha, actions, t, h) {
      var before: seq<Action>, later, id :| Without(before, t) && LosesIt(sha, actions + before, later, t, h, id);
      LostIsCondemned(sha, actions + before, later, t, h, id);
      var e := Event(t, RegisterOp, h, id);
      LossIsRecorded(sha, actions + before, later, t, h, id);
      if After(sha, actions).objects[h].owner == t {
        OwnersStay(sha, actions, before, h);
        OwnRegisterFindsItsCore(sha, actions + before, Continue(t), e);
        AfterMore(sha, actions + before, Continue(t));
        RegisterKeepsCondemned(sha, After(sha, actions + before), Continue(t), e);
      } else {
        var k :| HasTheLease(After(sha, actions), h, k) && After(sha, actions).objects[h].leases[k].owner == t;
        OwnLeaseStays(sha, actions, before, t, h, k);
        RegisteredCoreStays(sha, actions, before, h, k);
      }
    }
  }

  lemma LossIsRecorded(sha: Hash, run: seq<Action>, later: seq<Action>, t: ThreadId, h: Handle, id: nat)
    requires LosesIt(sha, run, later, t, h, id)
    ensures Records(sha, run, Continue(t), Event(t, RegisterOp, h, id))
  {
  }

  ghost predicate NoLeaseOf(s: State, t: ThreadId, h: Handle) {
    forall id | HasTheLease(s, h, id) :: s.objects[h].leases[id].owner != t
  }

  // What a lost lease is worth.

  lemma SectionListsNothingOld(sha: Hash, s: State, t: ThreadId, call: Call, h: Handle)
    requires h !in s.table && h != s.next
    ensures h !in Section(sha, s, t, call).table
  {
    hide BatchOutcome, Revision, SetEpochOn, RegisterOn, AcquireCheck, SubmitCheck, DiscardOn;
  }

  lemma TransitionListsNothing(s: State, t: ThreadId, call: Call)
    requires Transitions(call)
    ensures LeaseTransition(s, t, call).table == s.table
  {
    hide TransitionOn;
  }

  lemma StepKeepsLost(sha: Hash, s: State, a: Action, h: Handle)
    requires HandlesInOrder(s) && Lost(s, h)
    ensures Lost(Next(sha, s, a), h)
  {
    hide Section, LeaseTransition, Refused;
    OwnersAreKept(sha, s, a, h);
    var pc := ThreadOf(s, a.thread).pc;
    if pc.Busy? {
      SectionListsNothingOld(sha, s, a.thread, pc.call, h);
      if Transitions(pc.call) {
        TransitionListsNothing(s, a.thread, pc.call);
      }
    }
  }

  /** A core that left the table never comes back. */
  lemma {:induction false} LostStaysLost(sha: Hash, actions: seq<Action>, more: seq<Action>, h: Handle)
    requires Lost(After(sha, actions), h)
    ensures Lost(After(sha, actions + more), h)
    decreases |more|
  {
    hide After, Next, Inv, LockInOrder;
    if more == [] {
      assert actions + more == actions;
    } else {
      var front, last := more[..|more| - 1], more[|more| - 1];
      LostStaysLost(sha, actions, front, h);
      EveryInterleavingIsInOrder(sha, actions + front);
      InOrderHandles(After(sha, actions + front));
      StepKeepsLost(sha, After(sha, actions + front), last, h);
      AfterMore(sha, actions + front, last);
      assert actions + more == actions + front + [last];
    }
  }

  lemma LookUpFindsNothing(sha: Hash, s: State, t: ThreadId, call: Call)
    requires !call.Create? && call.core !in s.table && ThreadOf(s, t).pc == Busy(call, FirstPoint(call))
    ensures Next(sha, s, Continue(t)) == if s.holder.Some? then s else Finish(s, t, UnknownHandle)
  {
  }

  /**
   * Every call that has not looked a lost core up yet ends with `UnknownHandle` and changes nothing; at most it
   * waits for a `destroy` to give the table back.
   */
  lemma LaterCallsFindNothing(sha: Hash, actions: seq<Action>, more: seq<Action>, t: ThreadId, call: Call)
    requires !call.Create? && Lost(After(sha, actions), call.core)
    requires ThreadOf(After(sha, actions + more), t).pc == Busy(call, FirstPoint(call))
    ensures
      var s := After(sha, actions + more);
      After(sha, actions + more + [Continue(t)]) == if s.holder.Some? then s else Finish(s, t, UnknownHandle)
  {
    hide After, Next;
    LostStaysLost(sha, actions, more, call.core);
    LookUpFindsNothing(sha, After(sha, actions + more), t, call);
    AfterMore(sha, actions + more, Continue(t));
  }

  /** Nobody gets past a look-up of a lost core. */
  lemma OutsideStays(sha: Hash, s: State, a: Action, h: Handle)
    requires Lost(s, h) && !PastLookUp(s, a.thread, h)
    ensures !PastLookUp(Next(sha, s, a), a.thread, h)
  {
    hide Section, LeaseTransition, Refused;
    var pc := ThreadOf(s, a.thread).pc;
    if pc.Busy? {
      SectionEnds(sha, s, a.thread, pc.call);
      if Transitions(pc.call) {
        TransitionEnds(s, a.thread, pc.call);
      }
    }
  }

  /**
   * A lease on a lost core whose owner is not past a look-up of it is stuck: whatever any thread does from
   * then on, it is never acquired, never discarded, never removed.
   */
  lemma {:induction false} LostLeaseIsStuck(
      sha: Hash, actions: seq<Action>, more: seq<Action>, h: Handle, id: nat)
    requires Lost(After(sha, actions), h) && HasTheLease(After(sha, actions), h, id)
    requires !PastLookUp(After(sha, actions), After(sha, actions).objects[h].leases[id].owner, h)
    ensures
      var s, s' := After(sha, actions), After(sha, actions + more);
      && HasTheLease(s', h, id) && s'.objects[h].leases[id] == s.objects[h].leases[id]
      && !PastLookUp(s', s.objects[h].leases[id].owner, h)
    decreases |more|
  {
    hide After, Next, Inv, LockInOrder, PastLookUp;
    if more == [] {
      assert actions + more == actions;
    } else {
      var front, last := more[..|more| - 1], more[|more| - 1];
      LostLeaseIsStuck(sha, actions, front, h, id);
      LostStaysLost(sha, actions, front, h);
      var s, t := After(sha, actions + front), After(sha, actions).objects[h].leases[id].owner;
      EveryInterleavingIsInOrder(sha, actions + front);
      InOrderHandles(s);
      AfterMore(sha, actions + front, last);
      assert actions + more == actions + front + [last];
      if last.thread == t {
        OutsideStays(sha, s, last, h);
        OthersLeaveTheCore(sha, s, last, h);
      } else {
        OnlyTheOwnerMovesALease(sha, s, last, h, id);
        OthersStay(sha, s, last, t);
        PastReads(s, Next(sha, s, last), t, h);
      }
    }
  }
}
