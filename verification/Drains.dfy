/** Which `register` can lose its lease: the others finish their calls, drain the core and take it away. */
module Drains {
  import opened Wrappers
  import opened Bytes
  import opened Cores
  import opened Steps
  import opened LeaseProofs
  import opened Interleavings
  import opened Destroys
  import opened Answers
  import opened Batches
  import opened Staleness
  import opened Registrations

  // The other threads bring the core to its end around a waiting `register`.

  /** The owner is inside a `set_epoch` or `submit` of the core that will raise its epoch or add to its log. */
  predicate WillMove(sha: Hash, s: State, h: Handle)
    requires h in s.objects
  {
    var c := s.objects[h];
    MovesCore(sha, c, ThreadOf(s, c.owner).pc, h)
  }

  predicate MovesCore(sha: Hash, c: Core, pc: Pc, h: Handle) {
    && pc.Busy? && (pc.at == LookUp1 || pc.at == Section1)
    && ((pc.call.SetEpoch? && pc.call.core == h && pc.call.epoch > c.epoch)
        || (pc.call.SubmitBatch? && pc.call.core == h && pc.call.batch != []
            && BatchOutcome(sha, c, c.owner, pc.call.batch, pc.call.expected, pc.call.epoch).Ok?))
  }

  lemma MovesLikewise(sha: Hash, c: Core, c': Core, pc: Pc, h: Handle)
    requires c'.epoch == c.epoch && c'.history == c.history && c'.owner == c.owner
    ensures MovesCore(sha, c', pc, h) == MovesCore(sha, c, pc, h)
  {
    hide ApplyAll;
  }

  /** `t` is about to register on a core of another thread, which holds no lease of `t` and stays as it is. */
  ghost predicate Ripe(sha: Hash, s: State, t: ThreadId, h: Handle) {
    && WouldRegister(s, t, h) && s.objects[h].owner != t && h in s.table && NoLeaseOf(s, t, h)
    && !WillMove(sha, s, h)
  }

  /** The owner's own step, if its call will not move the core. */
  lemma OwnerLeavesTheCore(sha: Hash, s: State, a: Action, h: Handle)
    requires HandlesInOrder(s) && h in s.objects && !WillMove(sha, s, h)
    requires a.thread == s.objects[h].owner && !a.Start?
    ensures
      var s' := Next(sha, s, a);
      && h in s'.objects && s'.objects[h].epoch == s.objects[h].epoch && s'.objects[h].history == s.objects[h].history
      && !MovesCore(sha, s.objects[h], ThreadOf(s', a.thread).pc, h)
  {
    StaysUnmoving(sha, s, a, s.objects[h], h);
    if PastLookUp(s, a.thread, h) {
      var pc := ThreadOf(s, a.thread).pc;
      if pc.call.SubmitBatch? && pc.at == Section1 {
        UnmovingBatch(sha, s.objects[h], pc.call);
      }
      hide Refused, Revision, SetEpochOn, BatchOutcome;
      if pc.call.SetEpoch? && pc.at == Section1 {
        UnmovingEpoch(s.objects[h], a.thread, pc.call.epoch);
      }
    } else {
      hide Next;
      OthersLeaveTheCore(sha, s, a, h);
    }
  }

  lemma UnmovingEpoch(c: Core, t: ThreadId, epoch: u64)
    requires epoch <= c.epoch
    ensures SetEpochOn(c, t, epoch).Ok? ==> SetEpochOn(c, t, epoch).value == c
  {
  }

  lemma UnmovingBatch(sha: Hash, c: Core, call: Call)
    requires call.SubmitBatch?
    requires call.batch == [] || BatchOutcome(sha, c, c.owner, call.batch, call.expected, call.epoch).Err?
    ensures
      var outcome := BatchOutcome(sha, c, c.owner, call.batch, call.expected, call.epoch);
      outcome.Ok? ==> outcome.value.history == c.history && outcome.value.epoch == c.epoch
  {
  }

  lemma StaysUnmoving(sha: Hash, s: State, a: Action, c: Core, h: Handle)
    requires !a.Start? && !MovesCore(sha, c, ThreadOf(s, a.thread).pc, h)
    ensures !MovesCore(sha, c, ThreadOf(Next(sha, s, a), a.thread).pc, h)
  {
    hide Section, LeaseTransition, BatchOutcome;
    var pc := ThreadOf(s, a.thread).pc;
    if pc.Busy? {
      SectionEnds(sha, s, a.thread, pc.call);
      if Transitions(pc.call) {
        TransitionEnds(s, a.thread, pc.call);
      }
    }
  }

  lemma StepKeepsRipe(sha: Hash, s: State, a: Action, t: ThreadId, h: Handle)
    requires Inv(s) && LockInOrder(s) && Ripe(sha, s, t, h) && !Condemned(s, h) && a.thread != t && !a.Start?
    ensures Ripe(sha, Next(sha, s, a), t, h)
  {
    InOrderHandles(s);
    hide Next, Inv, Revision, QuietCore, MovesCore;
    var s', u := Next(sha, s, a), s.objects[h].owner;
    OthersStay(sha, s, a, t);
    OwnersAreKept(sha, s, a, h);
    if a.thread == u {
      OwnerLeavesTheCore(sha, s, a, h);
    } else {
      OthersStay(sha, s, a, u);
      OnlyTheOwnerMovesOn(sha, s, a, h);
    }
    SameLog(s.objects[h], s'.objects[h]);
    MovesLikewise(sha, s.objects[h], s'.objects[h], ThreadOf(s', u).pc, h);
    forall id | HasTheLease(s', h, id) ensures s'.objects[h].leases[id].owner != t {
      LeasesComeFrom(sha, s, a, h, id);
    }
    TableIsKept(sha, s, a);
    if AtUnlist(s, a.thread) {
      assert Unlisting(s, a.thread);
    }
  }

  // Every call comes to its end.

  ghost predicate AllPlaced(s: State) {
    forall t: ThreadId :: WellPlaced(ThreadOf(s, t).pc)
  }

  lemma MoverIsPlaced(sha: Hash, s: State, a: Action)
    requires WellPlaced(ThreadOf(s, a.thread).pc)
    ensures WellPlaced(ThreadOf(Next(sha, s, a), a.thread).pc)
  {
    hide Section, LeaseTransition, Refused;
    var pc := ThreadOf(s, a.thread).pc;
    if pc.Busy? {
      SectionEnds(sha, s, a.thread, pc.call);
      if Transitions(pc.call) {
        TransitionEnds(s, a.thread, pc.call);
      }
    }
  }

  /** No run brings a thread to a section that its call does not have. */
  lemma {:induction false} EveryCallIsPlaced(sha: Hash, actions: seq<Action>)
    ensures AllPlaced(After(sha, actions))
    decreases |actions|
  {
    hide Next, WellPlaced;
    if actions == [] {
      assert WellPlaced(Idle) by { IdleIsPlaced(); }
    } else {
      var front, a := actions[..|actions| - 1], actions[|actions| - 1];
      EveryCallIsPlaced(sha, front);
      var s := After(sha, front);
      forall t: ThreadId ensures WellPlaced(ThreadOf(Next(sha, s, a), t).pc) {
        if t == a.thread {
          MoverIsPlaced(sha, s, a);
        } else {
          OthersStay(sha, s, a, t);
        }
      }
    }
  }

  lemma IdleIsPlaced()
    ensures WellPlaced(Idle)
  {
  }

  function StepsLeft(pc: Pc): nat {
    if pc.Idle? then 0
    else match pc.at
      case LookUp1 => 7
      case Section1 => 6
      case Unlist => 5
      case LookUp2 => 4
      case Transition => 3
      case LookUp3 => 2
      case Removal => 1
  }

  lemma StepAdvances(sha: Hash, s: State, t: ThreadId)
    requires var pc := ThreadOf(s, t).pc; pc.Busy? && WellPlaced(pc) && !Waits(s, pc)
    ensures StepsLeft(ThreadOf(Next(sha, s, Continue(t)), t).pc) < StepsLeft(ThreadOf(s, t).pc)
  {
    hide Section, LeaseTransition;
    var pc := ThreadOf(s, t).pc;
    SectionEnds(sha, s, t, pc.call);
    if Transitions(pc.call) {
      TransitionEnds(s, t, pc.call);
    }
  }

  /** The threads but `t` that are inside a call. */
  function Others(s: State, t: ThreadId): set<ThreadId> {
    set v | v in s.threads && v != t && ThreadOf(s, v).pc.Busy?
  }

  /** Only `v` has moved, and it is outside any call. */
  ghost predicate Returned(s: State, s': State, v: ThreadId) {
    && ThreadOf(s', v).pc == Idle
    && forall u: ThreadId :: u != v ==> ThreadOf(s', u) == ThreadOf(s, u)
  }

  lemma ReturnedIsLess(s: State, s': State, t: ThreadId, v: ThreadId)
    requires Returned(s, s', v) && v in Others(s, t)
    ensures Others(s', t) < Others(s, t)
  {
    forall u | u in Others(s', t) ensures u in Others(s, t) && u != v {
      assert u != v;
      assert ThreadOf(s', u) == ThreadOf(s, u);
    }
  }

  /** Thread `v` alone takes its call to the end, unless the core is condemned before. */
  lemma {:induction false} CallFinishes(sha: Hash, actions: seq<Action>, t: ThreadId, h: Handle, v: ThreadId)
    returns (more: seq<Action>)
    requires Ripe(sha, After(sha, actions), t, h) && v != t
    requires var s := After(sha, actions); s.holder.None? || s.holder == Some(v)
    ensures Without(more, t) && Ripe(sha, After(sha, actions + more), t, h)
    ensures
      var s, s' := After(sha, actions), After(sha, actions + more);
      Condemned(s', h) || Returned(s, s', v)
    decreases StepsLeft(ThreadOf(After(sha, actions), v).pc)
  {
    hide After, Next, Inv, Ripe, Condemned, WellPlaced;
    var s := After(sha, actions);
    if ThreadOf(s, v).pc.Idle? || Condemned(s, h) {
      more := [];
      assert actions + more == actions;
    } else {
      var a := Continue(v);
      EveryInterleavingIsInOrder(sha, actions);
      EveryCallIsPlaced(sha, actions);
      assert WellPlaced(ThreadOf(s, v).pc);
      HolderDoesNotWait(s, v);
      StepAdvances(sha, s, v);
      AfterMore(sha, actions, a);
      StepKeepsRipe(sha, s, a, t, h);
      HolderAfter(sha, s, a);
      var rest := CallFinishes(sha, actions + [a], t, h, v);
      more := [a] + rest;
      assert actions + more == actions + [a] + rest;
      forall u: ThreadId | u != v ensures ThreadOf(After(sha, actions + [a]), u) == ThreadOf(s, u) {
        OthersStay(sha, s, a, u);
      }
    }
  }

  lemma HolderDoesNotWait(s: State, v: ThreadId)
    requires LockInOrder(s) && (s.holder.None? || s.holder == Some(v))
    ensures !Waits(s, ThreadOf(s, v).pc)
  {
    hide QuietCore;
    assert s.holder.Some? ==> Unlisting(s, v);
  }

  lemma HolderAfter(sha: Hash, s: State, a: Action)
    requires Inv(s) && LockInOrder(s) && (s.holder.None? || s.holder == Some(a.thread))
    ensures Next(sha, s, a).holder.None? || Next(sha, s, a).holder == Some(a.thread)
  {
    InOrderHandles(s);
    hide Next, QuietCore, Inv;
    NextKeepsLock(sha, s, a);
    TableIsKept(sha, s, a);
  }

  /** All threads but `t` come to the end of their calls, unless the core is condemned before. */
  lemma {:induction false} OthersFinish(sha: Hash, actions: seq<Action>, t: ThreadId, h: Handle)
    returns (more: seq<Action>)
    requires Ripe(sha, After(sha, actions), t, h)
    ensures Without(more, t) && Ripe(sha, After(sha, actions + more), t, h)
    ensures Condemned(After(sha, actions + more), h) || Others(After(sha, actions + more), t) == {}
    decreases Others(After(sha, actions), t)
  {
    hide After, Next, Inv, Ripe, Condemned;
    var s := After(sha, actions);
    if Condemned(s, h) || Others(s, t) == {} {
      more := [];
      assert actions + more == actions;
    } else {
      EveryInterleavingIsInOrder(sha, actions);
      var v := NextToFinish(sha, s, t, h);
      var first := CallFinishes(sha, actions, t, h, v);
      if Condemned(After(sha, actions + first), h) {
        more := first;
      } else {
        ReturnedIsLess(s, After(sha, actions + first), t, v);
        var rest := OthersFinish(sha, actions + first, t, h);
        more := first + rest;
        assert actions + more == actions + first + rest;
      }
    }
  }

  /** The one that keeps the table goes first. */
  lemma NextToFinish(sha: Hash, s: State, t: ThreadId, h: Handle) returns (v: ThreadId)
    requires LockInOrder(s) && Ripe(sha, s, t, h) && Others(s, t) != {}
    ensures v in Others(s, t) && v != t && (s.holder.None? || s.holder == Some(v))
  {
    hide QuietCore;
    if s.holder.Some? {
      v := s.holder.value;
      assert Unlisting(s, v);
    } else {
      v :| v in Others(s, t);
    }
  }

  // Draining a core, one lease after the other.

  /** A thread outside any call and any callback. */
  predicate Free(s: State, t: ThreadId) {
    ThreadOf(s, t).pc == Idle && !ThreadOf(s, t).inCallback
  }

  /** Nobody but `t` is inside a call, and the table is free. */
  ghost predicate Calm(s: State, t: ThreadId) {
    s.holder.None? && forall v: ThreadId :: v != t ==> ThreadOf(s, v).pc == Idle
  }

  lemma NoOthersIsCalm(sha: Hash, s: State, t: ThreadId, h: Handle)
    requires LockInOrder(s) && Ripe(sha, s, t, h) && Others(s, t) == {}
    ensures Calm(s, t)
  {
    hide QuietCore;
    forall v: ThreadId | v != t ensures ThreadOf(s, v).pc == Idle {
      assert v !in Others(s, t);
    }
    if s.holder.Some? {
      assert false;
    }
  }

  /** `v` is free, nobody else has moved, and only core `h` has changed, to `c`. */
  ghost predicate Leaves(s: State, s': State, v: ThreadId, h: Handle, c: Core) {
    && s'.objects == s.objects[h := c] && s'.table == s.table && s'.holder == s.holder && Free(s', v)
    && forall u: ThreadId :: u != v ==> ThreadOf(s', u) == ThreadOf(s, u)
  }

  lemma AfterThree(sha: Hash, actions: seq<Action>, a: Action, b: Action, c: Action)
    ensures After(sha, actions + [a, b, c]) == Next(sha, Next(sha, Next(sha, After(sha, actions), a), b), c)
  {
    hide After, Next;
    AfterMore(sha, actions, a);
    AfterMore(sha, actions + [a], b);
    AfterMore(sha, actions + [a] + [b], c);
    assert actions + [a, b, c] == actions + [a] + [b] + [c];
  }

  predicate OwnLease(s: State, v: ThreadId, h: Handle, id: nat) {
    && Free(s, v) && s.holder.None? && h in s.table && HasTheLease(s, h, id)
    && s.objects[h].leases[id].owner == v
  }

  function WithoutLease(c: Core, id: nat): Core {
    c.(leases := c.leases - {id})
  }

  lemma DiscardRuns(sha: Hash, s: State, v: ThreadId, h: Handle, id: nat)
    requires OwnLease(s, v, h, id)
    requires var l := s.objects[h].leases[id]; l.state.Registered? || l.state.Acquired?
    ensures
      var call := Discard(h, id, s.objects[h].leases[id].metadata.device);
      var s' := Next(sha, Next(sha, Next(sha, s, Start(v, call)), Continue(v)), Continue(v));
      Leaves(s, s', v, h, WithoutLease(s.objects[h], id))
  {
  }

  lemma CompleteRuns(sha: Hash, s: State, v: ThreadId, h: Handle, id: nat)
    requires OwnLease(s, v, h, id) && s.objects[h].leases[id].state.Submitted?
    ensures
      var c, l := s.objects[h], s.objects[h].leases[id];
      var call := Complete(h, id, l.metadata.device);
      var s' := Next(sha, Next(sha, Next(sha, s, Start(v, call)), Continue(v)), Continue(v));
      var l' := Lease(l.metadata.(state := Completed), Completed, v);
      Leaves(s, s', v, h, c.(leases := c.leases[id := l']))
  {
  }

  /** `retire` up to the mark. */
  lemma RetireStarts(sha: Hash, s: State, v: ThreadId, h: Handle, id: nat)
    requires OwnLease(s, v, h, id) && s.objects[h].leases[id].state.Completed?
    ensures
      var c, l := s.objects[h], s.objects[h].leases[id];
      var call := Retire(h, id, l.metadata.device);
      var s' := Next(sha, Next(sha, Next(sha, s, Start(v, call)), Continue(v)), Continue(v));
      var l' := Lease(l.metadata.(state := Retired), Retired, v);
      && s'.objects == s.objects[h := c.(leases := c.leases[id := l'])]
      && s'.table == s.table && s'.holder == s.holder
      && ThreadOf(s', v).pc == Busy(call, LookUp3) && !ThreadOf(s', v).inCallback
      && forall u: ThreadId :: u != v ==> ThreadOf(s', u) == ThreadOf(s, u)
  {
  }

  lemma RetireEnds(sha: Hash, s: State, v: ThreadId, call: Call)
    requires call.Retire? && ThreadOf(s, v).pc == Busy(call, LookUp3) && !ThreadOf(s, v).inCallback
    requires s.holder.None? && call.core in s.table && HasTheLease(s, call.core, call.lease)
    ensures
      var s' := Next(sha, Next(sha, s, Continue(v)), Continue(v));
      Leaves(s, s', v, call.core, WithoutLease(s.objects[call.core], call.lease))
  {
  }

  lemma LeavingKeepsRipe(sha: Hash, s: State, s': State, t: ThreadId, h: Handle, v: ThreadId, c: Core)
    requires Ripe(sha, s, t, h) && Calm(s, t) && v != t && Leaves(s, s', v, h, c)
    requires c.epoch == s.objects[h].epoch && c.history == s.objects[h].history && c.owner == s.objects[h].owner
    requires forall id | id in c.leases :: c.leases[id].owner != t
    ensures Ripe(sha, s', t, h) && Calm(s', t)
  {
    hide Revision;
    SameLog(s.objects[h], c);
    assert ThreadOf(s', t) == ThreadOf(s, t);
    assert ThreadOf(s', c.owner).pc == Idle;
  }

  /** A retired lease is on its way out. */
  predicate RetiredIsPending(s: State, h: Handle, id: nat)
    requires HasTheLease(s, h, id)
  {
    var l := s.objects[h].leases[id];
    l.state.Retired? ==>
      var pc := ThreadOf(s, l.owner).pc;
      && pc.Busy? && pc.call.Retire? && pc.call.core == h && pc.call.lease == id
      && (pc.at == LookUp3 || pc.at == Removal)
  }

  ghost predicate RetiredArePending(s: State) {
    forall h, id | HasTheLease(s, h, id) :: RetiredIsPending(s, h, id)
  }

  lemma SectionRetiresNone(sha: Hash, s: State, t: ThreadId, call: Call, h: Handle, id: nat)
    requires HandlesInOrder(s)
    requires HasTheLease(Section(sha, s, t, call), h, id)
    requires Section(sha, s, t, call).objects[h].leases[id].state == Retired
    ensures HasTheLease(s, h, id) && s.objects[h].leases[id] == Section(sha, s, t, call).objects[h].leases[id]
  {
    hide BatchOutcome, Revision, AcquireCheck, SubmitCheck;
    if call.SubmitBatch? && call.core in s.objects {
      var c := s.objects[call.core];
      if BatchOutcome(sha, c, t, call.batch, call.expected, call.epoch).Ok? {
        BatchKeepsLeases(sha, c, t, call.batch, call.expected, call.epoch);
      }
    }
  }

  /** The owner of a retired lease has just marked it, or goes on with its `retire`. */
  lemma OwnStepKeepsPending(sha: Hash, s: State, a: Action, h: Handle, id: nat)
    requires HandlesInOrder(s) && RetiredArePending(s) && RetireInOrder(s, a.thread)
    requires HoldsCore(s, a.thread) ==> ThreadOf(s, a.thread).pc.call.core in s.table
    requires HasTheLease(Next(sha, s, a), h, id)
    requires var l := Next(sha, s, a).objects[h].leases[id]; l.state == Retired && l.owner == a.thread
    ensures RetiredIsPending(Next(sha, s, a), h, id)
  {
    hide Section, LeaseTransition, Refused;
    var pc := ThreadOf(s, a.thread).pc;
    if a.Continue? && pc.Busy? && pc.at == Section1 && WellPlaced(pc) && !Waits(s, pc) {
      SectionRetiresNone(sha, s, a.thread, pc.call, h, id);
    } else if a.Continue? && pc.Busy? && pc.at == Transition && WellPlaced(pc) {
      TransitionRetires(s, a.thread, pc.call, h, id);
    } else if a.Continue? && pc.Busy? && pc.at == LookUp3 {
      assert HasTheLease(s, h, id) && RetiredIsPending(s, h, id);
    } else {
      assert HasTheLease(s, h, id) ==> RetiredIsPending(s, h, id);
    }
  }

  lemma TransitionRetires(s: State, t: ThreadId, call: Call, h: Handle, id: nat)
    requires Transitions(call) && RetiredArePending(s) && ThreadOf(s, t).pc == Busy(call, Transition)
    requires HasTheLease(LeaseTransition(s, t, call), h, id)
    requires var l := LeaseTransition(s, t, call).objects[h].leases[id]; l.state == Retired && l.owner == t
    ensures RetiredIsPending(LeaseTransition(s, t, call), h, id)
  {
    assert HasTheLease(s, h, id) ==> RetiredIsPending(s, h, id);
  }

  lemma StepKeepsPending(sha: Hash, s: State, a: Action)
    requires Inv(s) && RetiredArePending(s)
    ensures RetiredArePending(Next(sha, s, a))
  {
    InOrderHandles(s);
    var s' := Next(sha, s, a);
    assert RetireInOrder(s, a.thread);
    assert HoldsCore(s, a.thread) ==> ThreadOf(s, a.thread).pc.call.core in s.table;
    hide Next, Inv;
    forall h, id | HasTheLease(s', h, id) ensures RetiredIsPending(s', h, id) {
      var l := s'.objects[h].leases[id];
      if l.state.Retired? {
        if l.owner == a.thread {
          OwnStepKeepsPending(sha, s, a, h, id);
        } else {
          LeasesComeFrom(sha, s, a, h, id);
          OnlyTheOwnerMovesALease(sha, s, a, h, id);
          OthersStay(sha, s, a, l.owner);
          assert RetiredIsPending(s, h, id);
        }
      }
    }
  }

  /** In every run, a retired lease belongs to a thread that is inside `retire`, about to remove it. */
  lemma {:induction false} RetiredAreRemoved(sha: Hash, actions: seq<Action>)
    ensures RetiredArePending(After(sha, actions))
    decreases |actions|
  {
    hide Next, Inv, LockInOrder;
    if actions != [] {
      var front, a := actions[..|actions| - 1], actions[|actions| - 1];
      RetiredAreRemoved(sha, front);
      EveryInterleavingIsInOrder(sha, front);
      StepKeepsPending(sha, After(sha, front), a);
    }
  }

  lemma CalmHasNoneRetired(s: State, t: ThreadId, h: Handle, id: nat)
    requires RetiredArePending(s) && Calm(s, t) && HasTheLease(s, h, id) && s.objects[h].leases[id].owner != t
    ensures !s.objects[h].leases[id].state.Retired?
  {
    assert RetiredIsPending(s, h, id);
  }

  // One lease less.

  /** The owner of a lease returns from its callback, if it is in one. */
  lemma CallbackEnds(sha: Hash, actions: seq<Action>, t: ThreadId, h: Handle, v: ThreadId)
    requires Ripe(sha, After(sha, actions), t, h) && Calm(After(sha, actions), t) && v != t
    ensures
      var s, s' := After(sha, actions), After(sha, actions + [EndCallback(v)]);
      && Ripe(sha, s', t, h) && Calm(s', t) && Free(s', v) && s'.objects == s.objects
  {
    hide After, Revision;
    AfterMore(sha, actions, EndCallback(v));
    var s := After(sha, actions);
    LeavingKeepsRipe(sha, s, Next(sha, s, EndCallback(v)), t, h, v, s.objects[h]);
  }

  lemma CompletedDrains(sha: Hash, actions: seq<Action>, v: ThreadId, h: Handle, id: nat)
    returns (more: seq<Action>)
    requires OwnLease(After(sha, actions), v, h, id)
    requires After(sha, actions).objects[h].leases[id].state.Completed?
    ensures forall i :: 0 <= i < |more| ==> more[i].thread == v
    ensures
      var s := After(sha, actions);
      Leaves(s, After(sha, actions + more), v, h, WithoutLease(s.objects[h], id))
  {
    hide After, Next;
    var s := After(sha, actions);
    var call := Retire(h, id, s.objects[h].leases[id].metadata.device);
    var first := actions + [Start(v, call), Continue(v), Continue(v)];
    RetireStarts(sha, s, v, h, id);
    AfterThree(sha, actions, Start(v, call), Continue(v), Continue(v));
    RetireEnds(sha, After(sha, first), v, call);
    AfterMore(sha, first, Continue(v));
    AfterMore(sha, first + [Continue(v)], Continue(v));
    more := [Start(v, call), Continue(v), Continue(v), Continue(v), Continue(v)];
    assert actions + more == first + [Continue(v)] + [Continue(v)];
    assert After(sha, first).objects[h].leases - {id} == s.objects[h].leases - {id};
  }

  /** The calls with which its owner ends a lease: `discard`, or `complete` and `retire`. */
  lemma LeaseDrains(sha: Hash, actions: seq<Action>, v: ThreadId, h: Handle, id: nat) returns (more: seq<Action>)
    requires OwnLease(After(sha, actions), v, h, id)
    requires !After(sha, actions).objects[h].leases[id].state.Retired?
    ensures forall i :: 0 <= i < |more| ==> more[i].thread == v
    ensures
      var s := After(sha, actions);
      Leaves(s, After(sha, actions + more), v, h, WithoutLease(s.objects[h], id))
  {
    hide After, Next;
    var s := After(sha, actions);
    var l := s.objects[h].leases[id];
    match l.state
    case Completed => more := CompletedDrains(sha, actions, v, h, id);
    case Submitted =>
      var call := Complete(h, id, l.metadata.device);
      var first := [Start(v, call), Continue(v), Continue(v)];
      CompleteRuns(sha, s, v, h, id);
      AfterThree(sha, actions, Start(v, call), Continue(v), Continue(v));
      var s' := After(sha, actions + first);
      var rest := CompletedDrains(sha, actions + first, v, h, id);
      more := first + rest;
      assert actions + more == actions + first + rest;
      assert s'.objects[h].leases - {id} == s.objects[h].leases - {id};
    case _ =>
      var call := Discard(h, id, l.metadata.device);
      more := [Start(v, call), Continue(v), Continue(v)];
      DiscardRuns(sha, s, v, h, id);
      AfterThree(sha, actions, Start(v, call), Continue(v), Continue(v));
  }

  /** The owners of its leases empty the core. */
  lemma {:induction false} CoreDrains(sha: Hash, actions: seq<Action>, t: ThreadId, h: Handle)
    returns (more: seq<Action>)
    requires Ripe(sha, After(sha, actions), t, h) && Calm(After(sha, actions), t)
    ensures Without(more, t)
    ensures
      var s' := After(sha, actions + more);
      Ripe(sha, s', t, h) && Calm(s', t) && s'.objects[h].leases == map[]
    decreases After(sha, actions).objects[h].leases.Keys
  {
    hide After, Next, Calm, WouldRegister;
    var s := After(sha, actions);
    WouldRegisterIsAtRegister(s, t, h);
    if s.objects[h].leases == map[] {
      more := [];
      assert actions + more == actions;
    } else {
      var id :| id in s.objects[h].leases;
      var v := s.objects[h].leases[id].owner;
      assert HasTheLease(s, h, id);
      CallbackEnds(sha, actions, t, h, v);
      var free := actions + [EndCallback(v)];
      RetiredAreRemoved(sha, free);
      CalmHasNoneRetired(After(sha, free), t, h, id);
      assert OwnLease(After(sha, free), v, h, id) by { CalmIsUnlocked(After(sha, free), t); }
      var first := LeaseDrains(sha, free, v, h, id);
      LeavingKeepsRipe(sha, After(sha, free), After(sha, free + first), t, h, v, WithoutLease(s.objects[h], id));
      var rest := CoreDrains(sha, free + first, t, h);
      more := [EndCallback(v)] + first + rest;
      assert actions + more == free + first + rest;
    }
  }

  lemma CalmIsUnlocked(s: State, t: ThreadId)
    requires Calm(s, t)
    ensures s.holder.None?
  {
  }

  lemma EmptyCoreIsFound(sha: Hash, s: State, u: ThreadId, h: Handle)
    requires Free(s, u) && FoundEmpty(s, u, h)
    ensures
      var s' := Next(sha, Next(sha, s, Start(u, Destroy(h))), Continue(u));
      && s' == Goto(s, u, Destroy(h), Unlist).(holder := Some(u))
      && Unlists(s', u, h) && forall v: ThreadId :: v != u ==> ThreadOf(s', v) == ThreadOf(s, v)
  {
  }

  /** The owner of the empty core starts to take it away. */
  lemma CoreIsCondemned(sha: Hash, actions: seq<Action>, t: ThreadId, h: Handle) returns (more: seq<Action>)
    requires
      var s := After(sha, actions);
      Ripe(sha, s, t, h) && Calm(s, t) && s.objects[h].leases == map[]
    ensures Without(more, t)
    ensures WouldRegister(After(sha, actions + more), t, h) && Condemned(After(sha, actions + more), h)
  {
    hide After, Next, Revision;
    var u := After(sha, actions).objects[h].owner;
    CallbackEnds(sha, actions, t, h, u);
    var free := actions + [EndCallback(u)];
    EmptyCoreIsFound(sha, After(sha, free), u, h);
    AfterMore(sha, free, Start(u, Destroy(h)));
    AfterMore(sha, free + [Start(u, Destroy(h))], Continue(u));
    more := [EndCallback(u), Start(u, Destroy(h)), Continue(u)];
    assert actions + more == free + [Start(u, Destroy(h))] + [Continue(u)];
    var s' := After(sha, actions + more);
    assert ThreadOf(s', t) == ThreadOf(After(sha, free), t);
  }

  /** Without a step of `t`, the other threads condemn the core on which `t` is about to register. */
  lemma OthersCondemn(sha: Hash, actions: seq<Action>, t: ThreadId, h: Handle) returns (more: seq<Action>)
    requires Ripe(sha, After(sha, actions), t, h)
    ensures Without(more, t)
    ensures WouldRegister(After(sha, actions + more), t, h) && Condemned(After(sha, actions + more), h)
  {
    hide After, Next, Inv, LockInOrder, WouldRegister, Condemned, Calm;
    more := OthersFinish(sha, actions, t, h);
    if !Condemned(After(sha, actions + more), h) {
      EveryInterleavingIsInOrder(sha, actions + more);
      NoOthersIsCalm(sha, After(sha, actions + more), t, h);
      var drain := CoreDrains(sha, actions + more, t, h);
      var last := CoreIsCondemned(sha, actions + more + drain, t, h);
      assert actions + (more + drain + last) == actions + more + drain + last;
      more := more + drain + last;
    }
  }

  // When the owner is about to move the core.

  lemma {:induction false} ThreadWaits(sha: Hash, actions: seq<Action>, more: seq<Action>, t: ThreadId)
    requires Without(more, t)
    ensures ThreadOf(After(sha, actions + more), t) == ThreadOf(After(sha, actions), t)
    decreases |more|
  {
    hide After, Next;
    if more == [] {
      assert actions + more == actions;
    } else {
      var front, last := more[..|more| - 1], more[|more| - 1];
      ThreadWaits(sha, actions, front, t);
      AfterMore(sha, actions + front, last);
      assert actions + more == actions + front + [last];
      OthersStay(sha, After(sha, actions + front), last, t);
    }
  }

  /** The core is where it was when the owner began to move it. */
  predicate StillMoving(sha: Hash, s0: State, s: State, h: Handle)
    requires h in s0.objects
  {
    && h in s.table && h in s.objects && WillMove(sha, s, h) && s.objects[h].owner == s0.objects[h].owner
    && s.objects[h].epoch == s0.objects[h].epoch && s.objects[h].accepted == s0.objects[h].accepted
  }

  predicate HasMoved(s0: State, s: State, h: Handle)
    requires h in s0.objects
  {
    h in s.objects
    && (s.objects[h].epoch > s0.objects[h].epoch || |s.objects[h].accepted| > |s0.objects[h].accepted|)
  }

  lemma BusyDoesNotStart(sha: Hash, s: State, a: Action)
    requires ThreadOf(s, a.thread).pc.Busy? && !a.Continue?
    ensures Next(sha, s, a) == s
  {
  }

  lemma SetEpochMoves(sha: Hash, s: State, t: ThreadId, h: Handle)
    requires h in s.objects && s.objects[h].owner == t
    requires
      var pc := ThreadOf(s, t).pc;
      pc.Busy? && pc.at == Section1 && pc.call.SetEpoch? && pc.call.core == h && pc.call.epoch > s.objects[h].epoch
    ensures HasMoved(s, Next(sha, s, Continue(t)), h)
  {
  }

  lemma MovingCoreMoves(sha: Hash, s: State, a: Action, h: Handle)
    requires HandlesInOrder(s) && h in s.objects && h in s.table && WillMove(sha, s, h)
    requires a.thread == s.objects[h].owner
    ensures StillMoving(sha, s, Next(sha, s, a), h) || HasMoved(s, Next(sha, s, a), h)
  {
    hide Next, BatchOutcome;
    var t, pc := a.thread, ThreadOf(s, a.thread).pc;
    if !a.Continue? {
      BusyDoesNotStart(sha, s, a);
    } else if pc.at == LookUp1 {
      LookUpAnswers(sha, s, t);
    } else if pc.call.SetEpoch? {
      SetEpochMoves(sha, s, t, h);
    } else {
      BatchSection(sha, s, t, pc.call);
      AcceptedBatchExpected(sha, s.objects[h], t, pc.call.batch, pc.call.expected, pc.call.epoch);
    }
  }

  lemma OthersLetMove(sha: Hash, s: State, a: Action, h: Handle)
    requires HandlesInOrder(s) && LockInOrder(s) && h in s.objects && h in s.table && WillMove(sha, s, h)
    requires a.thread != s.objects[h].owner
    ensures StillMoving(sha, s, Next(sha, s, a), h)
  {
    hide Next, MovesCore;
    var s' := Next(sha, s, a);
    OnlyTheOwnerChangesACore(sha, s, a, h);
    OnlyTheOwnerMovesOn(sha, s, a, h);
    OthersStay(sha, s, a, s.objects[h].owner);
    MovesLikewise(sha, s.objects[h], s'.objects[h], ThreadOf(s', s.objects[h].owner).pc, h);
  }

  /** Whatever runs, the owner is still inside its call, or has raised the epoch or added to the log. */
  lemma {:induction false} MovesOrHasMoved(sha: Hash, actions: seq<Action>, more: seq<Action>, h: Handle)
    requires
      var s := After(sha, actions);
      h in s.objects && h in s.table && WillMove(sha, s, h)
    ensures
      var s0, s := After(sha, actions), After(sha, actions + more);
      StillMoving(sha, s0, s, h) || HasMoved(s0, s, h)
    decreases |more|
  {
    hide After, Next, Inv, LockInOrder, WillMove;
    if more == [] {
      assert actions + more == actions;
    } else {
      var front, last := more[..|more| - 1], more[|more| - 1];
      MovesOrHasMoved(sha, actions, front, h);
      var s := After(sha, actions + front);
      EveryInterleavingIsInOrder(sha, actions + front);
      InOrderHandles(s);
      AfterMore(sha, actions + front, last);
      assert actions + more == actions + front + [last];
      if HasMoved(After(sha, actions), s, h) {
        EpochsNeverDecrease(sha, actions + front, [last], h);
        EpochsNeverDecrease(sha, actions, front, h);
        AcceptedStays(sha, actions, front, h);
        AcceptedStays(sha, actions + front, [last], h);
      } else if last.thread == s.objects[h].owner {
        MovingCoreMoves(sha, s, last, h);
      } else {
        OthersLetMove(sha, s, last, h);
      }
    }
  }

  lemma MovingIsNotCondemned(sha: Hash, s: State, h: Handle)
    requires LockInOrder(s) && h in s.objects && h in s.table && WillMove(sha, s, h)
    ensures !Condemned(s, h)
  {
    hide QuietCore;
    if s.holder.Some? {
      assert Unlisting(s, s.holder.value);
    }
  }

  ghost predicate CoreRepeats(sha: Hash, s: State, h: Handle) {
    h in s.objects && Repeats(sha, s.objects[h].accepted)
  }

  lemma RegisteringWouldRegister(sha: Hash, s: State, t: ThreadId, h: Handle, id: nat)
    requires Next(sha, s, Continue(t)).trace == s.trace + [Event(t, RegisterOp, h, id)]
    ensures WouldRegister(s, t, h)
  {
    hide Revision;
    RecordedIsPerformed(sha, s, Continue(t), Event(t, RegisterOp, h, id));
  }

  /** An owner that moves the core first makes it refuse the `register`, unless the log repeats a revision. */
  lemma MovingSaves(
      sha: Hash, actions: seq<Action>, before: seq<Action>, later: seq<Action>, t: ThreadId, h: Handle, id: nat)
    requires
      var s := After(sha, actions);
      WouldRegister(s, t, h) && h in s.table && WillMove(sha, s, h)
    requires Without(before, t) && LosesIt(sha, actions + before, later, t, h, id)
    ensures CoreRepeats(sha, After(sha, actions + before), h)
  {
    hide After, Next, Revision, WillMove, Condemned, LockInOrder, Inv, Repeats;
    var run := actions + before;
    LostIsCondemned(sha, run, later, t, h, id);
    AfterMore(sha, run, Continue(t));
    RegisteringWouldRegister(sha, After(sha, run), t, h, id);
    ThreadWaits(sha, actions, before, t);
    MovesOrHasMoved(sha, actions, before, h);
    EveryInterleavingIsInOrder(sha, run);
    if StillMoving(sha, After(sha, actions), After(sha, run), h) {
      MovingIsNotCondemned(sha, After(sha, run), h);
    } else {
      RevisionNamesTheLog(sha, actions, before, h);
    }
  }

  /**
   * A thread at a `register` that its core would accept can lose the lease exactly if the core is already
   * condemned, or the thread neither owns the core nor has a lease on it, and the owner is not about to raise
   * the epoch or add to the log. The only exception is a log that repeats a revision.
   */
  lemma RegisterCanLoseExactly(sha: Hash, actions: seq<Action>, t: ThreadId, h: Handle)
    requires WouldRegister(After(sha, actions), t, h)
    ensures
      var s := After(sha, actions);
      var losing := Condemned(s, h) || (s.objects[h].owner != t && NoLeaseOf(s, t, h) && !WillMove(sha, s, h));
      && (losing ==> CanLose(sha, actions, t, h))
      && (CanLose(sha, actions, t, h) ==>
            losing || exists before :: Without(before, t) && CoreRepeats(sha, After(sha, actions + before), h))
  {
    hide After, Next, Condemned, CanLose, NoLeaseOf, WillMove, CoreRepeats, Without;
    var s := After(sha, actions);
    if Condemned(s, h) {
      assert actions + [] == actions;
      assert Without([], t) by { NothingIsWithout(t); }
      CondemnedLoses(sha, actions, [], t, h);
    } else if s.objects[h].owner == t || !NoLeaseOf(s, t, h) {
      SafeThreadsNeverLose(sha, actions, t, h);
    } else {
      NotCondemnedIsListed(s, h);
      if !WillMove(sha, s, h) {
        var before := OthersCondemn(sha, actions, t, h);
        CondemnedLoses(sha, actions, before, t, h);
      } else if CanLose(sha, actions, t, h) {
        var before, later, id := LossOf(sha, actions, t, h);
        MovingSaves(sha, actions, before, later, t, h, id);
      }
    }
  }

  lemma LossOf(sha: Hash, actions: seq<Action>, t: ThreadId, h: Handle)
    returns (before: seq<Action>, later: seq<Action>, id: nat)
    requires CanLose(sha, actions, t, h)
    ensures Without(before, t) && LosesIt(sha, actions + before, later, t, h, id)
  {
    before, later, id :| Without(before, t) && LosesIt(sha, actions + before, later, t, h, id);
  }

  lemma NothingIsWithout(t: ThreadId)
    ensures Without([], t)
  {
  }

  lemma NotCondemnedIsListed(s: State, h: Handle)
    requires !Condemned(s, h)
    ensures h in s.table
  {
  }
}
