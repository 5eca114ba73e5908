/** What every interleaving of the C ABI's calls guarantees to its callers. */
module Interleavings {
  import opened Wrappers
  import opened Bytes
  import opened ProjectCodec
  import opened Cores
  import opened Steps
  import opened LeaseProofs

  // The life of a lease, as words over its operations.

  /** The successful operations on one lease, in order. */
  function OpsOf(trace: seq<Event>, id: nat): seq<Event> {
    if trace == [] then []
    else
      var before := OpsOf(trace[..|trace| - 1], id);
      var e := trace[|trace| - 1];
      if e.lease == id then before + [e] else before
  }

  function Word(ops: seq<Event>): (w: seq<LeaseOp>)
    ensures |w| == |ops|
  {
    seq(|ops|, i requires 0 <= i < |ops| => ops[i].op)
  }

  const FULL_LIFE: seq<LeaseOp> := [RegisterOp, AcquireOp, SubmitOp, CompleteOp, RetireOp]

  /** register (discard | acquire (discard | submit complete retire)), and every prefix of it. */
  predicate InProtocol(w: seq<LeaseOp>) {
    w <= FULL_LIFE || w == [RegisterOp, DiscardOp] || w == [RegisterOp, AcquireOp, DiscardOp]
  }

  predicate AllBy(ops: seq<Event>, core: Handle, owner: ThreadId) {
    forall i :: 0 <= i < |ops| ==> ops[i].core == core && ops[i].thread == owner
  }

  function Progress(state: LeaseState): nat {
    match state
    case Registered => 1
    case Acquired => 2
    case Submitted => 3
    case Completed => 4
    case Retired => 5
  }

  ghost predicate Reads(st: Status, ops: seq<Event>) {
    match st
    case Unused => ops == []
    case At(state, core, owner) => AllBy(ops, core, owner) && Word(ops) == FULL_LIFE[..Progress(state)]
    case Gone => (exists core, owner :: AllBy(ops, core, owner)) && InProtocol(Word(ops))
    case Broken => true
  }

  lemma FollowReads(st: Status, ops: seq<Event>, e: Event)
    requires Reads(st, ops)
    ensures Reads(Follow(st, e), ops + [e])
  {
    assert Word(ops + [e]) == Word(ops) + [e.op];
    if st.At? && Follow(st, e).Gone? {
      assert AllBy(ops + [e], st.core, st.owner);
      assert Word(ops + [e]) == FULL_LIFE[..Progress(st.state)] + [DiscardOp];
    }
  }

  lemma {:induction false} StatusReadsOps(trace: seq<Event>, id: nat)
    ensures Reads(StatusOf(trace, id), OpsOf(trace, id))
  {
    hide Reads, Follow;
    if trace != [] {
      StatusReadsOps(trace[..|trace| - 1], id);
      FollowReads(StatusOf(trace[..|trace| - 1], id), OpsOf(trace[..|trace| - 1], id), trace[|trace| - 1]);
    } else {
      assert Reads(Unused, []) by { EmptyReads(); }
    }
  }

  lemma EmptyReads()
    ensures Reads(Unused, [])
  {
  }

  /**
   * The successful operations on a lease id are always a prefix of its protocol, all on one core and by one
   * thread. While the lease exists, that thread owns it and its state is the one the operations lead to.
   */
  lemma EveryLeaseFollowsProtocol(sha: Hash, actions: seq<Action>, id: nat)
    ensures
      var ops := OpsOf(After(sha, actions).trace, id);
      InProtocol(Word(ops)) && exists core, owner :: AllBy(ops, core, owner)
  {
    hide After;
    EveryInterleavingIsInOrder(sha, actions);
    var trace := After(sha, actions).trace;
    StatusReadsOps(trace, id);
    var st := StatusOf(trace, id);
    if st.Unused? {
      assert AllBy(OpsOf(trace, id), 0, 0);
    } else if st.At? {
      assert AllBy(OpsOf(trace, id), st.core, st.owner);
    }
  }

  lemma LeaseStateIsItsHistory(sha: Hash, actions: seq<Action>, h: Handle, id: nat)
    requires var s := After(sha, actions); h in s.objects && id in s.objects[h].leases
    ensures
      var s := After(sha, actions);
      var lease := s.objects[h].leases[id];
      && lease.metadata.state == lease.state
      && AllBy(OpsOf(s.trace, id), h, lease.owner)
      && Word(OpsOf(s.trace, id)) == FULL_LIFE[..Progress(lease.state)]
  {
    hide After;
    EveryInterleavingIsInOrder(sha, actions);
    StatusReadsOps(After(sha, actions).trace, id);
    assert LeaseInOrder(After(sha, actions), h, id);
  }

  // Epochs.

  lemma StepKeepsEpoch(sha: Hash, s: State, a: Action, h: Handle)
    requires h in s.objects && HandlesInOrder(s)
    ensures h in Next(sha, s, a).objects && s.objects[h].epoch <= Next(sha, s, a).objects[h].epoch
  {
    hide BatchOutcome, Refused, Revision;
    var pc := ThreadOf(s, a.thread).pc;
    if pc.Busy? && pc.call.SubmitBatch? && pc.call.core in s.objects {
      var c, call := s.objects[pc.call.core], pc.call;
      if BatchOutcome(sha, c, a.thread, call.batch, call.expected, call.epoch).Ok? {
        BatchKeepsLeases(sha, c, a.thread, call.batch, call.expected, call.epoch);
      }
    }
  }

  lemma AfterMore(sha: Hash, actions: seq<Action>, a: Action)
    ensures After(sha, actions + [a]) == Next(sha, After(sha, actions), a)
  {
    hide Next;
    assert (actions + [a])[..|actions|] == actions;
  }

  /** Core epochs never decrease. */
  lemma {:induction false} EpochsNeverDecrease(sha: Hash, actions: seq<Action>, more: seq<Action>, h: Handle)
    requires h in After(sha, actions).objects
    ensures h in After(sha, actions + more).objects
    ensures After(sha, actions).objects[h].epoch <= After(sha, actions + more).objects[h].epoch
    decreases |more|
  {
    hide After, Next;
    if more == [] {
      assert actions + more == actions;
    } else {
      var front, last := more[..|more| - 1], more[|more| - 1];
      EpochsNeverDecrease(sha, actions, front, h);
      EveryInterleavingIsInOrder(sha, actions + front);
      StepKeepsEpoch(sha, After(sha, actions + front), last, h);
      AfterMore(sha, actions + front, last);
      assert actions + more == actions + front + [last];
    }
  }

  /** No lease carries an epoch above its core's. */
  lemma NoLeaseFromTheFuture(sha: Hash, actions: seq<Action>, h: Handle, id: nat)
    requires var s := After(sha, actions); h in s.objects && id in s.objects[h].leases
    ensures var c := After(sha, actions).objects[h]; c.leases[id].metadata.epoch <= c.epoch
  {
    hide After, StatusOf;
    EveryInterleavingIsInOrder(sha, actions);
    assert LeaseInOrder(After(sha, actions), h, id);
  }

  // The table.

  /**
   * A core leaves the table only in the last section of its owner's `destroy`, and never while a thread is
   * between the sections of a call on a lease of its own in that core.
   */
  lemma CoreLeavesByItsOwner(sha: Hash, actions: seq<Action>, a: Action, h: Handle)
    requires h in After(sha, actions).table && h !in After(sha, actions + [a]).table
    ensures
      var s := After(sha, actions);
      && h in s.objects && a == Continue(s.objects[h].owner)
      && ThreadOf(s, s.objects[h].owner).pc == Busy(Destroy(h), Unlist)
      && QuietCore(s, h)
  {
    hide After, Next, Inv, QuietCore;
    var s := After(sha, actions);
    EveryInterleavingIsInOrder(sha, actions);
    AfterMore(sha, actions, a);
    TableIsKept(sha, s, a);
    assert AtUnlist(s, a.thread);
    assert Unlisting(s, a.thread);
  }

  /** The next step of the thread that keeps the table gives it back. */
  lemma TableIsGivenBack(sha: Hash, actions: seq<Action>)
    requires After(sha, actions).holder.Some?
    ensures
      var s := After(sha, actions);
      var w := s.holder.value;
      var s' := After(sha, actions + [Continue(w)]);
      && AtUnlist(s, w) && ThreadOf(s, w).pc.call.Destroy?
      && s'.holder.None? && s'.table == s.table - {ThreadOf(s, w).pc.call.core} && s'.objects == s.objects
      && s'.trace == s.trace && s'.next == s.next
      && (forall u: ThreadId :: u != w ==> ThreadOf(s', u) == ThreadOf(s, u))
      && ThreadOf(s, w).pc.call.core in s.objects && s.objects[ThreadOf(s, w).pc.call.core].owner == w
  {
    hide After, Next, Inv, QuietCore;
    var s := After(sha, actions);
    EveryInterleavingIsInOrder(sha, actions);
    var w := s.holder.value;
    assert Unlisting(s, w);
    TableIsKept(sha, s, Continue(w));
    AfterMore(sha, actions, Continue(w));
  }

  /**
   * Once `retire` has marked its lease, its second look-up and its removal cannot fail; at most the look-up
   * waits for a `destroy` to give the table back.
   */
  lemma RetireAlwaysFinishes(sha: Hash, actions: seq<Action>, t: ThreadId)
    requires var pc := ThreadOf(After(sha, actions), t).pc; pc.Busy? && (pc.at == LookUp3 || pc.at == Removal)
    ensures
      var s, s' := After(sha, actions), After(sha, actions + [Continue(t)]);
      var pc := ThreadOf(s, t).pc;
      && pc.call.Retire?
      && (pc.at == LookUp3 ==> ThreadOf(s', t).pc == if s.holder.Some? then pc else Busy(pc.call, Removal))
      && (pc.at == Removal ==>
            && ThreadOf(s', t).pc == Idle && ThreadOf(s', t).last == Some(Success)
            && pc.call.core in s'.objects && pc.call.lease !in s'.objects[pc.call.core].leases)
  {
    hide After, StatusOf, LockInOrder;
    EveryInterleavingIsInOrder(sha, actions);
    var s := After(sha, actions);
    assert RetireInOrder(s, t);
    assert HoldsCore(s, t);
    AfterMore(sha, actions, Continue(t));
  }

  // Leases that a step leaves alone.

  lemma CoreSectionKeepsLease(sha: Hash, s: State, t: ThreadId, call: Call, h: Handle, id: nat)
    requires !call.Create? && !call.Destroy? && call.core in s.objects
    requires HasTheLease(s, h, id) && s.objects[h].leases[id].owner != t && id < s.next
    ensures
      var s' := CoreSection(sha, s, t, call, s.objects[call.core]);
      HasTheLease(s', h, id) && s'.objects[h].leases[id] == s.objects[h].leases[id]
  {
    hide BatchOutcome, Revision;
    if call.SubmitBatch? {
      var c := s.objects[call.core];
      if BatchOutcome(sha, c, t, call.batch, call.expected, call.epoch).Ok? {
        BatchKeepsLeases(sha, c, t, call.batch, call.expected, call.epoch);
      }
    }
  }

  lemma SectionKeepsLease(sha: Hash, s: State, t: ThreadId, call: Call, h: Handle, id: nat)
    requires HandlesInOrder(s) && HasTheLease(s, h, id) && s.objects[h].leases[id].owner != t && id < s.next
    ensures
      var s' := Section(sha, s, t, call);
      HasTheLease(s', h, id) && s'.objects[h].leases[id] == s.objects[h].leases[id]
  {
    hide CoreSection;
    if !call.Create? && !call.Destroy? && call.core in s.objects {
      CoreSectionKeepsLease(sha, s, t, call, h, id);
    }
  }

  lemma TransitionKeepsLease(s: State, t: ThreadId, call: Call, h: Handle, id: nat)
    requires Transitions(call) && HasTheLease(s, h, id) && s.objects[h].leases[id].owner != t
    ensures
      var s' := LeaseTransition(s, t, call);
      HasTheLease(s', h, id) && s'.objects[h].leases[id] == s.objects[h].leases[id]
  {
  }

  /** A thread that does not own a lease leaves it exactly as it is, whatever it does. */
  lemma OnlyTheOwnerMovesALease(sha: Hash, s: State, a: Action, h: Handle, id: nat)
    requires Inv(s) && HasTheLease(s, h, id) && s.objects[h].leases[id].owner != a.thread
    ensures
      var s' := Next(sha, s, a);
      HasTheLease(s', h, id) && s'.objects[h].leases[id] == s.objects[h].leases[id]
  {
    HandedOutBelowNext(s, h);
    assert RetireInOrder(s, a.thread);
    hide Section, LeaseTransition, Refused, LeasesInOrder, TraceInOrder, CoresHeld;
    var pc := ThreadOf(s, a.thread).pc;
    if a.Continue? && pc.Busy? && WellPlaced(pc) && !Waits(s, pc) {
      match pc.at
      case Section1 => SectionKeepsLease(sha, s, a.thread, pc.call, h, id);
      case Transition => TransitionKeepsLease(s, a.thread, pc.call, h, id);
      case _ =>
    }
  }

  // Who may change what.

  lemma OnlyTheOwnerMovesOn(sha: Hash, s: State, a: Action, h: Handle)
    requires h in s.objects && HandlesInOrder(s)
    ensures h in Next(sha, s, a).objects
    ensures
      var c, c' := s.objects[h], Next(sha, s, a).objects[h];
      c'.history != c.history || c'.epoch != c.epoch || c'.accepted != c.accepted ==> a == Continue(c.owner)
  {
    hide BatchOutcome, Refused, Revision, AcquireCheck, SubmitCheck, WellPlaced;
    var pc := ThreadOf(s, a.thread).pc;
    if a.Continue? && pc.Busy? && pc.at == Section1 && pc.call.SubmitBatch? && pc.call.core in s.objects {
      OwnerSubmits(sha, s.objects[pc.call.core], a.thread, pc.call);
    }
  }

  /** Only its owner changes a core's history or epoch, or takes it out of the table. */
  lemma OnlyTheOwnerChangesACore(sha: Hash, s: State, a: Action, h: Handle)
    requires h in s.objects && HandlesInOrder(s) && LockInOrder(s)
    ensures h in Next(sha, s, a).objects && Next(sha, s, a).objects[h].owner == s.objects[h].owner
    ensures
      var c, c' := s.objects[h], Next(sha, s, a).objects[h];
      (c'.history != c.history || c'.epoch != c.epoch || (h in s.table && h !in Next(sha, s, a).table))
        ==> a == Continue(c.owner)
  {
    hide Next, QuietCore;
    OnlyTheOwnerMovesOn(sha, s, a, h);
    OwnersAreKept(sha, s, a, h);
    TableIsKept(sha, s, a);
    if AtUnlist(s, a.thread) {
      assert Unlisting(s, a.thread);
    }
  }

  lemma OwnerSubmits(sha: Hash, c: Core, t: ThreadId, call: Call)
    requires call.SubmitBatch?
    ensures
      var outcome := BatchOutcome(sha, c, t, call.batch, call.expected, call.epoch);
      outcome.Ok? ==> c.owner == t == outcome.value.owner
  {
    hide ApplyAll, Revision, EncodeProject;
  }

  /** The section that thread `t` of `e` stands at succeeds, and `e` is what it records. */
  predicate Performs(s: State, e: Event) {
    var pc, t := ThreadOf(s, e.thread).pc, e.thread;
    && pc.Busy? && (pc.call.Register? || HasLease(pc.call)) && pc.call.core == e.core && e.core in s.objects
    && (HasLease(pc.call) ==> pc.call.lease == e.lease)
    && match e.op
       case RegisterOp =>
         pc.at == Section1 && pc.call.Register? && RegisterOn(s.objects[e.core], t, pc.call.metadata, s.next).Ok?
       case DiscardOp =>
         pc.at == Section1 && pc.call.Discard? && DiscardOn(s.objects[e.core], t, e.lease, pc.call.device).Ok?
       case _ =>
         && pc.at == Transition && Transitions(pc.call) && OpOf(pc.call) == e.op
         && var c := s.objects[e.core];
            TransitionOn(c, t, e.lease, pc.call.device, Expected(pc.call), Target(pc.call)).Ok?
  }

  lemma QuietSection(sha: Hash, s: State, t: ThreadId, call: Call)
    requires !call.Register? && !call.Discard?
    ensures Section(sha, s, t, call).trace == s.trace
  {
    hide BatchOutcome, SetEpochOn, AcquireCheck, SubmitCheck;
  }

  lemma NoEvent(trace: seq<Event>, e: Event)
    ensures trace != trace + [e]
  {
  }

  lemma SectionPerforms(sha: Hash, s: State, e: Event)
    requires
      var pc := ThreadOf(s, e.thread).pc;
      pc.Busy? && pc.at == Section1 && Section(sha, s, e.thread, pc.call).trace == s.trace + [e]
    ensures Performs(s, e)
  {
    hide RegisterOn, DiscardOn, TransitionOn, CoreSection;
    var t, call := e.thread, ThreadOf(s, e.thread).pc.call;
    NoEvent(s.trace, e);
    if !call.Register? && !call.Discard? {
      QuietSection(sha, s, t, call);
    } else if call.core in s.objects {
      assert (s.trace + [e])[|s.trace|] == e;
      if call.Register? {
        RegisterSection(sha, s, t, call, s.objects[call.core]);
      } else {
        DiscardPerforms(sha, s, t, call, s.objects[call.core]);
      }
    }
  }

  lemma DiscardPerforms(sha: Hash, s: State, t: ThreadId, call: Call, c: Core)
    requires call.Discard?
    ensures
      var s' := CoreSection(sha, s, t, call, c);
      s'.trace == if DiscardOn(c, t, call.lease, call.device).Ok?
        then s.trace + [Event(t, DiscardOp, call.core, call.lease)] else s.trace
  {
    hide DiscardOn;
  }

  lemma TransitionPerforms(s: State, e: Event)
    requires
      var pc := ThreadOf(s, e.thread).pc;
      && pc.Busy? && pc.at == Transition && Transitions(pc.call)
      && LeaseTransition(s, e.thread, pc.call).trace == s.trace + [e]
    ensures Performs(s, e)
  {
    hide TransitionOn, RegisterOn, DiscardOn;
    NoEvent(s.trace, e);
    assert (s.trace + [e])[|s.trace|] == e;
  }

  lemma EventIsByItsThread(sha: Hash, s: State, a: Action, e: Event)
    requires Next(sha, s, a).trace == s.trace + [e]
    ensures a == Continue(e.thread) && WellPlaced(ThreadOf(s, e.thread).pc)
    ensures var pc := ThreadOf(s, e.thread).pc; pc.Busy? && (pc.at == Section1 || pc.at == Transition)
  {
    hide BatchOutcome, Refused, RegisterOn, DiscardOn, TransitionOn, SetEpochOn, AcquireCheck, SubmitCheck, RemoveOn;
    assert (s.trace + [e])[|s.trace|] == e;
  }

  /** What a step records, the section that it takes has done. */
  lemma RecordedIsPerformed(sha: Hash, s: State, a: Action, e: Event)
    requires Next(sha, s, a).trace == s.trace + [e]
    ensures a == Continue(e.thread) && Performs(s, e)
  {
    hide Section, LeaseTransition, Performs;
    EventIsByItsThread(sha, s, a, e);
    if ThreadOf(s, e.thread).pc.at == Section1 {
      SectionPerforms(sha, s, e);
    } else {
      TransitionPerforms(s, e);
    }
  }

  /** A successful operation on a lease is by the lease's owner and names the lease's device. */
  lemma OperationsNameOwnerAndDevice(sha: Hash, s: State, a: Action, e: Event)
    requires Next(sha, s, a).trace == s.trace + [e] && e.op != RegisterOp
    ensures e.core in s.objects && e.lease in s.objects[e.core].leases
    ensures
      var lease := s.objects[e.core].leases[e.lease];
      var pc := ThreadOf(s, e.thread).pc;
      && a == Continue(e.thread) && lease.owner == e.thread
      && pc.Busy? && HasLease(pc.call) && pc.call.device == lease.metadata.device
  {
    hide Next;
    RecordedIsPerformed(sha, s, a, e);
  }

  // Callbacks.

  /** Inside a callback a thread runs nothing but `create`. */
  ghost predicate CallbacksQuiet(s: State) {
    forall t: ThreadId :: ThreadOf(s, t).inCallback && ThreadOf(s, t).pc.Busy? ==> ThreadOf(s, t).pc.call.Create?
  }

  lemma AdvanceKeepsCallbacksQuiet(sha: Hash, s: State, t: ThreadId)
    requires CallbacksQuiet(s)
    ensures CallbacksQuiet(Next(sha, s, Continue(t)))
  {
    hide Section, LeaseTransition;
    var pc := ThreadOf(s, t).pc;
    var s' := Next(sha, s, Continue(t));
    forall u: ThreadId | u != t ensures ThreadOf(s', u) == ThreadOf(s, u) {
      OthersStay(sha, s, Continue(t), u);
    }
    if pc.Busy? {
      SectionEnds(sha, s, t, pc.call);
      FlagAfterSection(sha, s, t, pc.call);
      if Transitions(pc.call) {
        TransitionEnds(s, t, pc.call);
        FlagAfterTransition(s, t, pc.call);
      }
    }
  }

  lemma FlagAfterSection(sha: Hash, s: State, t: ThreadId, call: Call)
    ensures
      var s' := Section(sha, s, t, call);
      ThreadOf(s', t).pc.Busy? ==> ThreadOf(s', t).inCallback == ThreadOf(s, t).inCallback
  {
    hide BatchOutcome, Revision;
  }

  lemma FlagAfterTransition(s: State, t: ThreadId, call: Call)
    requires Transitions(call)
    ensures ThreadOf(LeaseTransition(s, t, call), t).inCallback == ThreadOf(s, t).inCallback
  {
  }

  lemma {:induction false} CallbacksStayQuiet(sha: Hash, actions: seq<Action>)
    ensures CallbacksQuiet(After(sha, actions))
  {
    hide Next;
    if actions != [] {
      var s, a := After(sha, actions[..|actions| - 1]), actions[|actions| - 1];
      CallbacksStayQuiet(sha, actions[..|actions| - 1]);
      if a.Continue? {
        AdvanceKeepsCallbacksQuiet(sha, s, a.thread);
      } else {
        StartKeepsCallbacksQuiet(sha, s, a);
      }
    }
  }

  lemma StartKeepsCallbacksQuiet(sha: Hash, s: State, a: Action)
    requires CallbacksQuiet(s) && !a.Continue?
    ensures CallbacksQuiet(Next(sha, s, a))
  {
    hide Refused;
    var s' := Next(sha, s, a);
    forall u: ThreadId | u != a.thread ensures ThreadOf(s', u) == ThreadOf(s, u) {
      OthersStay(sha, s, a, u);
    }
  }

  /** In every run, a thread inside its callback changes no core, ends no core, and moves no lease. */
  lemma CallbacksMutateNothing(sha: Hash, actions: seq<Action>, a: Action)
    requires ThreadOf(After(sha, actions), a.thread).inCallback
    ensures
      var s, s' := After(sha, actions), After(sha, actions + [a]);
      && s'.trace == s.trace && s.table <= s'.table
      && (forall h | h in s.objects :: h in s'.objects && s'.objects[h] == s.objects[h])
  {
    hide After, Refused, CoreSection, LeaseTransition;
    CallbacksStayQuiet(sha, actions);
    EveryInterleavingIsInOrder(sha, actions);
    AfterMore(sha, actions, a);
  }
}
