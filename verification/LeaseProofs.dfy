/** What every interleaving keeps: lease protocol, ownership, epochs, and the life of a core. */
module LeaseProofs {
  import opened Wrappers
  import opened Bytes
  import opened Histories
  import opened Cores
  import opened Steps

  // The protocol of one lease id, read off the trace.

  datatype Status = Unused | At(state: LeaseState, core: Handle, owner: ThreadId) | Gone | Broken

  /**
   * The language: register (discard | acquire (discard | submit complete retire)), every operation by the
   * registering thread on the registering core. `Broken` is the answer to anything else.
   */
  function Follow(st: Status, e: Event): Status {
    match st
    case Unused => if e.op.RegisterOp? then At(Registered, e.core, e.thread) else Broken
    case At(state, core, owner) =>
      if e.core != core || e.thread != owner then Broken
      else if state.Registered? && e.op.AcquireOp? then At(Acquired, core, owner)
      else if state.Acquired? && e.op.SubmitOp? then At(Submitted, core, owner)
      else if state.Submitted? && e.op.CompleteOp? then At(Completed, core, owner)
      else if state.Completed? && e.op.RetireOp? then At(Retired, core, owner)
      else if (state.Registered? || state.Acquired?) && e.op.DiscardOp? then Gone
      else Broken
    case _ => Broken
  }

  function StatusOf(trace: seq<Event>, id: nat): Status {
    if trace == [] then Unused
    else
      var before := StatusOf(trace[..|trace| - 1], id);
      var e := trace[|trace| - 1];
      if e.lease == id then Follow(before, e) else before
  }

  lemma StatusOfAppended(trace: seq<Event>, e: Event, id: nat)
    ensures StatusOf(trace + [e], id) == if e.lease == id then Follow(StatusOf(trace, id), e) else StatusOf(trace, id)
  {
    assert (trace + [e])[..|trace|] == trace;
  }

  // The invariant.

  /** A lease in a core's map is what the trace says it is, and its metadata agrees with its state. */
  predicate LeaseInOrder(s: State, h: Handle, id: nat)
    requires h in s.objects && id in s.objects[h].leases
  {
    var lease := s.objects[h].leases[id];
    && StatusOf(s.trace, id) == At(lease.state, h, lease.owner)
    && lease.metadata.state == lease.state
    && lease.metadata.leaseId == id
    && lease.metadata.epoch <= s.objects[h].epoch
  }

  ghost predicate LeasesInOrder(s: State) {
    forall h, id :: h in s.objects && id in s.objects[h].leases ==> LeaseInOrder(s, h, id)
  }

  /** No lease id ever leaves the protocol, and ids not yet handed out are unused. */
  ghost predicate TraceInOrder(s: State) {
    && (forall id: nat :: StatusOf(s.trace, id) != Broken)
    && (forall id: nat :: id >= s.next ==> StatusOf(s.trace, id) == Unused)
  }

  predicate HasLease(call: Call) {
    call.Acquire? || call.Discard? || call.SubmitLease? || call.Complete? || call.Retire?
  }

  /** `t` is inside a lease call, past the first look-up, and owns that lease. */
  predicate HoldsCore(s: State, t: ThreadId) {
    var pc := ThreadOf(s, t).pc;
    && pc.Busy? && HasLease(pc.call)
    && (pc.at == Section1 || (pc.at == LookUp2 && (pc.call.Acquire? || pc.call.SubmitLease?))
        || pc.at == Transition || pc.at == LookUp3 || pc.at == Removal)
    && pc.call.core in s.objects
    && pc.call.lease in s.objects[pc.call.core].leases
    && s.objects[pc.call.core].leases[pc.call.lease].owner == t
  }

  /** Between the sections of a call on a lease, the core of its owner stays in the table. */
  ghost predicate CoresHeld(s: State) {
    forall t: ThreadId :: HoldsCore(s, t) ==> ThreadOf(s, t).pc.call.core in s.table
  }

  /** Once retired, a lease waits for its owner to remove it. */
  predicate RetireInOrder(s: State, t: ThreadId) {
    var pc := ThreadOf(s, t).pc;
    pc.Busy? && (pc.at == LookUp3 || pc.at == Removal) ==>
      && pc.call.Retire?
      && pc.call.core in s.objects
      && pc.call.lease in s.objects[pc.call.core].leases
      && s.objects[pc.call.core].leases[pc.call.lease].owner == t
      && s.objects[pc.call.core].leases[pc.call.lease].state == Retired
  }

  ghost predicate RetiresInOrder(s: State) {
    forall t: ThreadId :: RetireInOrder(s, t)
  }

  /** No thread is inside a call on a lease of its own in this core. */
  ghost predicate QuietCore(s: State, h: Handle) {
    forall t: ThreadId :: HoldsCore(s, t) ==> ThreadOf(s, t).pc.call.core != h
  }

  /** `t` is about to take its own, quiet core out of the table. */
  ghost predicate Unlisting(s: State, t: ThreadId) {
    && AtUnlist(s, t) && ThreadOf(s, t).pc.call.Destroy?
    && var h := ThreadOf(s, t).pc.call.core;
       h in s.table && h in s.objects && s.objects[h].owner == t && QuietCore(s, h)
  }

  /** The table's lock is kept exactly by the one thread between the two sections of a `destroy`. */
  ghost predicate LockInOrder(s: State) {
    && (forall t: ThreadId :: AtUnlist(s, t) ==> s.holder == Some(t))
    && (s.holder.Some? ==> Unlisting(s, s.holder.value))
  }

  ghost predicate Inv(s: State) {
    LeasesInOrder(s) && TraceInOrder(s) && HandlesInOrder(s) && CoresHeld(s) && RetiresInOrder(s)
  }

  // Steps that change no core, no table and no trace.

  /** Only the thread `t` moves; if it now holds a core, the core is in the table. */
  lemma ThreadMoves(s: State, s': State, t: ThreadId)
    requires Inv(s)
    requires s' == SetThread(s, t, ThreadOf(s', t))
    requires HoldsCore(s', t) ==> ThreadOf(s', t).pc.call.core in s.table
    requires RetireInOrder(s', t)
    ensures Inv(s')
  {
    forall u: ThreadId ensures HoldsCore(s', u) ==> ThreadOf(s', u).pc.call.core in s'.table {
      if u != t { assert ThreadOf(s', u) == ThreadOf(s, u); assert HoldsCore(s', u) == HoldsCore(s, u); }
    }
    forall u: ThreadId ensures RetireInOrder(s', u) {
      if u != t { assert ThreadOf(s', u) == ThreadOf(s, u); assert RetireInOrder(s, u); }
    }
  }

  lemma FinishKeeps(s: State, t: ThreadId, r: StitchResult)
    requires Inv(s)
    ensures Inv(Finish(s, t, r))
  {
    ThreadMoves(s, Finish(s, t, r), t);
  }

  // Steps inside a core.

  /** A core changes, none of its leases does, and its epoch does not fall. */
  lemma CoreChanges(s: State, h: Handle, c: Core, next: nat)
    requires Inv(s) && h in s.objects && next >= s.next
    requires c.leases == s.objects[h].leases && c.epoch >= s.objects[h].epoch
    ensures Inv(SetCore(s, h, c).(next := next))
  {
    hide StatusOf;
    var s' := SetCore(s, h, c).(next := next);
    forall g, id | g in s'.objects && id in s'.objects[g].leases ensures LeaseInOrder(s', g, id) {
      assert LeaseInOrder(s, g, id);
    }
    forall u: ThreadId ensures HoldsCore(s', u) ==> ThreadOf(s', u).pc.call.core in s'.table {
      assert HoldsCore(s', u) == HoldsCore(s, u);
    }
    forall u: ThreadId ensures RetireInOrder(s', u) {
      assert RetireInOrder(s, u);
    }
  }

  /** `s'` differs from `s` in the lease `id` of core `h`, in the trace of `id`, and in thread `t`, which owns it. */
  ghost predicate MovesLease(s: State, s': State, t: ThreadId, h: Handle, id: nat) {
    && h in s.objects && s'.table == s.table && id < s'.next && s.next <= s'.next
    && s'.threads == s.threads[t := ThreadOf(s', t)]
    && s'.objects.Keys == s.objects.Keys
    && (forall g :: g in s.objects && g != h ==> s'.objects[g] == s.objects[g])
    && s'.objects[h].epoch == s.objects[h].epoch
    && (forall k :: k != id ==> (k in s'.objects[h].leases <==> k in s.objects[h].leases))
    && (forall k :: k != id && k in s.objects[h].leases ==> s'.objects[h].leases[k] == s.objects[h].leases[k])
    && (forall k: nat :: k != id ==> StatusOf(s'.trace, k) == StatusOf(s.trace, k))
    && (id in s.objects[h].leases ==> s.objects[h].leases[id].owner == t)
    && (id in s'.objects[h].leases ==> s'.objects[h].leases[id].owner == t && LeaseInOrder(s', h, id))
    && (id !in s.objects[h].leases ==> StatusOf(s.trace, id) == Unused)
    && StatusOf(s'.trace, id) != Broken
  }

  lemma MoveKeepsLeases(s: State, s': State, t: ThreadId, h: Handle, id: nat)
    requires Inv(s) && MovesLease(s, s', t, h, id)
    ensures LeasesInOrder(s')
  {
    hide StatusOf;
    assert id in s.objects[h].leases ==> LeaseInOrder(s, h, id);
    forall g, k | g in s'.objects && k in s'.objects[g].leases ensures LeaseInOrder(s', g, k) {
      if g != h || k != id {
        assert LeaseInOrder(s, g, k);
      }
    }
  }

  lemma MoveKeepsTrace(s: State, s': State, t: ThreadId, h: Handle, id: nat)
    requires Inv(s) && MovesLease(s, s', t, h, id)
    ensures TraceInOrder(s')
  {
    hide StatusOf;
    forall k: nat ensures StatusOf(s'.trace, k) != Broken && (k >= s'.next ==> StatusOf(s'.trace, k) == Unused) {
      if k != id {
        assert StatusOf(s'.trace, k) == StatusOf(s.trace, k);
      }
    }
  }

  lemma MoveKeepsHolders(s: State, s': State, t: ThreadId, h: Handle, id: nat)
    requires Inv(s) && MovesLease(s, s', t, h, id)
    requires HoldsCore(s', t) ==> ThreadOf(s', t).pc.call.core in s.table
    requires RetireInOrder(s', t)
    ensures CoresHeld(s') && RetiresInOrder(s')
  {
    hide StatusOf, LeaseInOrder, TraceInOrder;
    forall u: ThreadId ensures HoldsCore(s', u) ==> ThreadOf(s', u).pc.call.core in s'.table {
      if u != t {
        assert ThreadOf(s', u) == ThreadOf(s, u);
        assert HoldsCore(s', u) ==> HoldsCore(s, u);
      }
    }
    forall u: ThreadId ensures RetireInOrder(s', u) {
      if u != t {
        assert ThreadOf(s', u) == ThreadOf(s, u);
        assert RetireInOrder(s, u);
      }
    }
  }

  lemma MoveKeeps(s: State, s': State, t: ThreadId, h: Handle, id: nat)
    requires Inv(s) && MovesLease(s, s', t, h, id)
    requires HoldsCore(s', t) ==> ThreadOf(s', t).pc.call.core in s.table
    requires RetireInOrder(s', t)
    ensures Inv(s')
  {
    MoveKeepsLeases(s, s', t, h, id);
    MoveKeepsTrace(s, s', t, h, id);
    MoveKeepsHolders(s, s', t, h, id);
    hide LeasesInOrder, TraceInOrder, CoresHeld, RetiresInOrder;
  }

  // One lemma per section.

  lemma CreateKeeps(sha: Hash, s: State, t: ThreadId, epoch: u64)
    requires Inv(s)
    ensures Inv(Section(sha, s, t, Create(epoch)))
  {
    hide StatusOf;
    var c := Core(NEW_HISTORY, epoch, map[], t, [], []);
    var s1 := SetCore(s, s.next, c).(table := s.table + {s.next}, next := s.next + 1);
    forall g, id | g in s1.objects && id in s1.objects[g].leases ensures LeaseInOrder(s1, g, id) {
      assert LeaseInOrder(s, g, id);
    }
    forall u: ThreadId ensures HoldsCore(s1, u) ==> ThreadOf(s1, u).pc.call.core in s1.table {
      assert HoldsCore(s1, u) ==> HoldsCore(s, u);
    }
    forall u: ThreadId ensures RetireInOrder(s1, u) {
      assert RetireInOrder(s, u);
    }
    FinishKeeps(s1, t, Success);
  }

  lemma DestroyKeeps(sha: Hash, s: State, t: ThreadId, h: Handle)
    requires Inv(s)
    ensures Inv(Section(sha, s, t, Destroy(h)))
  {
    hide StatusOf, LeaseInOrder;
    var s' := Section(sha, s, t, Destroy(h));
    ThreadMoves(s, s'.(holder := s.holder), t);
    HolderIsApart(s'.(holder := s.holder), s'.holder);
  }

  /** The invariant does not speak of the table's lock. */
  lemma HolderIsApart(s: State, holder: Option<ThreadId>)
    requires Inv(s)
    ensures Inv(s.(holder := holder))
  {
    hide StatusOf;
    var s' := s.(holder := holder);
    forall u: ThreadId ensures HoldsCore(s', u) == HoldsCore(s, u) && RetireInOrder(s', u) {
      assert RetireInOrder(s, u);
    }
    forall g, id | g in s'.objects && id in s'.objects[g].leases ensures LeaseInOrder(s', g, id) {
      assert LeaseInOrder(s, g, id);
    }
  }

  lemma UnlistKeeps(s: State, t: ThreadId, h: Handle)
    requires Inv(s) && QuietCore(s, h)
    ensures Inv(UnlistCore(s, t, h))
  {
    hide StatusOf;
    var s0 := s.(table := s.table - {h});
    forall u: ThreadId ensures HoldsCore(s0, u) ==> ThreadOf(s0, u).pc.call.core in s0.table {
      assert HoldsCore(s0, u) == HoldsCore(s, u);
    }
    forall u: ThreadId ensures RetireInOrder(s0, u) {
      assert RetireInOrder(s, u);
    }
    forall g, id | g in s0.objects && id in s0.objects[g].leases ensures LeaseInOrder(s0, g, id) {
      assert LeaseInOrder(s, g, id);
    }
    HolderIsApart(s0, None);
    FinishKeeps(s0.(holder := None), t, Success);
  }

  lemma SetEpochKeeps(sha: Hash, s: State, t: ThreadId, call: Call, c: Core)
    requires Inv(s) && call.SetEpoch? && call.core in s.objects && c == s.objects[call.core]
    ensures Inv(CoreSection(sha, s, t, call, c))
  {
    hide Inv, LeasesInOrder, TraceInOrder, CoresHeld, RetiresInOrder;
    var s' := CoreSection(sha, s, t, call, c);
    if s'.objects == s.objects {
      FinishKeeps(s, t, s'.threads[t].last.value);
    } else {
      var c' := c.(epoch := call.epoch);
      CoreChanges(s, call.core, c', s.next);
      FinishKeeps(SetCore(s, call.core, c').(next := s.next), t, Success);
    }
  }

  lemma SubmitBatchKeeps(sha: Hash, s: State, t: ThreadId, call: Call, c: Core)
    requires Inv(s) && call.SubmitBatch? && call.core in s.objects && c == s.objects[call.core]
    ensures Inv(CoreSection(sha, s, t, call, c))
  {
    hide Inv, BatchOutcome;
    var outcome := BatchOutcome(sha, c, t, call.batch, call.expected, call.epoch);
    if outcome.Err? {
      FinishKeeps(s, t, outcome.error);
    } else {
      BatchKeepsLeases(sha, c, t, call.batch, call.expected, call.epoch);
      CoreChanges(s, call.core, outcome.value, s.next + 1);
      var done := Finish(SetCore(s, call.core, outcome.value).(next := s.next + 1), t, Success);
      FinishKeeps(SetCore(s, call.core, outcome.value).(next := s.next + 1), t, Success);
      CallbackKeeps(done, t, true);
    }
  }

  lemma CallbackKeeps(s: State, t: ThreadId, inside: bool)
    requires Inv(s) && ThreadOf(s, t).pc.Idle?
    ensures Inv(SetThread(s, t, ThreadOf(s, t).(inCallback := inside)))
  {
    ThreadMoves(s, SetThread(s, t, ThreadOf(s, t).(inCallback := inside)), t);
  }

  lemma HandedOutBelowNext(s: State, h: Handle)
    requires Inv(s) && h in s.objects
    ensures forall id | id in s.objects[h].leases :: id < s.next
  {
    hide StatusOf;
    forall id | id in s.objects[h].leases ensures id < s.next {
      assert LeaseInOrder(s, h, id);
    }
  }

  lemma EventMoves(s: State, s': State, e: Event)
    requires s'.trace == s.trace + [e]
    ensures StatusOf(s'.trace, e.lease) == Follow(StatusOf(s.trace, e.lease), e)
    ensures forall k: nat :: k != e.lease ==> StatusOf(s'.trace, k) == StatusOf(s.trace, k)
  {
    StatusOfAppended(s.trace, e, e.lease);
    forall k: nat | k != e.lease ensures StatusOf(s'.trace, k) == StatusOf(s.trace, k) {
      StatusOfAppended(s.trace, e, k);
    }
  }

  /** Core `e.core` becomes `c'`, the event is recorded, and only thread `t` moves. */
  predicate RecordsMove(s: State, s': State, t: ThreadId, c': Core, e: Event) {
    && e.core in s.objects && e.thread == t
    && s'.objects == s.objects[e.core := c'] && s'.table == s.table && s'.trace == s.trace + [e]
    && s'.threads == s.threads[t := ThreadOf(s', t)]
    && s.next <= s'.next && e.lease < s'.next
  }

  /** `c'` differs from `c` in the lease `id` at most. */
  ghost predicate SameBut(c: Core, c': Core, id: nat) {
    && c'.epoch == c.epoch
    && (forall k :: k != id ==> (k in c'.leases <==> k in c.leases))
    && (forall k :: k != id && k in c.leases ==> c'.leases[k] == c.leases[k])
  }

  lemma RecordedMoves(s: State, s': State, t: ThreadId, c': Core, e: Event)
    requires RecordsMove(s, s', t, c', e) && SameBut(s.objects[e.core], c', e.lease)
    requires e.lease in s.objects[e.core].leases ==> s.objects[e.core].leases[e.lease].owner == t
    requires e.lease !in s.objects[e.core].leases ==> StatusOf(s.trace, e.lease) == Unused
    requires Follow(StatusOf(s.trace, e.lease), e) != Broken
    requires e.lease in c'.leases ==>
      var l := c'.leases[e.lease];
      && Follow(StatusOf(s.trace, e.lease), e) == At(l.state, e.core, t) && l.owner == t
      && l.metadata.state == l.state && l.metadata.leaseId == e.lease && l.metadata.epoch <= c'.epoch
    ensures MovesLease(s, s', t, e.core, e.lease)
  {
    hide StatusOf, Follow;
    EventMoves(s, s', e);
  }

  lemma RegisterSection(sha: Hash, s: State, t: ThreadId, call: Call, c: Core)
    requires call.Register?
    ensures
      var s' := CoreSection(sha, s, t, call, c);
      var outcome := RegisterOn(c, t, call.metadata, s.next);
      if outcome.Err? then s' == Finish(s, t, outcome.error)
      else
        call.core in s.objects ==>
          && RecordsMove(s, s', t, outcome.value, Event(t, RegisterOp, call.core, s.next))
          && ThreadOf(s', t).pc == Idle
  {
    hide RegisterOn;
  }

  lemma RegisterKeeps(sha: Hash, s: State, t: ThreadId, call: Call, c: Core)
    requires Inv(s) && call.Register? && call.core in s.objects && c == s.objects[call.core]
    ensures Inv(CoreSection(sha, s, t, call, c))
  {
    hide CoreSection, StatusOf, CoresHeld, RetiresInOrder, MovesLease, Revision;
    RegisterSection(sha, s, t, call, c);
    var s', outcome := CoreSection(sha, s, t, call, c), RegisterOn(c, t, call.metadata, s.next);
    if outcome.Err? {
      FinishKeeps(s, t, outcome.error);
    } else {
      HandedOutBelowNext(s, call.core);
      RecordedMoves(s, s', t, outcome.value, Event(t, RegisterOp, call.core, s.next));
      MoveKeeps(s, s', t, call.core, s.next);
    }
  }

  lemma DiscardSection(sha: Hash, s: State, t: ThreadId, call: Call, c: Core)
    requires call.Discard?
    ensures
      var s' := CoreSection(sha, s, t, call, c);
      var outcome := DiscardOn(c, t, call.lease, call.device);
      if outcome.Err? then s' == Finish(s, t, outcome.error)
      else
        call.core in s.objects && call.lease < s.next ==>
          && RecordsMove(s, s', t, outcome.value, Event(t, DiscardOp, call.core, call.lease))
          && ThreadOf(s', t).pc == Idle
  {
    hide DiscardOn;
  }

  lemma DiscardKeeps(sha: Hash, s: State, t: ThreadId, call: Call, c: Core)
    requires Inv(s) && call.Discard? && call.core in s.objects && c == s.objects[call.core]
    ensures Inv(CoreSection(sha, s, t, call, c))
  {
    hide CoreSection, StatusOf, CoresHeld, RetiresInOrder, MovesLease;
    DiscardSection(sha, s, t, call, c);
    var s', outcome := CoreSection(sha, s, t, call, c), DiscardOn(c, t, call.lease, call.device);
    if outcome.Err? {
      FinishKeeps(s, t, outcome.error);
    } else {
      HandedOutBelowNext(s, call.core);
      assert LeaseInOrder(s, call.core, call.lease);
      RecordedMoves(s, s', t, outcome.value, Event(t, DiscardOp, call.core, call.lease));
      MoveKeeps(s, s', t, call.core, call.lease);
    }
  }

  /** `acquire` and `submit` check the core and go on to the transition. */
  lemma CheckKeeps(sha: Hash, s: State, t: ThreadId, call: Call, c: Core)
    requires Inv(s) && (call.Acquire? || call.SubmitLease?) && call.core in s.objects && c == s.objects[call.core]
    requires ThreadOf(s, t).pc == Busy(call, Section1)
    ensures Inv(CoreSection(sha, s, t, call, c))
  {
    hide LeasesInOrder, TraceInOrder, RetiresInOrder;
    var s' := CoreSection(sha, s, t, call, c);
    assert HoldsCore(s', t) ==> HoldsCore(s, t);
    ThreadMoves(s, s', t);
  }

  lemma TransitionFollows(call: Call, t: ThreadId)
    requires Transitions(call)
    ensures Follow(At(Expected(call), call.core, t), Event(t, OpOf(call), call.core, call.lease))
      == At(Target(call), call.core, t)
  {
  }

  lemma TransitionSection(s: State, t: ThreadId, call: Call)
    requires Transitions(call) && call.core in s.objects
    ensures
      var s', c := LeaseTransition(s, t, call), s.objects[call.core];
      var outcome := TransitionOn(c, t, call.lease, call.device, Expected(call), Target(call));
      if outcome.Err? then s' == Finish(s, t, outcome.error)
      else
        call.lease < s.next ==>
          && RecordsMove(s, s', t, outcome.value, Event(t, OpOf(call), call.core, call.lease))
          && ThreadOf(s', t).pc == (if call.Retire? then Busy(call, LookUp3) else Idle)
  {
    hide TransitionOn, Expected, Target, OpOf;
  }

  lemma TransitionKeeps(s: State, t: ThreadId, call: Call)
    requires Inv(s) && Transitions(call) && ThreadOf(s, t).pc == Busy(call, Transition)
    ensures Inv(LeaseTransition(s, t, call))
  {
    if call.core !in s.objects {
      FinishKeeps(s, t, UnknownHandle);
    } else {
      TransitionSection(s, t, call);
      var c, s' := s.objects[call.core], LeaseTransition(s, t, call);
      var outcome := TransitionOn(c, t, call.lease, call.device, Expected(call), Target(call));
      hide LeaseTransition, StatusOf, RetiresInOrder, MovesLease, Follow, TraceInOrder, OpOf;
      if outcome.Err? {
        FinishKeeps(s, t, outcome.error);
      } else {
        assert HoldsCore(s, t);
        HandedOutBelowNext(s, call.core);
        assert LeaseInOrder(s, call.core, call.lease);
        TransitionFollows(call, t);
        RecordedMoves(s, s', t, outcome.value, Event(t, OpOf(call), call.core, call.lease));
        assert call.Retire? ==> outcome.value.leases[call.lease].state == Retired;
        MoveKeeps(s, s', t, call.core, call.lease);
      }
    }
  }

  lemma RemovalKeeps(s: State, t: ThreadId, call: Call)
    requires Inv(s) && call.Retire? && ThreadOf(s, t).pc == Busy(call, Removal)
    ensures Inv(Remove(s, t, call))
    ensures ThreadOf(Remove(s, t, call), t).last == Some(Success)
  {
    hide StatusOf;
    assert RetireInOrder(s, t);
    hide CoresHeld, RetiresInOrder;
    assert LeaseInOrder(s, call.core, call.lease);
    MoveKeeps(s, Remove(s, t, call), t, call.core, call.lease);
  }

  lemma LookUpKeeps(s: State, t: ThreadId, call: Call, at: Point, next: Point)
    requires Inv(s) && ThreadOf(s, t).pc == Busy(call, at) && !call.Create?
    requires (at == LookUp1 && next == Section1) || (at == LookUp2 && next == Transition && Transitions(call))
      || (at == LookUp3 && next == Removal)
    ensures Inv(LookUp(s, t, call, next))
  {
    hide LeasesInOrder, TraceInOrder;
    var s' := LookUp(s, t, call, next);
    assert RetireInOrder(s, t);
    ThreadMoves(s, s', t);
  }

  lemma CoreSectionKeeps(sha: Hash, s: State, t: ThreadId, call: Call, c: Core)
    requires Inv(s) && ThreadOf(s, t).pc == Busy(call, Section1) && WellPlaced(ThreadOf(s, t).pc)
    requires !call.Create? && !call.Destroy? && call.core in s.objects && c == s.objects[call.core]
    ensures Inv(CoreSection(sha, s, t, call, c))
  {
    hide Inv, CoreSection;
    if call.SetEpoch? {
      SetEpochKeeps(sha, s, t, call, c);
    } else if call.SubmitBatch? {
      SubmitBatchKeeps(sha, s, t, call, c);
    } else if call.Register? {
      RegisterKeeps(sha, s, t, call, c);
    } else if call.Discard? {
      DiscardKeeps(sha, s, t, call, c);
    } else {
      CheckKeeps(sha, s, t, call, c);
    }
  }

  lemma SectionKeeps(sha: Hash, s: State, t: ThreadId, call: Call)
    requires Inv(s) && ThreadOf(s, t).pc == Busy(call, Section1) && WellPlaced(ThreadOf(s, t).pc)
    ensures Inv(Section(sha, s, t, call))
  {
    hide Inv, CoreSection;
    match call
    case Create(epoch) => CreateKeeps(sha, s, t, epoch);
    case Destroy(h) => DestroyKeeps(sha, s, t, h);
    case _ =>
      if call.core !in s.objects {
        FinishKeeps(s, t, UnknownHandle);
      } else {
        CoreSectionKeeps(sha, s, t, call, s.objects[call.core]);
      }
  }

  lemma NextKeeps(sha: Hash, s: State, a: Action)
    requires Inv(s) && LockInOrder(s)
    ensures Inv(Next(sha, s, a))
  {
    hide Inv, Section, LookUp, LeaseTransition, Remove, UnlistCore, Refused, QuietCore;
    var t := a.thread;
    match a
    case Start(_, call) => StartKeeps(sha, s, t, call);
    case EndCallback(_) => if ThreadOf(s, t).pc.Idle? { CallbackKeeps(s, t, false); }
    case Continue(_) =>
      var pc := ThreadOf(s, t).pc;
      if pc.Busy? && WellPlaced(pc) && !Waits(s, pc) {
        match pc.at
        case LookUp1 => LookUpKeeps(s, t, pc.call, LookUp1, Section1);
        case Section1 => SectionKeeps(sha, s, t, pc.call);
        case Unlist =>
          assert AtUnlist(s, t);
          assert Unlisting(s, t);
          UnlistKeeps(s, t, pc.call.core);
        case LookUp2 => LookUpKeeps(s, t, pc.call, LookUp2, Transition);
        case Transition => TransitionKeeps(s, t, pc.call);
        case LookUp3 => LookUpKeeps(s, t, pc.call, LookUp3, Removal);
        case Removal => RemovalKeeps(s, t, pc.call);
      }
  }

  // The table's lock.

  /** A thread that does not move holds a core only if it did before. */
  lemma OthersHoldLess(sha: Hash, s: State, a: Action, u: ThreadId)
    requires HandlesInOrder(s) && u != a.thread && HoldsCore(Next(sha, s, a), u)
    ensures HoldsCore(s, u)
  {
    hide Next;
    OthersStay(sha, s, a, u);
    var call := ThreadOf(s, u).pc.call;
    LeasesComeFrom(sha, s, a, call.core, call.lease);
  }

  /** While the table is kept by another thread, a thread comes to hold no core. */
  lemma MoverHoldsLess(sha: Hash, s: State, a: Action)
    requires s.holder.Some? && HoldsCore(Next(sha, s, a), a.thread)
    ensures HoldsCore(s, a.thread) && ThreadOf(s, a.thread).pc.call == ThreadOf(Next(sha, s, a), a.thread).pc.call
  {
    hide Revision, BatchOutcome, Refused;
    var pc := ThreadOf(s, a.thread).pc;
    if pc.Busy? {
      SectionEnds(sha, s, a.thread, pc.call);
      if Transitions(pc.call) {
        TransitionEnds(s, a.thread, pc.call);
      }
    }
  }

  lemma QuietStays(sha: Hash, s: State, a: Action, h: Handle)
    requires HandlesInOrder(s) && s.holder.Some? && QuietCore(s, h)
    ensures QuietCore(Next(sha, s, a), h)
  {
    hide Next;
    var s' := Next(sha, s, a);
    forall u: ThreadId | HoldsCore(s', u) ensures ThreadOf(s', u).pc.call.core != h {
      if u == a.thread {
        MoverHoldsLess(sha, s, a);
      } else {
        OthersHoldLess(sha, s, a, u);
        OthersStay(sha, s, a, u);
      }
    }
  }

  /** A `destroy` passes its check only on a core without leases, so the core is quiet. */
  lemma CheckedCoreIsQuiet(sha: Hash, s: State, t: ThreadId)
    requires AtUnlist(Next(sha, s, Continue(t)), t) && !AtUnlist(s, t)
    ensures
      var pc, s' := ThreadOf(s, t).pc, Next(sha, s, Continue(t));
      && s.holder.None? && s'.holder == Some(t) && s' == Goto(s, t, pc.call, Unlist).(holder := Some(t))
      && pc.Busy? && pc.at == Section1 && pc.call.Destroy?
      && pc.call.core in s.table && pc.call.core in s.objects
      && s.objects[pc.call.core].owner == t && s.objects[pc.call.core].leases == map[]
  {
    hide CoreSection, LeaseTransition;
    var pc := ThreadOf(s, t).pc;
    if pc.Busy? {
      SectionEnds(sha, s, t, pc.call);
      if Transitions(pc.call) {
        TransitionEnds(s, t, pc.call);
      }
    }
  }

  lemma StartsElsewhere(sha: Hash, s: State, a: Action)
    requires !a.Continue? && AtUnlist(Next(sha, s, a), a.thread)
    ensures Next(sha, s, a) == s
  {
    hide Refused;
  }

  lemma LockTaken(sha: Hash, s: State, t: ThreadId)
    requires LockInOrder(s) && AtUnlist(Next(sha, s, Continue(t)), t) && !AtUnlist(s, t)
    ensures LockInOrder(Next(sha, s, Continue(t)))
  {
    CheckedCoreIsQuiet(sha, s, t);
    var s' := Next(sha, s, Continue(t));
    hide Next;
    forall u: ThreadId | AtUnlist(s', u) ensures u == t {
      assert u != t ==> ThreadOf(s', u) == ThreadOf(s, u);
      assert AtUnlist(s, u) ==> s.holder == Some(u);
    }
  }

  lemma LockGivenBack(s: State, t: ThreadId, h: Handle)
    requires LockInOrder(s) && AtUnlist(s, t)
    ensures LockInOrder(UnlistCore(s, t, h))
  {
    hide Unlisting;
    var s' := UnlistCore(s, t, h);
    forall u: ThreadId ensures !AtUnlist(s', u) {
      if u != t {
        assert ThreadOf(s', u) == ThreadOf(s, u);
        assert AtUnlist(s, u) ==> s.holder == Some(u);
      }
    }
  }

  /** The thread that keeps the table stands where it stood, and so does its core. */
  lemma LockKept(sha: Hash, s: State, a: Action)
    requires HandlesInOrder(s) && LockInOrder(s)
    requires AtUnlist(Next(sha, s, a), a.thread) ==> AtUnlist(s, a.thread) && Next(sha, s, a) == s
    requires a.Continue? ==> !AtUnlist(s, a.thread)
    ensures LockInOrder(Next(sha, s, a))
  {
    TableIsKept(sha, s, a);
    hide Next, QuietCore;
    var s' := Next(sha, s, a);
    if s' != s {
      forall u: ThreadId | AtUnlist(s', u) ensures s'.holder == Some(u) {
        OthersStay(sha, s, a, u);
        assert AtUnlist(s, u);
      }
      if s.holder.Some? {
        var w := s.holder.value;
        var h := ThreadOf(s, w).pc.call.core;
        assert Unlisting(s, w);
        if w != a.thread {
          OthersStay(sha, s, a, w);
          OwnersAreKept(sha, s, a, h);
          QuietStays(sha, s, a, h);
        } else {
          UnlistWaitsForItself(sha, s, a);
        }
      }
    }
  }

  lemma UnlistWaitsForItself(sha: Hash, s: State, a: Action)
    requires AtUnlist(s, a.thread) && !a.Continue?
    ensures Next(sha, s, a) == s
  {
  }

  lemma NextKeepsLock(sha: Hash, s: State, a: Action)
    requires HandlesInOrder(s) && LockInOrder(s)
    ensures LockInOrder(Next(sha, s, a))
  {
    var t := a.thread;
    TableIsKept(sha, s, a);
    hide Next, QuietCore, UnlistCore;
    if a.Continue? && AtUnlist(s, t) {
      assert Unlisting(s, t);
      LockGivenBack(s, t, ThreadOf(s, t).pc.call.core);
    } else if AtUnlist(Next(sha, s, a), t) {
      if a.Continue? {
        LockTaken(sha, s, t);
      } else {
        StartsElsewhere(sha, s, a);
      }
    } else {
      LockKept(sha, s, a);
    }
  }

  lemma StartKeeps(sha: Hash, s: State, t: ThreadId, call: Call)
    requires Inv(s)
    ensures Inv(Next(sha, s, Start(t, call)))
  {
    hide LeasesInOrder, TraceInOrder, CoresHeld, RetiresInOrder, Refused;
    var s' := Next(sha, s, Start(t, call));
    if s' != s {
      ThreadMoves(s, s', t);
    }
  }

  /** The invariant holds after every interleaving of any calls by any threads. */
  lemma {:induction false} EveryInterleavingIsInOrder(sha: Hash, actions: seq<Action>)
    ensures Inv(After(sha, actions)) && LockInOrder(After(sha, actions))
  {
    hide Inv, Next, LockInOrder;
    if actions == [] {
      InitialInOrder();
    } else {
      var s := After(sha, actions[..|actions| - 1]);
      EveryInterleavingIsInOrder(sha, actions[..|actions| - 1]);
      NextKeeps(sha, s, actions[|actions| - 1]);
      InOrderHandles(s);
      NextKeepsLock(sha, s, actions[|actions| - 1]);
    }
  }

  lemma InOrderHandles(s: State)
    requires Inv(s)
    ensures HandlesInOrder(s)
  {
  }

  lemma InitialInOrder()
    ensures Inv(INITIAL) && LockInOrder(INITIAL)
  {
  }
}
