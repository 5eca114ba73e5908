/** What each call of the C ABI answers, section by section, in any run: every refusal in its order. */
module Answers {
  import opened Wrappers
  import opened Bytes
  import opened Projects
  import opened Revisions
  import opened Cores
  import opened Steps
  import opened LeaseProofs
  import opened Interleavings
  import opened Batches
  import opened Destroys

  /** The revision of a log: thirty-two zero bytes before the first command, then the hash of the last. */
  function ShownRevision(sha: Hash, log: seq<Command>): seq<byte> {
    if log == [] then seq(32, _ => 0)
    else
      assert ChainHash(sha, log).Some?;
      ChainHash(sha, log).value
  }

  lemma ZeroDigest()
    ensures ZERO_DIGEST == seq(32, _ => 0)
  {
    forall i | 0 <= i < 32 ensures ZERO_DIGEST[i] == 0 {
      ZeroBytes(32, i);
    }
  }

  /** In every run a core shows the revision of the commands it accepted. */
  lemma CoresShowTheirLog(sha: Hash, actions: seq<Action>, h: Handle)
    requires h in After(sha, actions).objects
    ensures
      var c := After(sha, actions).objects[h];
      Revision(c) == ShownRevision(sha, c.accepted)
  {
    hide After, Replay, Unbroken, RevisionHash;
    ZeroDigest();
    DiffsTellTheHistory(sha, actions, h);
  }

  /** The call of `t` ends with the answer, and nothing else changes. */
  predicate Ends(s: State, s': State, t: ThreadId, r: StitchResult) {
    s' == s.(threads := s.threads[t := Thread(Idle, ThreadOf(s, t).inCallback, Some(r))])
  }

  /** The call of `t` goes on, and nothing else changes. */
  predicate GoesOn(s: State, s': State, t: ThreadId, call: Call, at: Point) {
    s' == s.(threads := s.threads[t := Thread(Busy(call, at), ThreadOf(s, t).inCallback, ThreadOf(s, t).last)])
  }

  // Before any lock is taken.

  /**
   * Inside a callback everything but `create` is refused; then a batch of no or of more than 4096 commands, and a
   * lease that is not new. Every other call begins at its first section.
   */
  lemma StartAnswers(sha: Hash, s: State, t: ThreadId, call: Call)
    requires ThreadOf(s, t).pc.Idle?
    ensures
      var s' := Next(sha, s, Start(t, call));
      if ThreadOf(s, t).inCallback && !call.Create? then Ends(s, s', t, ReentrantMutation)
      else if call.SubmitBatch? && !(1 <= |call.batch| <= 4096) then Ends(s, s', t, InvalidBatch)
      else if call.Register?
        && (call.metadata.leaseId != 0 || call.metadata.state != Registered || call.metadata.device == 0)
      then Ends(s, s', t, InvalidArgument)
      else if call.Create? || call.Destroy? then GoesOn(s, s', t, call, Section1)
      else if call.Complete? || call.Retire? then GoesOn(s, s', t, call, LookUp2)
      else GoesOn(s, s', t, call, LookUp1)
  {
  }

  // Look-ups.

  predicate AtLookUp(pc: Pc) {
    && pc.Busy? && !pc.call.Create? && !pc.call.Destroy?
    && match pc.at
       case LookUp1 => !pc.call.Complete? && !pc.call.Retire?
       case LookUp2 => Transitions(pc.call)
       case LookUp3 => pc.call.Retire?
       case _ => false
  }

  /** A look-up waits for the table; then it finds the core in the table, or answers that there is none. */
  lemma LookUpAnswers(sha: Hash, s: State, t: ThreadId)
    requires AtLookUp(ThreadOf(s, t).pc)
    ensures
      var s', pc := Next(sha, s, Continue(t)), ThreadOf(s, t).pc;
      if s.holder.Some? then s' == s
      else if pc.call.core !in s.table then Ends(s, s', t, UnknownHandle)
      else
        GoesOn(s, s', t, pc.call,
          if pc.at == LookUp1 then Section1 else if pc.at == LookUp2 then Transition else Removal)
  {
  }

  lemma LookedUp(sha: Hash, s: State, a: Action, h: Handle)
    requires HandlesInOrder(s) && PastLookUp(Next(sha, s, a), a.thread, h)
    requires PastLookUp(s, a.thread, h) ==> h in s.objects
    ensures h in s.objects
  {
    hide Section, LeaseTransition, Refused;
    var pc := ThreadOf(s, a.thread).pc;
    if pc.Busy? {
      SectionEnds(sha, s, a.thread, pc.call);
      if Transitions(pc.call) {
        TransitionEnds(s, a.thread, pc.call);
      }
    }
  }

  /** Whoever has looked a core up has it, even after it left the table. */
  lemma {:induction false} LookedUpExists(sha: Hash, actions: seq<Action>, t: ThreadId, h: Handle)
    requires PastLookUp(After(sha, actions), t, h)
    ensures h in After(sha, actions).objects
    decreases |actions|
  {
    hide Next, Inv, LockInOrder, PastLookUp;
    if actions == [] {
      NobodyIsPast(t, h);
    } else {
      var front, a := actions[..|actions| - 1], actions[|actions| - 1];
      var s := After(sha, front);
      EveryInterleavingIsInOrder(sha, front);
      InOrderHandles(s);
      if PastLookUp(s, t, h) {
        LookedUpExists(sha, front, t, h);
      }
      if a.thread == t {
        LookedUp(sha, s, a, h);
      } else {
        OthersStay(sha, s, a, t);
        PastReads(s, Next(sha, s, a), t, h);
      }
      OwnersAreKept(sha, s, a, h);
    }
  }

  lemma NobodyIsPast(t: ThreadId, h: Handle)
    ensures !PastLookUp(INITIAL, t, h)
  {
  }

  // Cores.

  /** A new core is the owner's, without commands and leases, under a handle that was never given out. */
  lemma CreateAnswers(sha: Hash, s: State, t: ThreadId, epoch: u64)
    requires ThreadOf(s, t).pc == Busy(Create(epoch), Section1) && s.holder.None?
    ensures
      var s' := Next(sha, s, Continue(t));
      && s'.table == s.table + {s.next} && s'.next == s.next + 1 && s'.trace == s.trace
      && s'.objects.Keys == s.objects.Keys + {s.next}
      && (forall h | h in s.objects && h != s.next :: s'.objects[h] == s.objects[h])
      && s'.threads == s.threads[t := Thread(Idle, ThreadOf(s, t).inCallback, Some(Success))]
      && var c := s'.objects[s.next];
         c.owner == t && c.epoch == epoch && c.leases == map[] && c.accepted == [] && c.diffs == []
  {
  }

  /** `destroy` refuses a core that is not in the table, not the caller's, or not without leases, in this order. */
  lemma DestroyAnswers(sha: Hash, actions: seq<Action>, t: ThreadId, h: Handle)
    requires ThreadOf(After(sha, actions), t).pc == Busy(Destroy(h), Section1) && After(sha, actions).holder.None?
    ensures
      var s, s' := After(sha, actions), After(sha, actions + [Continue(t)]);
      if h !in s.table then Ends(s, s', t, UnknownHandle)
      else
        && h in s.objects
        && if s.objects[h].owner != t then Ends(s, s', t, InvalidArgument)
           else if s.objects[h].leases != map[] then Ends(s, s', t, BadLeaseState)
           else GoesOn(s, s'.(holder := None), t, Destroy(h), Unlist) && s'.holder == Some(t)
  {
    hide After, Inv, LockInOrder;
    EveryInterleavingIsInOrder(sha, actions);
    InOrderHandles(After(sha, actions));
    AfterMore(sha, actions, Continue(t));
  }

  /** `t` stands at the core section of `call`, on a core as it is in the run. */
  predicate AtCore(sha: Hash, actions: seq<Action>, t: ThreadId, call: Call) {
    ThreadOf(After(sha, actions), t).pc == Busy(call, Section1) && !call.Create? && !call.Destroy?
  }

  lemma CoreIsThere(sha: Hash, actions: seq<Action>, t: ThreadId, call: Call)
    requires AtCore(sha, actions, t, call)
    ensures call.core in After(sha, actions).objects
  {
    hide After;
    LookedUpExists(sha, actions, t, call.core);
  }

  /** The call ends with success, and the core becomes `c`. */
  predicate Succeeds(s: State, s': State, t: ThreadId, h: Handle, c: Core, next: nat, trace: seq<Event>) {
    s' == s.(objects := s.objects[h := c], next := next, trace := trace,
      threads := s.threads[t := Thread(Idle, ThreadOf(s, t).inCallback, Some(Success))])
  }

  /** The epoch is the owner's to set, and never back. */
  lemma SetEpochAnswers(sha: Hash, actions: seq<Action>, t: ThreadId, h: Handle, epoch: u64)
    requires AtCore(sha, actions, t, SetEpoch(h, epoch))
    ensures h in After(sha, actions).objects
    ensures
      var s, s' := After(sha, actions), After(sha, actions + [Continue(t)]);
      var c := s.objects[h];
      if c.owner != t then Ends(s, s', t, InvalidArgument)
      else if epoch < c.epoch then Ends(s, s', t, StaleEpoch)
      else Succeeds(s, s', t, h, c.(epoch := epoch), s.next, s.trace)
  {
    CoreIsThere(sha, actions, t, SetEpoch(h, epoch));
    AfterMore(sha, actions, Continue(t));
    hide After;
  }

  /**
   * A batch is refused to anybody but the owner, then for its epoch, then for its revision, then for the first
   * command in its way.
   */
  lemma SubmitAnswers(sha: Hash, actions: seq<Action>, t: ThreadId, call: Call)
    requires AtCore(sha, actions, t, call) && call.SubmitBatch?
    ensures call.core in After(sha, actions).objects
    ensures
      var s, s' := After(sha, actions), After(sha, actions + [Continue(t)]);
      var c, done := s.objects[call.core], ThreadOf(s', t);
      && done.pc == Idle
      && if c.owner != t then Ends(s, s', t, InvalidArgument)
         else if call.epoch != c.epoch then Ends(s, s', t, StaleEpoch)
         else if call.expected != ShownRevision(sha, c.accepted) then Ends(s, s', t, StaleRevision)
         else if AllParse(call.batch) && Replay(EMPTY, c.accepted + Parsed(call.batch)).Ok? then
           && done.last == Some(Success) && call.core in s'.objects
           && done.inCallback == (ThreadOf(s, t).inCallback || call.callback)
           && s'.objects[call.core].accepted == c.accepted + Parsed(call.batch)
           && s'.objects[call.core].epoch == c.epoch && s'.objects[call.core].leases == c.leases
         else
           exists i, error: Refusal :: FailsAt(c.accepted, call.batch, i, error) && Ends(s, s', t, error)
  {
    hide After, Next, ShownRevision, Replay, Revision, FailsAt;
    CoreIsThere(sha, actions, t, call);
    CoresShowTheirLog(sha, actions, call.core);
    AfterMore(sha, actions, Continue(t));
    var s := After(sha, actions);
    var c := s.objects[call.core];
    EveryCoreInOrder(sha, actions, call.core);
    BatchOutcomeAnswers(sha, c, t, call);
    BatchSection(sha, s, t, call);
  }

  lemma BatchSection(sha: Hash, s: State, t: ThreadId, call: Call)
    requires ThreadOf(s, t).pc == Busy(call, Section1) && call.SubmitBatch? && call.core in s.objects
    ensures
      var s', outcome := Next(sha, s, Continue(t)),
        BatchOutcome(sha, s.objects[call.core], t, call.batch, call.expected, call.epoch);
      if outcome.Err? then Ends(s, s', t, outcome.error)
      else
        && s'.objects == s.objects[call.core := outcome.value]
        && ThreadOf(s', t) == Thread(Idle, ThreadOf(s, t).inCallback || call.callback, Some(Success))
  {
    hide BatchOutcome;
  }

  lemma BatchOutcomeAnswers(sha: Hash, c: Core, t: ThreadId, call: Call)
    requires call.SubmitBatch? && CoreInOrder(sha, c)
    ensures
      var r := BatchOutcome(sha, c, t, call.batch, call.expected, call.epoch);
      if c.owner != t then r == Err(InvalidArgument)
      else if call.epoch != c.epoch then r == Err(StaleEpoch)
      else if call.expected != Revision(c) then r == Err(StaleRevision)
      else if AllParse(call.batch) && Replay(EMPTY, c.accepted + Parsed(call.batch)).Ok? then
        && r.Ok? && r.value.accepted == c.accepted + Parsed(call.batch)
        && r.value.epoch == c.epoch && r.value.leases == c.leases
      else
        r.Err? && exists i :: FailsAt(c.accepted, call.batch, i, r.error)
  {
    hide ApplyAll, Replay, Revision, FailsAt, Shows, Unbroken;
    BatchReplays(sha, c.history, c.accepted, call.batch);
    if ApplyAll(sha, c.history, call.batch).Err? {
      var i := FailedBatchFailsAt(sha, c.history, c.accepted, call.batch);
    }
  }

  /** After a batch with a callback its thread may only `create` until the callback has returned. */
  lemma CallbackEnds(sha: Hash, s: State, t: ThreadId)
    requires ThreadOf(s, t).pc.Idle?
    ensures
      var s' := Next(sha, s, EndCallback(t));
      s' == s.(threads := s.threads[t := Thread(Idle, false, ThreadOf(s, t).last)])
  {
  }

  // Leases.

  /**
   * A lease is registered for the core's epoch and revision, in the name of the caller, under a new number, and
   * refused first for another epoch and then for another revision.
   */
  predicate Registers(s: State, s': State, t: ThreadId, call: Call, revision: seq<byte>)
    requires call.Register? && call.core in s.objects
  {
    var c := s.objects[call.core];
    if call.metadata.epoch != c.epoch then Ends(s, s', t, StaleEpoch)
    else if call.metadata.revision != revision then Ends(s, s', t, StaleRevision)
    else
      var lease := Lease(call.metadata.(leaseId := s.next, state := Registered), Registered, t);
      Succeeds(s, s', t, call.core, c.(leases := c.leases[s.next := lease]), s.next + 1,
        s.trace + [Event(t, RegisterOp, call.core, s.next)])
  }

  lemma RegisterSteps(sha: Hash, s: State, t: ThreadId, call: Call)
    requires ThreadOf(s, t).pc == Busy(call, Section1) && call.Register? && call.core in s.objects
    ensures Registers(s, Next(sha, s, Continue(t)), t, call, Revision(s.objects[call.core]))
  {
    hide Revision;
  }

  lemma RegisterAnswers(sha: Hash, actions: seq<Action>, t: ThreadId, call: Call)
    requires AtCore(sha, actions, t, call) && call.Register?
    ensures call.core in After(sha, actions).objects
    ensures
      var s, s' := After(sha, actions), After(sha, actions + [Continue(t)]);
      Registers(s, s', t, call, ShownRevision(sha, s.objects[call.core].accepted))
  {
    CoreIsThere(sha, actions, t, call);
    CoresShowTheirLog(sha, actions, call.core);
    AfterMore(sha, actions, Continue(t));
    hide After, Next, ShownRevision, Revision, Registers;
    RegisterSteps(sha, After(sha, actions), t, call);
  }

  /** The first core section of `acquire` looks at its arguments alone. */
  lemma AcquireAnswers(sha: Hash, actions: seq<Action>, t: ThreadId, call: Call)
    requires AtCore(sha, actions, t, call) && call.Acquire?
    ensures call.core in After(sha, actions).objects
    ensures
      var s, s' := After(sha, actions), After(sha, actions + [Continue(t)]);
      var c := s.objects[call.core];
      if call.epoch != c.epoch then Ends(s, s', t, StaleEpoch)
      else if call.revision != ShownRevision(sha, c.accepted) then Ends(s, s', t, StaleRevision)
      else GoesOn(s, s', t, call, LookUp2)
  {
    CoreIsThere(sha, actions, t, call);
    CoresShowTheirLog(sha, actions, call.core);
    AfterMore(sha, actions, Continue(t));
    hide After, ShownRevision, Revision;
  }

  /** The first core section of a lease's `submit` looks at the lease. */
  lemma SubmitLeaseAnswers(sha: Hash, actions: seq<Action>, t: ThreadId, call: Call)
    requires AtCore(sha, actions, t, call) && call.SubmitLease?
    ensures call.core in After(sha, actions).objects
    ensures
      var s, s' := After(sha, actions), After(sha, actions + [Continue(t)]);
      var c := s.objects[call.core];
      if call.lease !in c.leases then Ends(s, s', t, UnknownHandle)
      else if c.leases[call.lease].metadata.epoch != c.epoch then Ends(s, s', t, StaleEpoch)
      else if c.leases[call.lease].metadata.revision != ShownRevision(sha, c.accepted) then
        Ends(s, s', t, StaleRevision)
      else GoesOn(s, s', t, call, LookUp2)
  {
    CoreIsThere(sha, actions, t, call);
    CoresShowTheirLog(sha, actions, call.core);
    AfterMore(sha, actions, Continue(t));
    hide After, ShownRevision, Revision;
  }

  /** Only its owner discards a lease, and only before it was submitted. */
  lemma DiscardAnswers(sha: Hash, actions: seq<Action>, t: ThreadId, h: Handle, id: nat, device: u64)
    requires AtCore(sha, actions, t, Discard(h, id, device))
    ensures h in After(sha, actions).objects
    ensures
      var s, s' := After(sha, actions), After(sha, actions + [Continue(t)]);
      var c := s.objects[h];
      if id !in c.leases then Ends(s, s', t, UnknownHandle)
      else if c.leases[id].metadata.device != device then Ends(s, s', t, StaleDevice)
      else if c.leases[id].owner != t then Ends(s, s', t, InvalidArgument)
      else if c.leases[id].state != Registered && c.leases[id].state != Acquired then Ends(s, s', t, BadLeaseState)
      else Succeeds(s, s', t, h, c.(leases := c.leases - {id}), s.next, s.trace + [Event(t, DiscardOp, h, id)])
  {
    CoreIsThere(sha, actions, t, Discard(h, id, device));
    AfterMore(sha, actions, Continue(t));
    hide After;
  }

  /** The step of a lease that a call takes: from which state to which. */
  predicate Takes(call: Call, from: LeaseState, to: LeaseState, op: LeaseOp) {
    || (call.Acquire? && from == Registered && to == Acquired && op == AcquireOp)
    || (call.SubmitLease? && from == Acquired && to == Submitted && op == SubmitOp)
    || (call.Complete? && from == Submitted && to == Completed && op == CompleteOp)
    || (call.Retire? && from == Completed && to == Retired && op == RetireOp)
  }

  /** Every step of a lease is refused in one order, and else moves the lease and its metadata together. */
  lemma TransitionAnswers(
      sha: Hash, actions: seq<Action>, t: ThreadId, call: Call, from: LeaseState, to: LeaseState, op: LeaseOp)
    requires ThreadOf(After(sha, actions), t).pc == Busy(call, Transition) && Takes(call, from, to, op)
    ensures call.core in After(sha, actions).objects
    ensures
      var s, s' := After(sha, actions), After(sha, actions + [Continue(t)]);
      var c, id := s.objects[call.core], call.lease;
      if id !in c.leases then Ends(s, s', t, UnknownHandle)
      else if c.leases[id].metadata.device != call.device then Ends(s, s', t, StaleDevice)
      else if c.leases[id].owner != t then Ends(s, s', t, InvalidArgument)
      else if c.leases[id].state != from then Ends(s, s', t, BadLeaseState)
      else
        var l := c.leases[id];
        var moved := c.(leases := c.leases[id := Lease(l.metadata.(state := to), to, l.owner)]);
        && s'.objects == s.objects[call.core := moved] && s'.table == s.table && s'.next == s.next
        && s'.trace == s.trace + [Event(t, op, call.core, id)]
        && ThreadOf(s', t).pc == (if call.Retire? then Busy(call, LookUp3) else Idle)
        && (!call.Retire? ==> ThreadOf(s', t).last == Some(Success))
  {
    LookedUpExists(sha, actions, t, call.core);
    AfterMore(sha, actions, Continue(t));
    hide After;
  }

  /** `retire` ends by taking its lease out of the core. */
  lemma RemovalAnswers(sha: Hash, actions: seq<Action>, t: ThreadId, call: Call)
    requires ThreadOf(After(sha, actions), t).pc == Busy(call, Removal) && call.Retire?
    ensures call.core in After(sha, actions).objects
    ensures
      var s, s' := After(sha, actions), After(sha, actions + [Continue(t)]);
      var c := s.objects[call.core];
      Succeeds(s, s', t, call.core, c.(leases := c.leases - {call.lease}), s.next, s.trace)
  {
    LookedUpExists(sha, actions, t, call.core);
    AfterMore(sha, actions, Continue(t));
    hide After;
  }
}
