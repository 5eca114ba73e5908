/** Runs that show what the calls of the C ABI do not promise. */
module Races {
  import opened Wrappers
  import opened Bytes
  import opened Histories
  import opened Cores
  import opened Steps
  import opened Interleavings
  import opened Instants
  import opened Destroys
  import opened Registrations
  import opened Drains

  const PLAIN_FRAME: FrameMetadata := FrameMetadata(0, ZERO_DIGEST, 0, 1, Registered)

  /** The first core of a run: no commands, owned by thread 0. */
  function PlainCore(epoch: u64, leases: map<nat, Lease>): Core {
    Core(NEW_HISTORY, epoch, leases, 0, [], [])
  }

  function PlainLease(owner: ThreadId): Lease {
    Lease(PLAIN_FRAME.(leaseId := 2), Registered, owner)
  }

  /** Core 1 is in the table as given, with its first lease still to come or already there. */
  predicate Shows(s: State, c: Core, next: nat) {
    s.table == {1} && s.holder.None? && 1 in s.objects && s.objects[1] == c && s.next == next
  }

  lemma EmptyRun(sha: Hash)
    ensures After(sha, []) == INITIAL
  {
  }

  lemma Then(sha: Hash, actions: seq<Action>, a: Action) returns (longer: seq<Action>)
    ensures After(sha, longer) == Next(sha, After(sha, actions), a)
  {
    longer := actions + [a];
    AfterMore(sha, actions, a);
  }

  lemma CreateRuns(sha: Hash)
    ensures
      var s := Next(sha, Next(sha, INITIAL, Start(0, Create(0))), Continue(0));
      Shows(s, PlainCore(0, map[]), 2) && forall t: ThreadId :: Free(s, t)
  {
  }

  /** `register` up to its core section. */
  lemma RegisterStarts(sha: Hash, s: State, t: ThreadId, c: Core)
    requires Free(s, t) && Shows(s, c, 2)
    ensures
      var s' := Next(sha, Next(sha, s, Start(t, Register(1, PLAIN_FRAME))), Continue(t));
      && s' == SetThread(s, t, ThreadOf(s', t))
      && ThreadOf(s', t).pc == Busy(Register(1, PLAIN_FRAME), Section1) && !ThreadOf(s', t).inCallback
      && forall u: ThreadId :: u != t ==> ThreadOf(s', u) == ThreadOf(s, u)
  {
  }

  lemma PlainWouldRegister(s: State, t: ThreadId)
    requires ThreadOf(s, t).pc == Busy(Register(1, PLAIN_FRAME), Section1)
    requires 1 in s.objects && s.objects[1] == PlainCore(0, map[])
    ensures WouldRegister(s, t, 1)
  {
  }

  /** A run of thread `t` after which it has registered lease 2 on core 1, at epoch 0. */
  lemma LeaseRegistered(sha: Hash, t: ThreadId) returns (actions: seq<Action>)
    ensures
      var s := After(sha, actions);
      Shows(s, PlainCore(0, map[2 := PlainLease(t)]), 3) && Free(s, 0) && Free(s, t)
  {
    hide After, Next, Revision;
    EmptyRun(sha);
    CreateRuns(sha);
    actions := Then(sha, [], Start(0, Create(0)));
    actions := Then(sha, actions, Continue(0));
    var created := After(sha, actions);
    assert Free(created, 0) && Free(created, t);
    RegisterStarts(sha, created, t, PlainCore(0, map[]));
    actions := Then(sha, actions, Start(t, Register(1, PLAIN_FRAME)));
    actions := Then(sha, actions, Continue(t));
    PlainWouldRegister(After(sha, actions), t);
    RegisterEnds(sha, After(sha, actions), t, 1);
    if t != 0 {
      assert ThreadOf(After(sha, actions), 0) == ThreadOf(created, 0);
      OthersStay(sha, After(sha, actions), Continue(t), 0);
    }
    actions := Then(sha, actions, Continue(t));
  }

  /** The owner moves core 1 to epoch 1; nobody else moves. */
  lemma SetEpochRuns(sha: Hash, s: State, leases: map<nat, Lease>)
    requires Free(s, 0) && Shows(s, PlainCore(0, leases), 3)
    ensures
      var s' := Next(sha, Next(sha, Next(sha, s, Start(0, SetEpoch(1, 1))), Continue(0)), Continue(0));
      && Shows(s', PlainCore(1, leases), 3) && Free(s', 0)
      && forall u: ThreadId :: u != 0 ==> ThreadOf(s', u) == ThreadOf(s, u)
  {
  }

  /** `acquire` up to its check. */
  lemma AcquireStarts(sha: Hash, s: State, t: ThreadId, call: Call, c: Core)
    requires call.Acquire? && call.core == 1 && Free(s, t) && Shows(s, c, 3)
    ensures
      var s' := Next(sha, Next(sha, s, Start(t, call)), Continue(t));
      s' == SetThread(s, t, ThreadOf(s', t)) && ThreadOf(s', t).pc == Busy(call, Section1)
  {
  }

  /** The check passes for the core's epoch and revision. */
  lemma AcquireChecks(sha: Hash, s: State, t: ThreadId, epoch: u64, leases: map<nat, Lease>)
    requires ThreadOf(s, t).pc == Busy(Acquire(1, 2, 1, epoch, ZERO_DIGEST), Section1)
    requires Shows(s, PlainCore(epoch, leases), 3)
    ensures
      var s' := Next(sha, s, Continue(t));
      s' == SetThread(s, t, ThreadOf(s', t)) && ThreadOf(s', t).pc == Busy(ThreadOf(s, t).pc.call, LookUp2)
  {
  }

  lemma AcquireLooksUp(sha: Hash, s: State, t: ThreadId, call: Call, c: Core)
    requires call.Acquire? && call.core == 1 && ThreadOf(s, t).pc == Busy(call, LookUp2) && Shows(s, c, 3)
    ensures
      var s' := Next(sha, s, Continue(t));
      s' == SetThread(s, t, ThreadOf(s', t)) && ThreadOf(s', t).pc == Busy(call, Transition)
  {
  }

  lemma AcquireEnds(sha: Hash, s: State, t: ThreadId, call: Call, epoch: u64)
    requires call.Acquire? && call.core == 1 && call.lease == 2 && call.device == 1
    requires ThreadOf(s, t).pc == Busy(call, Transition)
    requires Shows(s, PlainCore(epoch, map[2 := PlainLease(t)]), 3) && epoch != 0
    ensures
      var s' := Next(sha, s, Continue(t));
      && s'.trace == s.trace + [Event(t, AcquireOp, 1, 2)] && !LeaseIsCurrent(s', 1, 2)
      && HasTheLease(s, 1, 2) && (ArgumentsAgree(s, call) <==> call.epoch == 0 && call.revision == ZERO_DIGEST)
  {
  }

  /** Action `a` acquires a lease in `call`, which passed its check at action `m`, and the lease is not current. */
  ghost predicate AcquiresStale(sha: Hash, actions: seq<Action>, a: Action, e: Event, m: nat, call: Call) {
    && e.op == AcquireOp && Records(sha, actions, a, e)
    && CheckedAt(sha, actions, e.thread, call, m) && call.Acquire? && IsOperationOf(e, call)
    && HasTheLease(After(sha, actions), e.core, e.lease)
    && !LeaseIsCurrent(After(sha, actions + [a]), e.core, e.lease)
  }

  /** From the look-up on, the call that stands there is the one that acquires the lease. */
  lemma EndsStale(sha: Hash, before: seq<Action>, t: ThreadId, call: Call, epoch: u64)
    returns (actions: seq<Action>, e: Event, m: nat)
    requires call.Acquire? && call.core == 1 && call.lease == 2 && call.device == 1 && epoch != 0
    requires ThreadOf(After(sha, before), t).pc == Busy(call, LookUp2)
    requires Shows(After(sha, before), PlainCore(epoch, map[2 := PlainLease(t)]), 3)
    ensures AcquiresStale(sha, actions, Continue(t), e, m, call)
    ensures ArgumentsAgree(After(sha, actions), call) <==> call.epoch == 0 && call.revision == ZERO_DIGEST
  {
    hide After, Next, LeaseIsCurrent, CheckedAt, HeldAt, ArgumentsAgree;
    AcquireLooksUp(sha, After(sha, before), t, call, PlainCore(epoch, map[2 := PlainLease(t)]));
    actions := Then(sha, before, Continue(t));
    AcquireEnds(sha, After(sha, actions), t, call, epoch);
    AfterMore(sha, actions, Continue(t));
    e := Event(t, AcquireOp, 1, 2);
    m := WasChecked(sha, actions, t, call);
  }

  /**
   * With arguments that are not the lease's: a call that names the core's epoch 1 acquires a lease of epoch 0.
   */
  lemma AcquiredLeaseCanBeStale(sha: Hash)
    returns (actions: seq<Action>, a: Action, e: Event, m: nat, call: Call)
    ensures AcquiresStale(sha, actions, a, e, m, call) && !ArgumentsAgree(After(sha, actions), call)
  {
    hide After, Next, LeaseIsCurrent, ArgumentsAgree, AcquiresStale;
    call := Acquire(1, 2, 1, 1, ZERO_DIGEST);
    var leases := map[2 := PlainLease(0)];
    var before := LeaseRegistered(sha, 0);
    SetEpochRuns(sha, After(sha, before), leases);
    before := Then(sha, before, Start(0, SetEpoch(1, 1)));
    before := Then(sha, before, Continue(0));
    before := Then(sha, before, Continue(0));
    AcquireStarts(sha, After(sha, before), 0, call, PlainCore(1, leases));
    before := Then(sha, before, Start(0, call));
    before := Then(sha, before, Continue(0));
    AcquireChecks(sha, After(sha, before), 0, 1, leases);
    before := Then(sha, before, Continue(0));
    a := Continue(0);
    actions, e, m := EndsStale(sha, before, 0, call, 1);
  }

  /** With the lease's own epoch and revision as arguments: the core moves between check and transition. */
  lemma AcquireCanBeOvertaken(sha: Hash)
    returns (actions: seq<Action>, a: Action, e: Event, m: nat, call: Call)
    ensures AcquiresStale(sha, actions, a, e, m, call) && ArgumentsAgree(After(sha, actions), call)
  {
    hide After, Next, LeaseIsCurrent, ArgumentsAgree, AcquiresStale;
    call := Acquire(1, 2, 1, 0, ZERO_DIGEST);
    var leases := map[2 := PlainLease(1)];
    var before := LeaseRegistered(sha, 1);
    AcquireStarts(sha, After(sha, before), 1, call, PlainCore(0, leases));
    before := Then(sha, before, Start(1, call));
    before := Then(sha, before, Continue(1));
    AcquireChecks(sha, After(sha, before), 1, 0, leases);
    before := Then(sha, before, Continue(1));
    SetEpochRuns(sha, After(sha, before), leases);
    before := Then(sha, before, Start(0, SetEpoch(1, 1)));
    before := Then(sha, before, Continue(0));
    before := Then(sha, before, Continue(0));
    a := Continue(1);
    actions, e, m := EndsStale(sha, before, 1, call, 1);
  }

  /** `destroy` on the fresh core, up to its check. */
  lemma DestroyChecks(sha: Hash, s: State)
    requires Free(s, 0) && Shows(s, PlainCore(0, map[]), 2)
    ensures
      var s' := Next(sha, Next(sha, s, Start(0, Destroy(1))), Continue(0));
      && Unlists(s', 0, 1) && s' == SetThread(s, 0, ThreadOf(s', 0)).(holder := Some(0))
      && forall u: ThreadId :: u != 0 ==> ThreadOf(s', u) == ThreadOf(s, u)
  {
  }

  /** Thread 1 stands at a `register` on core 1, which its owner has checked and is about to take away. */
  lemma BothInside(sha: Hash) returns (actions: seq<Action>)
    ensures
      var s := After(sha, actions);
      && Unlists(s, 0, 1) && WouldRegister(s, 1, 1) && s.holder == Some(0)
      && 1 in s.table && s.objects[1].leases == map[] && s.next == 2
  {
    hide After, Next, WouldRegister;
    EmptyRun(sha);
    CreateRuns(sha);
    actions := Then(sha, [], Start(0, Create(0)));
    actions := Then(sha, actions, Continue(0));
    var created := After(sha, actions);
    assert Free(created, 0) && Free(created, 1);
    RegisterStarts(sha, created, 1, PlainCore(0, map[]));
    actions := Then(sha, actions, Start(1, Register(1, PLAIN_FRAME)));
    actions := Then(sha, actions, Continue(1));
    var waiting := After(sha, actions);
    assert ThreadOf(waiting, 0) == ThreadOf(created, 0);
    DestroyChecks(sha, waiting);
    actions := Then(sha, actions, Start(0, Destroy(1)));
    actions := Then(sha, actions, Continue(0));
    assert ThreadOf(After(sha, actions), 1) == ThreadOf(waiting, 1);
    PlainWouldRegister(After(sha, actions), 1);
  }

  lemma UnlistRuns(sha: Hash, s: State)
    requires Unlists(s, 0, 1)
    ensures
      var s' := Next(sha, s, Continue(0));
      && s'.table == s.table - {1} && s'.objects == s.objects && s'.next == s.next
      && forall u: ThreadId :: u != 0 ==> ThreadOf(s', u) == ThreadOf(s, u)
  {
  }

  /** The lease comes between the check and the removal: the core leaves the table with a lease in it. */
  lemma CoreCanLeaveWithALease(sha: Hash) returns (actions: seq<Action>)
    ensures
      var s, s' := After(sha, actions), After(sha, actions + [Continue(0)]);
      && 1 in s.table && 1 !in s'.table && HasTheLease(s, 1, 2) && HasTheLease(s', 1, 2)
  {
    hide After, Next, WouldRegister;
    var before := BothInside(sha);
    RegisterEnds(sha, After(sha, before), 1, 1);
    OthersStay(sha, After(sha, before), Continue(1), 0);
    actions := Then(sha, before, Continue(1));
    UnlistRuns(sha, After(sha, actions));
    AfterMore(sha, actions, Continue(0));
  }

  /** The lease comes after the removal: a core that has left the table without leases gains one. */
  lemma RemovedCoreCanGainALease(sha: Hash) returns (actions: seq<Action>)
    ensures
      var s, s' := After(sha, actions), After(sha, actions + [Continue(1)]);
      Lost(s, 1) && s.objects[1].leases == map[] && Lost(s', 1) && HasTheLease(s', 1, 2)
  {
    hide After, Next, Revision;
    var before := BothInside(sha);
    UnlistRuns(sha, After(sha, before));
    actions := Then(sha, before, Continue(0));
    RegisterEnds(sha, After(sha, actions), 1, 1);
    AfterMore(sha, actions, Continue(1));
  }
}
