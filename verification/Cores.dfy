/**
 * The C ABI as a machine of many threads. One step is one lock section; between the sections of one call
 * other threads may do anything.
 */
module Cores {
  import opened Wrappers
  import opened Bytes
  import opened Projects
  import opened ProjectCodec
  import opened Histories

  type ThreadId = nat
  type Handle = nat

  datatype StitchResult =
    | Success | InvalidArgument | UnknownHandle | BadEnum | BadRational | InvalidBatch
    | StaleRevision | StaleEpoch | StaleDevice | BadLeaseState | ReentrantMutation | ModelFailure

  /** Every answer but success. */
  type Refusal = r: StitchResult | r != Success witness InvalidArgument

  datatype LeaseState = Registered | Acquired | Submitted | Completed | Retired

  datatype FrameMetadata = FrameMetadata(leaseId: nat, revision: Digest, epoch: u64, device: u64, state: LeaseState)

  datatype Lease = Lease(metadata: FrameMetadata, state: LeaseState, owner: ThreadId)

  datatype Diff = Diff(previous: Digest, revision: Digest, projectDigest: Digest, epoch: u64)

  type CoreHistory = h: History | InBounds(h) && h.cursor == |h.revisions| witness NEW_HISTORY

  /** `accepted` and `diffs` record what batches did to this core; the code does not read them. */
  datatype Core = Core(
    history: CoreHistory, epoch: u64, leases: map<nat, Lease>, owner: ThreadId,
    accepted: seq<Command>, diffs: seq<Diff>)

  /** Thirty-two zero bytes. */
  const ZERO_DIGEST: Digest := ToBe(0, 32)

  function DigestOf(hash: Option<Digest>): Digest {
    if hash.Some? then hash.value else ZERO_DIGEST
  }

  function Revision(c: Core): Digest {
    DigestOf(CurrentHash(c.history))
  }

  /** A raw command either parses or carries the error that `command` gives it. */
  type Batch = seq<Result<Command, Refusal>>

  datatype Call =
    | Create(epoch: u64)
    | Destroy(core: Handle)
    | SetEpoch(core: Handle, epoch: u64)
    | SubmitBatch(core: Handle, batch: Batch, expected: Digest, epoch: u64, callback: bool)
    | Register(core: Handle, metadata: FrameMetadata)
    | Acquire(core: Handle, lease: nat, device: u64, epoch: u64, revision: Digest)
    | Discard(core: Handle, lease: nat, device: u64)
    | SubmitLease(core: Handle, lease: nat, device: u64)
    | Complete(core: Handle, lease: nat, device: u64)
    | Retire(core: Handle, lease: nat, device: u64)

  /**
   * Where a call stands: the lock section it enters next. At `Unlist` a `destroy` has checked its core and let
   * go of the core, but not of the table.
   */
  datatype Point = LookUp1 | Section1 | Unlist | LookUp2 | Transition | LookUp3 | Removal

  datatype Pc = Idle | Busy(call: Call, at: Point)

  datatype Thread = Thread(pc: Pc, inCallback: bool, last: Option<StitchResult>)

  datatype LeaseOp = RegisterOp | AcquireOp | DiscardOp | SubmitOp | CompleteOp | RetireOp

  /** A successful lease operation. */
  datatype Event = Event(thread: ThreadId, op: LeaseOp, core: Handle, lease: nat)

  /**
   * `table` is the core table, and `holder` the thread that keeps its lock from one section to the next;
   * `objects` also holds cores that left the table while a call still held them. `trace` records the
   * successful lease operations.
   */
  datatype State = State(
    objects: map<Handle, Core>, table: set<Handle>, holder: Option<ThreadId>, next: nat,
    threads: map<ThreadId, Thread>, trace: seq<Event>)

  const MAX_COMMANDS: int := 4096

  const INITIAL: State := State(map[], {}, None, 1, map[], [])

  function ThreadOf(s: State, t: ThreadId): Thread {
    if t in s.threads then s.threads[t] else Thread(Idle, false, None)
  }

  function SetThread(s: State, t: ThreadId, thread: Thread): State {
    s.(threads := s.threads[t := thread])
  }

  function Finish(s: State, t: ThreadId, r: StitchResult): State {
    SetThread(s, t, Thread(Idle, ThreadOf(s, t).inCallback, Some(r)))
  }

  function Goto(s: State, t: ThreadId, call: Call, at: Point): State {
    SetThread(s, t, Thread(Busy(call, at), ThreadOf(s, t).inCallback, ThreadOf(s, t).last))
  }

  function SetCore(s: State, h: Handle, c: Core): State {
    s.(objects := s.objects[h := c])
  }

  function Record(s: State, e: Event): State {
    s.(trace := s.trace + [e])
  }

  function FirstPoint(call: Call): Point {
    match call
    case Create(_) => Section1
    case Destroy(_) => Section1
    case Complete(_, _, _) => LookUp2
    case Retire(_, _, _) => LookUp2
    case _ => LookUp1
  }

  /** What a call refuses by its arguments alone. */
  function Refused(call: Call): Option<Refusal> {
    match call
    case SubmitBatch(_, batch, _, _, _) =>
      if |batch| == 0 || |batch| > MAX_COMMANDS then Some(InvalidBatch) else None
    case Register(_, metadata) =>
      if metadata.leaseId != 0 || !metadata.state.Registered? || metadata.device == 0 then Some(InvalidArgument)
      else None
    case _ => None
  }

  /** `core(handle)`: one section on the table. */
  function LookUp(s: State, t: ThreadId, call: Call, next: Point): State
    requires !call.Create?
  {
    if call.core in s.table then Goto(s, t, call, next) else Finish(s, t, UnknownHandle)
  }

  // Batches.

  function ApplyAll(sha: Hash, h: CoreHistory, batch: Batch): (r: Result<CoreHistory, Refusal>) {
    if batch == [] then Ok(h)
    else
      var before :- ApplyAll(sha, h, batch[..|batch| - 1]);
      var command :- batch[|batch| - 1];
      var applied := Apply(sha, before, command);
      if applied.Err? then Err(ModelFailure) else Ok(applied.value)
  }

  function Parsed(batch: Batch): (commands: seq<Command>)
    requires forall i :: 0 <= i < |batch| ==> batch[i].Ok?
  {
    seq(|batch|, i requires 0 <= i < |batch| => batch[i].value)
  }

  lemma {:induction false} AppliedBatchParses(sha: Hash, h: CoreHistory, batch: Batch)
    requires ApplyAll(sha, h, batch).Ok?
    ensures forall i :: 0 <= i < |batch| ==> batch[i].Ok?
  {
    hide Apply;
    if batch != [] {
      AppliedBatchParses(sha, h, batch[..|batch| - 1]);
    }
  }

  /** The core section of `stitch_core_submit`: the clone is committed as a whole or dropped. */
  function BatchOutcome(sha: Hash, c: Core, t: ThreadId, batch: Batch, expected: Digest, epoch: u64)
    : (r: Result<Core, Refusal>)
  {
    if c.owner != t then Err(InvalidArgument)
    else if epoch != c.epoch then Err(StaleEpoch)
    else if Revision(c) != expected then Err(StaleRevision)
    else
      var next :- ApplyAll(sha, c.history, batch);
      AppliedBatchParses(sha, c.history, batch);
      var revision := DigestOf(CurrentHash(next));
      var diff := Diff(Revision(c), revision, sha(EncodeProject(CurrentProject(next))), c.epoch);
      Ok(c.(history := next, accepted := c.accepted + Parsed(batch), diffs := c.diffs + [diff]))
  }

  // What the lock sections do to the core they hold, or why they refuse.

  function SetEpochOn(c: Core, t: ThreadId, epoch: u64): Result<Core, Refusal> {
    if c.owner != t then Err(InvalidArgument)
    else if epoch < c.epoch then Err(StaleEpoch)
    else Ok(c.(epoch := epoch))
  }

  function RegisterOn(c: Core, t: ThreadId, metadata: FrameMetadata, id: nat): Result<Core, Refusal> {
    if metadata.epoch != c.epoch then Err(StaleEpoch)
    else if metadata.revision != Revision(c) then Err(StaleRevision)
    else Ok(c.(leases := c.leases[id := Lease(metadata.(leaseId := id, state := Registered), Registered, t)]))
  }

  function AcquireCheck(c: Core, epoch: u64, revision: Digest): Result<(), Refusal> {
    if epoch != c.epoch then Err(StaleEpoch)
    else if revision != Revision(c) then Err(StaleRevision)
    else Ok(())
  }

  function SubmitCheck(c: Core, id: nat): Result<(), Refusal> {
    if id !in c.leases then Err(UnknownHandle)
    else if c.leases[id].metadata.epoch != c.epoch then Err(StaleEpoch)
    else if c.leases[id].metadata.revision != Revision(c) then Err(StaleRevision)
    else Ok(())
  }

  function DiscardOn(c: Core, t: ThreadId, id: nat, device: u64): Result<Core, Refusal> {
    if id !in c.leases then Err(UnknownHandle)
    else if c.leases[id].metadata.device != device then Err(StaleDevice)
    else if c.leases[id].owner != t then Err(InvalidArgument)
    else if !c.leases[id].state.Registered? && !c.leases[id].state.Acquired? then Err(BadLeaseState)
    else Ok(c.(leases := c.leases - {id}))
  }

  /** The core section of `lease_transition`. */
  function TransitionOn(c: Core, t: ThreadId, id: nat, device: u64, expected: LeaseState, next: LeaseState)
    : Result<Core, Refusal>
  {
    if id !in c.leases then Err(UnknownHandle)
    else
      var lease := c.leases[id];
      if lease.metadata.device != device then Err(StaleDevice)
      else if lease.owner != t then Err(InvalidArgument)
      else if lease.state != expected then Err(BadLeaseState)
      else Ok(c.(leases := c.leases[id := Lease(lease.metadata.(state := next), next, lease.owner)]))
  }

  /** The last section of `stitch_frame_lease_retire`. */
  function RemoveOn(c: Core, id: nat): Core {
    c.(leases := c.leases - {id})
  }

  predicate Transitions(call: Call) {
    call.Acquire? || call.SubmitLease? || call.Complete? || call.Retire?
  }

  function Expected(call: Call): LeaseState
    requires Transitions(call)
  {
    match call
    case Acquire(_, _, _, _, _) => Registered
    case SubmitLease(_, _, _) => Acquired
    case Complete(_, _, _) => Submitted
    case Retire(_, _, _) => Completed
  }

  function Target(call: Call): LeaseState
    requires Transitions(call)
  {
    match call
    case Acquire(_, _, _, _, _) => Acquired
    case SubmitLease(_, _, _) => Submitted
    case Complete(_, _, _) => Completed
    case Retire(_, _, _) => Retired
  }

  function OpOf(call: Call): LeaseOp
    requires Transitions(call)
  {
    match call
    case Acquire(_, _, _, _, _) => AcquireOp
    case SubmitLease(_, _, _) => SubmitOp
    case Complete(_, _, _) => CompleteOp
    case Retire(_, _, _) => RetireOp
  }

  // Lock sections.

  function Section(sha: Hash, s: State, t: ThreadId, call: Call): State {
    match call
    case Create(epoch) =>
      var c := Core(NEW_HISTORY, epoch, map[], t, [], []);
      Finish(SetCore(s, s.next, c).(table := s.table + {s.next}, next := s.next + 1), t, Success)
    case Destroy(h) =>
      if h !in s.table || h !in s.objects then Finish(s, t, UnknownHandle)
      else if s.objects[h].owner != t then Finish(s, t, InvalidArgument)
      else if s.objects[h].leases != map[] then Finish(s, t, BadLeaseState)
      else Goto(s.(holder := Some(t)), t, call, Unlist)
    case _ =>
      if call.core !in s.objects then Finish(s, t, UnknownHandle)
      else CoreSection(sha, s, t, call, s.objects[call.core])
  }

  /** The section left core `h` as `outcome` says, and `next` is the next handle; or it refused. */
  function Settle(s: State, t: ThreadId, h: Handle, outcome: Result<Core, Refusal>, next: nat): State {
    if outcome.Err? then Finish(s, t, outcome.error)
    else Finish(SetCore(s, h, outcome.value).(next := next), t, Success)
  }

  function CoreSection(sha: Hash, s: State, t: ThreadId, call: Call, c: Core): State
    requires !call.Create? && !call.Destroy?
  {
    match call
    case SetEpoch(h, epoch) => Settle(s, t, h, SetEpochOn(c, t, epoch), s.next)
    case SubmitBatch(h, batch, expected, epoch, callback) =>
      var outcome := BatchOutcome(sha, c, t, batch, expected, epoch);
      var done := Settle(s, t, h, outcome, s.next + 1);
      if outcome.Ok? && callback then SetThread(done, t, ThreadOf(done, t).(inCallback := true)) else done
    case Register(h, metadata) =>
      var outcome := RegisterOn(c, t, metadata, s.next);
      var done := Settle(s, t, h, outcome, s.next + 1);
      if outcome.Ok? then Record(done, Event(t, RegisterOp, h, s.next)) else done
    case Acquire(h, _, _, epoch, revision) =>
      var checked := AcquireCheck(c, epoch, revision);
      if checked.Err? then Finish(s, t, checked.error) else Goto(s, t, call, LookUp2)
    case Discard(h, id, device) =>
      var outcome := DiscardOn(c, t, id, device);
      var done := Settle(s, t, h, outcome, s.next);
      if outcome.Ok? then Record(done, Event(t, DiscardOp, h, id)) else done
    case SubmitLease(h, id, _) =>
      var checked := SubmitCheck(c, id);
      if checked.Err? then Finish(s, t, checked.error) else Goto(s, t, call, LookUp2)
    case _ => Finish(s, t, InvalidArgument)
  }

  function LeaseTransition(s: State, t: ThreadId, call: Call): State
    requires Transitions(call)
  {
    if call.core !in s.objects then Finish(s, t, UnknownHandle)
    else
      var outcome := TransitionOn(s.objects[call.core], t, call.lease, call.device, Expected(call), Target(call));
      if outcome.Err? then Finish(s, t, outcome.error)
      else
        var changed := Record(SetCore(s, call.core, outcome.value), Event(t, OpOf(call), call.core, call.lease));
        if call.Retire? then Goto(changed, t, call, LookUp3) else Finish(changed, t, Success)
  }

  function Remove(s: State, t: ThreadId, call: Call): State
    requires call.Retire?
  {
    if call.core !in s.objects then Finish(s, t, UnknownHandle)
    else Finish(SetCore(s, call.core, RemoveOn(s.objects[call.core], call.lease)), t, Success)
  }

  predicate WellPlaced(pc: Pc) {
    pc.Busy? ==>
      match pc.at
      case LookUp1 => FirstPoint(pc.call) == LookUp1
      case Section1 => !pc.call.Complete? && !pc.call.Retire?
      case Unlist => pc.call.Destroy?
      case LookUp2 => Transitions(pc.call)
      case Transition => Transitions(pc.call)
      case LookUp3 => pc.call.Retire?
      case Removal => pc.call.Retire?
  }

  /** The last section of `stitch_core_destroy`: whatever the core holds by now, it leaves the table. */
  function UnlistCore(s: State, t: ThreadId, h: Handle): State {
    Finish(s.(table := s.table - {h}, holder := None), t, Success)
  }

  /** Look-ups, `create` and `destroy` wait while another thread keeps the table. */
  predicate Waits(s: State, pc: Pc) {
    && s.holder.Some? && pc.Busy?
    && (pc.at == LookUp1 || pc.at == LookUp2 || pc.at == LookUp3
        || (pc.at == Section1 && (pc.call.Create? || pc.call.Destroy?)))
  }

  function Advance(sha: Hash, s: State, t: ThreadId): State {
    var pc := ThreadOf(s, t).pc;
    if pc.Idle? || !WellPlaced(pc) || Waits(s, pc) then s
    else
      match pc.at
      case LookUp1 => LookUp(s, t, pc.call, Section1)
      case Section1 => Section(sha, s, t, pc.call)
      case Unlist => UnlistCore(s, t, pc.call.core)
      case LookUp2 => LookUp(s, t, pc.call, Transition)
      case Transition => LeaseTransition(s, t, pc.call)
      case LookUp3 => LookUp(s, t, pc.call, Removal)
      case Removal => Remove(s, t, pc.call)
  }

  /** Any thread may start a call, take its next lock section, or return from its callback. */
  datatype Action = Start(thread: ThreadId, call: Call) | Continue(thread: ThreadId) | EndCallback(thread: ThreadId)

  function Next(sha: Hash, s: State, a: Action): State {
    match a
    case Start(t, call) =>
      if !ThreadOf(s, t).pc.Idle? then s
      else if ThreadOf(s, t).inCallback && !call.Create? then Finish(s, t, ReentrantMutation)
      else if Refused(call).Some? then Finish(s, t, Refused(call).value)
      else Goto(s, t, call, FirstPoint(call))
    case Continue(t) => Advance(sha, s, t)
    case EndCallback(t) =>
      if !ThreadOf(s, t).pc.Idle? then s
      else SetThread(s, t, ThreadOf(s, t).(inCallback := false))
  }

  /** The state after an interleaving. */
  function After(sha: Hash, actions: seq<Action>): State {
    if actions == [] then INITIAL
    else Next(sha, After(sha, actions[..|actions| - 1]), actions[|actions| - 1])
  }

  /** Handles are given out in order, and the table lists only cores that exist. */
  predicate HandlesInOrder(s: State) {
    && (forall h | h in s.table :: h in s.objects)
    && (forall h | h in s.objects :: h < s.next)
  }

  /** A section ends its call, except where the call has another section to go to. */
  lemma SectionEnds(sha: Hash, s: State, t: ThreadId, call: Call)
    ensures
      var pc := ThreadOf(Section(sha, s, t, call), t).pc;
      || pc == Idle
      || ((call.Acquire? || call.SubmitLease?) && pc == Busy(call, LookUp2))
      || (call.Destroy? && pc == Busy(call, Unlist))
  {
    hide Revision, BatchOutcome;
  }

  lemma TransitionEnds(s: State, t: ThreadId, call: Call)
    requires Transitions(call)
    ensures
      var pc := ThreadOf(LeaseTransition(s, t, call), t).pc;
      pc == Idle || (call.Retire? && pc == Busy(call, LookUp3))
  {
  }
}
