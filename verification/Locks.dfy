/** The order in which the C ABI takes its locks, and why no run of any threads gets stuck. */
module Locks {
  import opened Wrappers
  import opened Bytes
  import opened Cores
  import opened Steps
  import opened Destroys

  datatype Lock = CoreTable | CoreLock(core: Handle) | SnapshotTable | DiffTable

  function Rank(l: Lock): nat {
    match l
    case CoreTable => 0
    case CoreLock(_) => 1
    case SnapshotTable => 2
    case DiffTable => 2
  }

  /** Everything exported that takes a lock; the last two stand for retain, release and metadata. */
  datatype Entry =
    | OnCore(call: Call)
    | TakeSnapshot(core: Handle)
    | LeaseMetadata(core: Handle)
    | OnSnapshots
    | OnDiffs

  // The sections of a call, as the thread machine runs them.

  function Points(call: Call): seq<Point> {
    match call
    case Create(_) => [Section1]
    case Destroy(_) => [Section1, Unlist]
    case Acquire(_, _, _, _, _) => [LookUp1, Section1, LookUp2, Transition]
    case SubmitLease(_, _, _) => [LookUp1, Section1, LookUp2, Transition]
    case Complete(_, _, _) => [LookUp2, Transition]
    case Retire(_, _, _) => [LookUp2, Transition, LookUp3, Removal]
    case _ => [LookUp1, Section1]
  }

  /** The lock of one section, for the calls that take one at a time. */
  function LockAt(call: Call, at: Point): Lock
    requires !call.Destroy?
  {
    match at
    case LookUp1 => CoreTable
    case LookUp2 => CoreTable
    case LookUp3 => CoreTable
    case _ => if call.Create? then CoreTable else CoreLock(call.core)
  }

  /** Both points of `destroy` lie within one hold of the table. */
  function Sections(e: Entry): seq<seq<Lock>> {
    match e
    case OnCore(call) =>
      if call.Destroy? then [[CoreTable, CoreLock(call.core)]]
      else
        var points := Points(call);
        seq(|points|, i requires 0 <= i < |points| => [LockAt(call, points[i])])
        + if call.SubmitBatch? then [[DiffTable]] else []
    case TakeSnapshot(h) => [[CoreTable], [CoreLock(h), SnapshotTable]]
    case LeaseMetadata(h) => [[CoreTable], [CoreLock(h)]]
    case OnSnapshots => [[SnapshotTable]]
    case OnDiffs => [[DiffTable]]
  }

  /**
   * The machine takes a call through its points in order, unless a section ends it early; at most the call
   * waits for the table.
   */
  lemma SectionsFollowPoints(sha: Hash, s: State, t: ThreadId, i: nat)
    requires var pc := ThreadOf(s, t).pc; pc.Busy? && i < |Points(pc.call)| && pc.at == Points(pc.call)[i]
    ensures
      var call := ThreadOf(s, t).pc.call;
      var pc' := ThreadOf(Next(sha, s, Continue(t)), t).pc;
      || pc' == Idle || (i + 1 < |Points(call)| && pc' == Busy(call, Points(call)[i + 1]))
      || (Waits(s, ThreadOf(s, t).pc) && pc' == ThreadOf(s, t).pc)
  {
    hide Revision, BatchOutcome, Refused;
    var pc := ThreadOf(s, t).pc;
    assert WellPlaced(pc);
    match pc.at
    case Section1 => SectionEnds(sha, s, t, pc.call);
    case Transition => TransitionEnds(s, t, pc.call);
    case _ =>
  }

  // What a section touches lies under its locks.

  /** The locks held while the machine takes the section at a point; `destroy` still holds the table at its last. */
  function HeldAt(call: Call, at: Point): set<Lock> {
    if call.Destroy? then if at == Unlist then {CoreTable} else {CoreTable, CoreLock(call.core)}
    else {LockAt(call, at)}
  }

  /** The listed sections of a call are its points with the locks held there. */
  lemma SectionsListWhatIsHeld(call: Call, i: nat)
    requires i < |Points(call)|
    ensures call.Destroy? ==> Sections(OnCore(call)) == [[CoreTable, CoreLock(call.core)]]
    ensures call.Destroy? ==> HeldAt(call, Points(call)[i]) <= {CoreTable, CoreLock(call.core)}
    ensures !call.Destroy? ==>
      && i < |Sections(OnCore(call))| && |Sections(OnCore(call))[i]| == 1
      && HeldAt(call, Points(call)[i]) == {Sections(OnCore(call))[i][0]}
    ensures !call.Destroy? ==>
      Sections(OnCore(call))[|Points(call)|..] == if call.SubmitBatch? then [[DiffTable]] else []
  {
  }

  lemma SectionKeepsTheSet(sha: Hash, s: State, t: ThreadId, call: Call)
    ensures
      var s' := Section(sha, s, t, call);
      s'.table != s.table || s'.objects.Keys != s.objects.Keys ==> call.Create?
  {
    hide BatchOutcome, Revision, SetEpochOn, RegisterOn, AcquireCheck, SubmitCheck, DiscardOn;
  }

  lemma TransitionKeepsTheSet(s: State, t: ThreadId, call: Call)
    requires Transitions(call)
    ensures LeaseTransition(s, t, call).table == s.table && LeaseTransition(s, t, call).objects.Keys == s.objects.Keys
  {
    hide TransitionOn, Expected, Target, OpOf;
  }

  lemma TableChangesAreLocked(sha: Hash, s: State, t: ThreadId)
    requires ThreadOf(s, t).pc.Busy?
    ensures
      var s', pc := Next(sha, s, Continue(t)), ThreadOf(s, t).pc;
      s'.table != s.table || s'.objects.Keys != s.objects.Keys ==> CoreTable in HeldAt(pc.call, pc.at)
  {
    hide Section, LeaseTransition, RemoveOn;
    var pc := ThreadOf(s, t).pc;
    SectionKeepsTheSet(sha, s, t, pc.call);
    if Transitions(pc.call) {
      TransitionKeepsTheSet(s, t, pc.call);
    }
  }

  /** A section changes the table only under the table's lock, and a core only under that core's lock. */
  lemma ChangesAreLocked(sha: Hash, s: State, t: ThreadId)
    requires HandlesInOrder(s) && ThreadOf(s, t).pc.Busy?
    ensures
      var s', held := Next(sha, s, Continue(t)), HeldAt(ThreadOf(s, t).pc.call, ThreadOf(s, t).pc.at);
      && (s'.table != s.table || s'.objects.Keys != s.objects.Keys ==> CoreTable in held)
      && (forall h | h in s.objects :: h in s'.objects && (s'.objects[h] != s.objects[h] ==> CoreLock(h) in held))
  {
    hide Next;
    TableChangesAreLocked(sha, s, t);
    var s' := Next(sha, s, Continue(t));
    forall h | h in s.objects
      ensures h in s'.objects && (s'.objects[h] != s.objects[h] ==> PastLookUp(s, t, h))
    {
      OwnersAreKept(sha, s, Continue(t), h);
      if !PastLookUp(s, t, h) {
        OthersLeaveTheCore(sha, s, Continue(t), h);
      }
    }
  }

  lemma SettlesApart(s: State, t: ThreadId, h: Handle, outcome: Result<Core, Refusal>, next: nat, table: set<Handle>)
    ensures Settle(s.(table := table), t, h, outcome, next) == Settle(s, t, h, outcome, next).(table := table)
  {
  }

  lemma CoreSectionUnread(sha: Hash, s: State, t: ThreadId, call: Call, c: Core, table: set<Handle>)
    requires !call.Create? && !call.Destroy?
    ensures CoreSection(sha, s.(table := table), t, call, c) == CoreSection(sha, s, t, call, c).(table := table)
  {
    hide BatchOutcome, Revision, SetEpochOn, RegisterOn, AcquireCheck, SubmitCheck, DiscardOn, Settle;
    match call
    case SetEpoch(h, epoch) => SettlesApart(s, t, h, SetEpochOn(c, t, epoch), s.next, table);
    case SubmitBatch(h, batch, expected, epoch, _) =>
      SettlesApart(s, t, h, BatchOutcome(sha, c, t, batch, expected, epoch), s.next + 1, table);
    case Register(h, metadata) => SettlesApart(s, t, h, RegisterOn(c, t, metadata, s.next), s.next + 1, table);
    case Discard(h, id, device) => SettlesApart(s, t, h, DiscardOn(c, t, id, device), s.next, table);
    case _ =>
  }

  lemma TransitionUnreadTable(s: State, t: ThreadId, call: Call, table: set<Handle>)
    requires Transitions(call)
    ensures LeaseTransition(s.(table := table), t, call) == LeaseTransition(s, t, call).(table := table)
  {
    hide TransitionOn, Expected, Target, OpOf;
  }

  /** Without the table's lock a section does not look at the table: with any other it does the same. */
  lemma TableIsReadLocked(sha: Hash, s: State, t: ThreadId, table: set<Handle>)
    requires
      var pc := ThreadOf(s, t).pc;
      pc.Busy? && CoreTable !in HeldAt(pc.call, pc.at)
    ensures Next(sha, s.(table := table), Continue(t)) == Next(sha, s, Continue(t)).(table := table)
  {
    hide CoreSection, LeaseTransition;
    var pc := ThreadOf(s, t).pc;
    if Transitions(pc.call) {
      TransitionUnreadTable(s, t, pc.call, table);
    }
    if pc.call.core in s.objects {
      CoreSectionUnread(sha, s, t, pc.call, s.objects[pc.call.core], table);
    }
  }

  /** Without a core's lock a section does not look at that core. */
  lemma CoresAreReadLocked(sha: Hash, s: State, t: ThreadId, h: Handle, c: Core)
    requires HandlesInOrder(s) && h in s.objects
    requires
      var pc := ThreadOf(s, t).pc;
      pc.Busy? && CoreLock(h) !in HeldAt(pc.call, pc.at)
    ensures
      var s' := Next(sha, s, Continue(t));
      Next(sha, s.(objects := s.objects[h := c]), Continue(t)) == s'.(objects := s'.objects[h := c])
  {
    var pc := ThreadOf(s, t).pc;
    if pc.at == Section1 {
      OtherCoresUnread(sha, s, t, pc.call, h, c);
    } else if pc.at == Transition && Transitions(pc.call) {
      TransitionUnread(s, t, pc.call, h, c);
    }
    hide Section, LeaseTransition;
  }

  lemma SettlesElsewhere(
      s: State, t: ThreadId, g: Handle, outcome: Result<Core, Refusal>, next: nat, h: Handle, c: Core)
    requires g in s.objects && h in s.objects && g != h
    ensures
      var s' := Settle(s, t, g, outcome, next);
      Settle(s.(objects := s.objects[h := c]), t, g, outcome, next) == s'.(objects := s'.objects[h := c])
  {
  }

  lemma CoreSectionElsewhere(sha: Hash, s: State, t: ThreadId, call: Call, b: Core, h: Handle, c: Core)
    requires !call.Create? && !call.Destroy? && call.core in s.objects && h in s.objects && call.core != h
    ensures
      var s' := CoreSection(sha, s, t, call, b);
      CoreSection(sha, s.(objects := s.objects[h := c]), t, call, b) == s'.(objects := s'.objects[h := c])
  {
    hide BatchOutcome, Revision, SetEpochOn, RegisterOn, AcquireCheck, SubmitCheck, DiscardOn, Settle;
    match call
    case SetEpoch(g, epoch) => SettlesElsewhere(s, t, g, SetEpochOn(b, t, epoch), s.next, h, c);
    case SubmitBatch(g, batch, expected, epoch, _) =>
      SettlesElsewhere(s, t, g, BatchOutcome(sha, b, t, batch, expected, epoch), s.next + 1, h, c);
    case Register(g, metadata) => SettlesElsewhere(s, t, g, RegisterOn(b, t, metadata, s.next), s.next + 1, h, c);
    case Discard(g, id, device) => SettlesElsewhere(s, t, g, DiscardOn(b, t, id, device), s.next, h, c);
    case _ =>
  }

  lemma OtherCoresUnread(sha: Hash, s: State, t: ThreadId, call: Call, h: Handle, c: Core)
    requires HandlesInOrder(s) && h in s.objects && (call.Create? || call.core != h)
    ensures
      var s' := Section(sha, s, t, call);
      Section(sha, s.(objects := s.objects[h := c]), t, call) == s'.(objects := s'.objects[h := c])
  {
    hide CoreSection;
    if !call.Create? && !call.Destroy? && call.core in s.objects {
      CoreSectionElsewhere(sha, s, t, call, s.objects[call.core], h, c);
    }
  }

  lemma TransitionUnread(s: State, t: ThreadId, call: Call, h: Handle, c: Core)
    requires Transitions(call) && h in s.objects && call.core != h
    ensures
      var s' := LeaseTransition(s, t, call);
      LeaseTransition(s.(objects := s.objects[h := c]), t, call) == s'.(objects := s'.objects[h := c])
  {
    hide TransitionOn, Expected, Target, OpOf;
  }

  // What a thread still has to do, lock by lock.

  datatype Instruction = Take(lock: Lock) | Drop(lock: Lock) | Callback

  function Nested(locks: seq<Lock>): seq<Instruction> {
    if locks == [] then [] else [Take(locks[0])] + Nested(locks[1..]) + [Drop(locks[0])]
  }

  function Unfold(sections: seq<seq<Lock>>): seq<Instruction> {
    if sections == [] then [] else Nested(sections[0]) + Unfold(sections[1..])
  }

  /** A call may return after any section, and give up inside one before it takes the inner locks. */
  datatype Path = Path(entry: Entry, whole: nat, inner: nat, callback: bool)

  predicate Possible(p: Path) {
    && p.whole <= |Sections(p.entry)|
    && (p.whole < |Sections(p.entry)| ==> p.inner <= |Sections(p.entry)[p.whole]|)
    && (p.callback ==> p.entry.OnCore? && p.entry.call.SubmitBatch? && p.whole == |Sections(p.entry)|)
  }

  function LastSection(p: Path): seq<Instruction>
    requires Possible(p)
  {
    (if p.whole < |Sections(p.entry)| then Nested(Sections(p.entry)[p.whole][..p.inner]) else [])
    + if p.callback then [Callback] else []
  }

  function Program(p: Path): seq<Instruction>
    requires Possible(p)
  {
    Unfold(Sections(p.entry)[..p.whole]) + LastSection(p)
  }

  // The discipline.

  predicate Above(l: Lock, held: set<Lock>) {
    forall k | k in held :: Rank(k) < Rank(l)
  }

  /** Each lock ranks above those held, everything taken is dropped, and callbacks run with nothing held. */
  predicate Disciplined(todo: seq<Instruction>, held: set<Lock>)
    decreases |todo|
  {
    if todo == [] then held == {}
    else match todo[0]
      case Take(l) => Above(l, held) && Disciplined(todo[1..], held + {l})
      case Drop(l) => l in held && Disciplined(todo[1..], held - {l})
      case Callback => held == {} && Disciplined(todo[1..], held)
  }

  predicate Climbs(locks: seq<Lock>, held: set<Lock>)
    decreases |locks|
  {
    locks == [] || (Above(locks[0], held) && Climbs(locks[1..], held + {locks[0]}))
  }

  lemma TakeFirst(l: Lock, held: set<Lock>, rest: seq<Instruction>)
    requires Above(l, held) && Disciplined(rest, held + {l})
    ensures l !in held && Disciplined([Take(l)] + rest, held)
  {
    assert ([Take(l)] + rest)[1..] == rest;
  }

  lemma DropFirst(l: Lock, held: set<Lock>, rest: seq<Instruction>)
    requires l !in held && Disciplined(rest, held)
    ensures Disciplined([Drop(l)] + rest, held + {l})
  {
    assert held + {l} - {l} == held;
    assert ([Drop(l)] + rest)[1..] == rest;
  }

  lemma {:induction false} NestedIsDisciplined(locks: seq<Lock>, held: set<Lock>, rest: seq<Instruction>)
    requires Climbs(locks, held) && Disciplined(rest, held)
    ensures Disciplined(Nested(locks) + rest, held)
    decreases |locks|
  {
    hide Disciplined;
    if locks == [] {
      assert Nested(locks) + rest == rest;
    } else {
      var l := locks[0];
      var after := [Drop(l)] + rest;
      assert l !in held;
      DropFirst(l, held, rest);
      NestedIsDisciplined(locks[1..], held + {l}, after);
      TakeFirst(l, held, Nested(locks[1..]) + after);
      assert Nested(locks) + rest == [Take(l)] + (Nested(locks[1..]) + after);
    }
  }

  predicate AllClimb(sections: seq<seq<Lock>>) {
    forall i :: 0 <= i < |sections| ==> Climbs(sections[i], {})
  }

  lemma {:induction false} UnfoldedIsDisciplined(sections: seq<seq<Lock>>, rest: seq<Instruction>)
    requires AllClimb(sections) && Disciplined(rest, {})
    ensures Disciplined(Unfold(sections) + rest, {})
    decreases |sections|
  {
    hide Climbs, Disciplined;
    if sections == [] {
      assert Unfold(sections) + rest == rest;
    } else {
      assert forall i :: 0 <= i < |sections| - 1 ==> sections[1..][i] == sections[i + 1];
      UnfoldedIsDisciplined(sections[1..], rest);
      NestedIsDisciplined(sections[0], {}, Unfold(sections[1..]) + rest);
      assert Unfold(sections) + rest == Nested(sections[0]) + (Unfold(sections[1..]) + rest);
    }
  }

  lemma OneClimbs(l: Lock)
    ensures Climbs([l], {})
  {
    assert [l][1..] == [];
  }

  lemma TwoClimb(k: Lock, l: Lock)
    requires Rank(k) < Rank(l)
    ensures Climbs([k, l], {})
  {
    assert [k, l][1..] == [l];
    assert [l][1..] == [];
  }

  lemma SectionsClimb(e: Entry)
    ensures AllClimb(Sections(e))
  {
    hide Climbs;
    forall i | 0 <= i < |Sections(e)| ensures Climbs(Sections(e)[i], {}) {
      var locks := Sections(e)[i];
      if |locks| == 1 {
        OneClimbs(locks[0]);
        assert locks == [locks[0]];
      } else {
        TwoClimb(locks[0], locks[1]);
        assert locks == [locks[0], locks[1]];
      }
    }
  }

  lemma PrefixClimbs(locks: seq<Lock>, n: nat, held: set<Lock>)
    requires n <= |locks| && Climbs(locks, held)
    ensures Climbs(locks[..n], held)
    decreases n
  {
    if n > 0 {
      PrefixClimbs(locks[1..], n - 1, held + {locks[0]});
      assert locks[..n][1..] == locks[1..][..n - 1];
    }
  }

  lemma CallbackIsDisciplined(callback: bool, rest: seq<Instruction>)
    requires Disciplined(rest, {})
    ensures Disciplined((if callback then [Callback] else []) + rest, {})
  {
    assert [] + rest == rest;
    assert ([Callback] + rest)[1..] == rest;
  }

  lemma LastSectionIsDisciplined(p: Path, rest: seq<Instruction>)
    requires Possible(p) && Disciplined(rest, {})
    ensures Disciplined(LastSection(p) + rest, {})
  {
    hide Sections, Climbs, Disciplined, Nested;
    SectionsClimb(p.entry);
    CallbackIsDisciplined(p.callback, rest);
    var last := (if p.callback then [Callback] else []) + rest;
    if p.whole < |Sections(p.entry)| {
      var locks := Sections(p.entry)[p.whole];
      PrefixClimbs(locks, p.inner, {});
      NestedIsDisciplined(locks[..p.inner], {}, last);
      assert LastSection(p) + rest == Nested(locks[..p.inner]) + last;
    } else {
      assert LastSection(p) + rest == last;
    }
  }

  /** Every path through every exported call follows the discipline. */
  lemma EveryCallIsDisciplined(p: Path, rest: seq<Instruction>)
    requires Possible(p) && Disciplined(rest, {})
    ensures Disciplined(Program(p) + rest, {})
  {
    hide Sections, Climbs, Disciplined, Unfold, LastSection;
    SectionsClimb(p.entry);
    LastSectionIsDisciplined(p, rest);
    var before := Sections(p.entry)[..p.whole];
    UnfoldedIsDisciplined(before, LastSection(p) + rest);
    assert Program(p) + rest == Unfold(before) + (LastSection(p) + rest);
  }

  // Any number of threads.

  datatype Worker = Worker(todo: seq<Instruction>, held: set<Lock>)

  type Workers = seq<Worker>

  predicate Unheld(w: Workers, l: Lock) {
    forall i :: 0 <= i < |w| ==> l !in w[i].held
  }

  /** A thread waits only for a lock that somebody holds. */
  predicate CanStep(w: Workers, i: nat)
    requires i < |w|
  {
    w[i].todo != [] && (w[i].todo[0].Take? ==> Unheld(w, w[i].todo[0].lock))
  }

  function Stepped(k: Worker): Worker
    requires k.todo != []
  {
    match k.todo[0]
    case Take(l) => Worker(k.todo[1..], k.held + {l})
    case Drop(l) => Worker(k.todo[1..], k.held - {l})
    case Callback => Worker(k.todo[1..], k.held)
  }

  /** Threads step, or start a call: from outside, or from inside a callback. */
  datatype Move = Proceed(worker: nat) | Invoke(worker: nat, path: Path)

  function Moved(w: Workers, m: Move): (w': Workers)
    ensures |w'| == |w|
  {
    if m.worker >= |w| then w
    else
      var k := w[m.worker];
      match m
      case Proceed(i) => if CanStep(w, i) then w[i := Stepped(k)] else w
      case Invoke(i, p) =>
        if Possible(p) && (k.todo == [] || k.todo[0].Callback?) then w[i := Worker(Program(p) + k.todo, k.held)] else w
  }

  function Played(w: Workers, moves: seq<Move>): (w': Workers)
    ensures |w'| == |w|
    decreases |moves|
  {
    if moves == [] then w else Played(Moved(w, moves[0]), moves[1..])
  }

  predicate AllDisciplined(w: Workers) {
    forall i :: 0 <= i < |w| ==> Disciplined(w[i].todo, w[i].held)
  }

  predicate Exclusive(w: Workers) {
    forall i, j :: 0 <= i < j < |w| ==> w[i].held !! w[j].held
  }

  lemma MoveKeepsDiscipline(w: Workers, m: Move)
    requires AllDisciplined(w) && Exclusive(w)
    ensures AllDisciplined(Moved(w, m)) && Exclusive(Moved(w, m))
  {
    hide Program, Possible;
    if m.Invoke? && m.worker < |w| && Possible(m.path) {
      var k := w[m.worker];
      if k.todo == [] || k.todo[0].Callback? {
        EveryCallIsDisciplined(m.path, k.todo);
      }
    }
  }

  lemma {:induction false} RunsKeepDiscipline(w: Workers, moves: seq<Move>)
    requires AllDisciplined(w) && Exclusive(w)
    ensures AllDisciplined(Played(w, moves)) && Exclusive(Played(w, moves))
    decreases |moves|
  {
    hide Moved, AllDisciplined, Exclusive;
    if moves != [] {
      MoveKeepsDiscipline(w, moves[0]);
      RunsKeepDiscipline(Moved(w, moves[0]), moves[1..]);
    }
  }

  predicate Waiting(w: Workers, i: nat)
    requires i < |w|
  {
    w[i].todo != [] && w[i].todo[0].Take?
  }

  /** Following a chain of waiting threads climbs the ranks, so it ends at a thread that can step. */
  lemma {:induction false} SomeoneMoves(w: Workers, i: nat) returns (j: nat)
    requires AllDisciplined(w) && i < |w| && w[i].todo != []
    ensures j < |w| && CanStep(w, j)
    decreases if Waiting(w, i) then 3 - Rank(w[i].todo[0].lock) else 0
  {
    if CanStep(w, i) {
      j := i;
    } else {
      var l := w[i].todo[0].lock;
      var k :| 0 <= k < |w| && l in w[k].held;
      assert Disciplined(w[k].todo, w[k].held);
      assert w[k].todo != [];
      j := SomeoneMoves(w, k);
    }
  }

  function Resting(n: nat): (w: Workers)
    ensures |w| == n
  {
    seq(n, _ => Worker([], {}))
  }

  /** No run of any number of threads reaches a circular wait: while a call is unfinished, some thread can step. */
  lemma NoDeadlock(n: nat, moves: seq<Move>, i: nat) returns (j: nat)
    requires i < n && Played(Resting(n), moves)[i].todo != []
    ensures j < n && CanStep(Played(Resting(n), moves), j)
  {
    hide Played;
    RunsKeepDiscipline(Resting(n), moves);
    j := SomeoneMoves(Played(Resting(n), moves), i);
  }

  // Every unfinished call can be brought to its end.

  function Pending(w: Workers): nat {
    if w == [] then 0 else |w[0].todo| + Pending(w[1..])
  }

  lemma {:induction false} ShorterIsLessPending(w: Workers, i: nat, k: Worker)
    requires i < |w| && |k.todo| < |w[i].todo|
    ensures Pending(w[i := k]) < Pending(w)
    decreases |w|
  {
    if i == 0 {
      assert w[i := k][1..] == w[1..];
    } else {
      ShorterIsLessPending(w[1..], i - 1, k);
      assert w[i := k][1..] == w[1..][i - 1 := k];
    }
  }

  predicate AtRest(w: Workers) {
    forall i :: 0 <= i < |w| ==> w[i] == Worker([], {})
  }

  /** From wherever a run stands, letting the threads that can step do so ends all calls and frees all locks. */
  lemma {:induction false} EveryCallCanFinish(w: Workers) returns (moves: seq<Move>)
    requires AllDisciplined(w) && Exclusive(w)
    ensures AtRest(Played(w, moves))
    decreases Pending(w)
  {
    if i :| 0 <= i < |w| && w[i].todo != [] {
      var j := SomeoneMoves(w, i);
      var w' := Moved(w, Proceed(j));
      ShorterIsLessPending(w, j, Stepped(w[j]));
      MoveKeepsDiscipline(w, Proceed(j));
      var rest := EveryCallCanFinish(w');
      moves := [Proceed(j)] + rest;
      assert moves[1..] == rest;
    } else {
      moves := [];
      assert forall i :: 0 <= i < |w| ==> Disciplined(w[i].todo, w[i].held);
    }
  }
}
