/** What one step of any thread leaves alone. */
module Steps {
  import opened Bytes
  import opened Cores

  lemma BatchKeepsLeases(sha: Hash, c: Core, t: ThreadId, batch: Batch, expected: Digest, epoch: u64)
    requires BatchOutcome(sha, c, t, batch, expected, epoch).Ok?
    ensures
      var c' := BatchOutcome(sha, c, t, batch, expected, epoch).value;
      c'.leases == c.leases && c'.epoch == c.epoch && c'.owner == c.owner
  {
    hide ApplyAll;
  }

  lemma SectionLeavesOthers(sha: Hash, s: State, t: ThreadId, call: Call, u: ThreadId)
    requires u != t
    ensures ThreadOf(Section(sha, s, t, call), u) == ThreadOf(s, u)
  {
    hide CoreSection;
    if !call.Create? && !call.Destroy? && call.core in s.objects {
      CoreSectionLeavesOthers(sha, s, t, call, s.objects[call.core], u);
    }
  }

  lemma CoreSectionLeavesOthers(sha: Hash, s: State, t: ThreadId, call: Call, c: Core, u: ThreadId)
    requires u != t && !call.Create? && !call.Destroy?
    ensures ThreadOf(CoreSection(sha, s, t, call, c), u) == ThreadOf(s, u)
  {
    hide BatchOutcome, Revision, SetEpochOn, RegisterOn, AcquireCheck, SubmitCheck, DiscardOn;
  }

  lemma TransitionLeavesOthers(s: State, t: ThreadId, call: Call, u: ThreadId)
    requires Transitions(call) && u != t
    ensures ThreadOf(LeaseTransition(s, t, call), u) == ThreadOf(s, u)
  {
    hide TransitionOn;
  }

  /** A step moves only the thread that takes it. */
  lemma OthersStay(sha: Hash, s: State, a: Action, u: ThreadId)
    requires a.thread != u
    ensures ThreadOf(Next(sha, s, a), u) == ThreadOf(s, u)
  {
    hide Section, LeaseTransition, Refused;
    var pc := ThreadOf(s, a.thread).pc;
    if pc.Busy? {
      SectionLeavesOthers(sha, s, a.thread, pc.call, u);
      if Transitions(pc.call) {
        TransitionLeavesOthers(s, a.thread, pc.call, u);
      }
    }
  }

  /** What a lease is registered for: everything but its state. */
  predicate SameTerms(k: Lease, l: Lease) {
    && k.owner == l.owner && k.metadata.leaseId == l.metadata.leaseId && k.metadata.device == l.metadata.device
    && k.metadata.epoch == l.metadata.epoch && k.metadata.revision == l.metadata.revision
  }

  predicate HasTheLease(s: State, h: Handle, id: nat) {
    h in s.objects && id in s.objects[h].leases
  }

  /** The lease `id` of core `h` was there before on the same terms, or `t` has just registered it. */
  predicate ComesFrom(s: State, s': State, t: ThreadId, h: Handle, id: nat)
    requires HasTheLease(s', h, id)
  {
    var l := s'.objects[h].leases[id];
    || (HasTheLease(s, h, id) && SameTerms(s.objects[h].leases[id], l))
    || (h in s.objects && id == s.next < s'.next && l.owner == t
        && l.metadata.epoch == s.objects[h].epoch && l.metadata.revision == Revision(s.objects[h])
        && s'.objects[h].accepted == s.objects[h].accepted)
  }

  lemma SectionComesFrom(sha: Hash, s: State, t: ThreadId, call: Call, h: Handle, id: nat)
    requires HandlesInOrder(s) && HasTheLease(Section(sha, s, t, call), h, id)
    ensures ComesFrom(s, Section(sha, s, t, call), t, h, id)
  {
    hide CoreSection;
    if !call.Create? && !call.Destroy? && call.core in s.objects {
      CoreSectionComesFrom(sha, s, t, call, h, id);
    }
  }

  lemma CoreSectionComesFrom(sha: Hash, s: State, t: ThreadId, call: Call, h: Handle, id: nat)
    requires !call.Create? && !call.Destroy? && call.core in s.objects
    requires HasTheLease(CoreSection(sha, s, t, call, s.objects[call.core]), h, id)
    ensures ComesFrom(s, CoreSection(sha, s, t, call, s.objects[call.core]), t, h, id)
  {
    hide BatchOutcome, Revision;
    if call.SubmitBatch? {
      var c := s.objects[call.core];
      if BatchOutcome(sha, c, t, call.batch, call.expected, call.epoch).Ok? {
        BatchKeepsLeases(sha, c, t, call.batch, call.expected, call.epoch);
      }
    }
  }

  lemma TransitionComesFrom(s: State, t: ThreadId, call: Call, h: Handle, id: nat)
    requires Transitions(call) && HasTheLease(LeaseTransition(s, t, call), h, id)
    ensures ComesFrom(s, LeaseTransition(s, t, call), t, h, id)
  {
  }

  /** No step changes the terms of a lease, and a new lease has its core's epoch and revision. */
  lemma LeasesComeFrom(sha: Hash, s: State, a: Action, h: Handle, id: nat)
    requires HandlesInOrder(s) && HasTheLease(Next(sha, s, a), h, id)
    ensures ComesFrom(s, Next(sha, s, a), a.thread, h, id)
  {
    hide Section, LeaseTransition, Refused, Revision;
    var pc := ThreadOf(s, a.thread).pc;
    if a.Continue? && pc.Busy? && WellPlaced(pc) && !Waits(s, pc) {
      match pc.at
      case Section1 => SectionComesFrom(sha, s, a.thread, pc.call, h, id);
      case Transition => TransitionComesFrom(s, a.thread, pc.call, h, id);
      case _ =>
    }
  }

  /** Every core stays, with its owner. */
  lemma SectionKeepsOwners(sha: Hash, s: State, t: ThreadId, call: Call, h: Handle)
    requires HandlesInOrder(s) && h in s.objects
    ensures h in Section(sha, s, t, call).objects && Section(sha, s, t, call).objects[h].owner == s.objects[h].owner
  {
    hide BatchOutcome, Revision;
    if call.SubmitBatch? && call.core in s.objects {
      var c := s.objects[call.core];
      if BatchOutcome(sha, c, t, call.batch, call.expected, call.epoch).Ok? {
        BatchKeepsLeases(sha, c, t, call.batch, call.expected, call.epoch);
      }
    }
  }

  lemma OwnersAreKept(sha: Hash, s: State, a: Action, h: Handle)
    requires HandlesInOrder(s) && h in s.objects
    ensures h in Next(sha, s, a).objects && Next(sha, s, a).objects[h].owner == s.objects[h].owner
  {
    hide Section, Refused;
    var pc := ThreadOf(s, a.thread).pc;
    if pc.Busy? {
      SectionKeepsOwners(sha, s, a.thread, pc.call, h);
    }
  }

  lemma SectionKeepsTable(sha: Hash, s: State, t: ThreadId, call: Call)
    ensures s.table <= Section(sha, s, t, call).table
    ensures !call.Destroy? ==> Section(sha, s, t, call).holder == s.holder
  {
    hide BatchOutcome, Revision, SetEpochOn, RegisterOn, AcquireCheck, SubmitCheck, DiscardOn;
  }

  /** The thread is at the last section of a `destroy`. */
  predicate AtUnlist(s: State, t: ThreadId) {
    ThreadOf(s, t).pc.Busy? && ThreadOf(s, t).pc.at == Unlist
  }

  /** Cores leave the table, and its lock is given back, only in the last section of a `destroy`. */
  lemma TableIsKept(sha: Hash, s: State, a: Action)
    ensures
      var s' := Next(sha, s, a);
      if a.Continue? && AtUnlist(s, a.thread) && ThreadOf(s, a.thread).pc.call.Destroy? then
        s' == UnlistCore(s, a.thread, ThreadOf(s, a.thread).pc.call.core)
      else
        s.table <= s'.table && (s'.holder == s.holder || (s.holder.None? && AtUnlist(s', a.thread)))
  {
    hide LeaseTransition, Refused, Section;
    var t, pc := a.thread, ThreadOf(s, a.thread).pc;
    if a.Continue? && pc.Busy? && WellPlaced(pc) && !Waits(s, pc) {
      match pc.at
      case Section1 =>
        SectionKeepsTable(sha, s, t, pc.call);
        DestroyChecks(sha, s, t, pc.call);
      case Transition => TransitionKeepsTable(s, t, pc.call);
      case _ =>
    }
  }

  lemma DestroyChecks(sha: Hash, s: State, t: ThreadId, call: Call)
    ensures
      var s' := Section(sha, s, t, call);
      call.Destroy? && s'.holder != s.holder ==> AtUnlist(s', t)
  {
    hide CoreSection;
  }

  lemma TransitionKeepsTable(s: State, t: ThreadId, call: Call)
    requires Transitions(call)
    ensures LeaseTransition(s, t, call).table == s.table && LeaseTransition(s, t, call).holder == s.holder
  {
    hide TransitionOn;
  }
}
