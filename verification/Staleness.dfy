/** What the revision of a core says about its log, and so what optimistic checks are worth. */
module Staleness {
  import opened Wrappers
  import opened Bytes
  import opened Projects
  import opened Revisions
  import opened Histories
  import opened Cores
  import opened Steps
  import opened LeaseProofs
  import opened Interleavings
  import opened Instants
  import opened Batches

  function RevisionOf(sha: Hash, log: seq<Command>): Digest {
    DigestOf(ChainHash(sha, log))
  }

  predicate SameRevision(sha: Hash, log: seq<Command>, i: nat, j: nat)
    requires i <= |log| && j <= |log|
  {
    RevisionOf(sha, log[..i]) == RevisionOf(sha, log[..j])
  }

  /** Two different stages of the log show one revision. */
  ghost predicate Repeats(sha: Hash, log: seq<Command>) {
    exists i, j :: 0 <= i < j <= |log| && SameRevision(sha, log, i, j)
  }

  /** The preimage of revision `j` has the zero digest, which stands for the empty log. */
  predicate HashesToZero(sha: Hash, log: seq<Command>, j: nat)
    requires j < |log|
  {
    sha(PreimageAt(sha, log, j)) == ZERO_DIGEST
  }

  /** A log that repeats a revision hands out a collision of the digest, or a preimage of zero. */
  lemma RepeatIsCollision(sha: Hash, log: seq<Command>) returns (i: nat, j: nat)
    requires Repeats(sha, log)
    ensures j < |log|
    ensures HashesToZero(sha, log, j)
      || (i < |log| && Collides(sha, PreimageAt(sha, log, i), PreimageAt(sha, log, j)))
  {
    hide Preimage, PreimageAt, ChainHash;
    var m, n :| 0 <= m < n <= |log| && SameRevision(sha, log, m, n);
    ChainOfPrefix(sha, log, n);
    if m == 0 {
      assert log[..0] == [];
      assert ChainHash(sha, []) == None by { ChainOfNothing(sha); }
      i, j := 0, n - 1;
    } else {
      ChainOfPrefix(sha, log, m);
      assert |log[..m]| != |log[..n]|;
      i, j := HeadBindsHistory(sha, log[..m], log[..n]);
      PreimageOfPrefix(sha, log, m, i);
      PreimageOfPrefix(sha, log, n, j);
    }
  }

  lemma ChainOfNothing(sha: Hash)
    ensures ChainHash(sha, []) == None
  {
  }

  lemma ChainOfPrefix(sha: Hash, log: seq<Command>, n: nat)
    requires 0 < n <= |log|
    ensures ChainHash(sha, log[..n]) == Some(sha(PreimageAt(sha, log, n - 1)))
  {
    hide Preimage;
    assert log[..n][..n - 1] == log[..n - 1];
  }

  // Logs only grow, so a revision seen again is the same log or a repetition.

  lemma GrownLogsRepeat(sha: Hash, log: seq<Command>, longer: seq<Command>)
    requires log <= longer && RevisionOf(sha, log) == RevisionOf(sha, longer)
    ensures log == longer || Repeats(sha, longer)
  {
    hide RevisionOf;
    assert longer[..|log|] == log && longer[..|longer|] == longer;
    assert SameRevision(sha, longer, |log|, |longer|);
  }

  /** If a core shows the revision it showed before, its log is the same, or the log repeats a revision. */
  lemma RevisionNamesTheLog(sha: Hash, actions: seq<Action>, more: seq<Action>, h: Handle)
    requires h in After(sha, actions).objects
    ensures h in After(sha, actions + more).objects
    ensures
      var c, c' := After(sha, actions).objects[h], After(sha, actions + more).objects[h];
      Revision(c) == Revision(c') ==> c.accepted == c'.accepted || Repeats(sha, c'.accepted)
  {
    hide After, ChainHash, Revision, Replay, Unbroken, CurrentProject, Repeats;
    AcceptedStays(sha, actions, more, h);
    DiffsTellTheHistory(sha, actions, h);
    DiffsTellTheHistory(sha, actions + more, h);
    var c, c' := After(sha, actions).objects[h], After(sha, actions + more).objects[h];
    if Revision(c) == Revision(c') {
      GrownLogsRepeat(sha, c.accepted, c'.accepted);
    }
  }

  /** The section `t` stands at accepts a nonempty batch that expects the revision `expected`. */
  ghost predicate AcceptsBatch(sha: Hash, s: State, t: ThreadId, h: Handle, expected: Digest) {
    var pc := ThreadOf(s, t).pc;
    && pc.Busy? && pc.at == Section1 && pc.call.SubmitBatch? && h in s.objects
    && pc.call.core == h && pc.call.expected == expected && pc.call.batch != []
    && BatchOutcome(sha, s.objects[h], t, pc.call.batch, expected, pc.call.epoch).Ok?
  }

  lemma AcceptedBatchExpected(sha: Hash, c: Core, t: ThreadId, batch: Batch, expected: Digest, epoch: u64)
    requires BatchOutcome(sha, c, t, batch, expected, epoch).Ok?
    ensures Revision(c) == expected
    ensures |BatchOutcome(sha, c, t, batch, expected, epoch).value.accepted| == |c.accepted| + |batch|
  {
    hide ApplyAll, Revision, CurrentProject;
  }

  lemma AcceptedBatchIsStored(sha: Hash, s: State, t: ThreadId, h: Handle, expected: Digest)
    requires AcceptsBatch(sha, s, t, h, expected)
    ensures
      var s', call := Next(sha, s, Continue(t)), ThreadOf(s, t).pc.call;
      && h in s'.objects
      && s'.objects[h] == BatchOutcome(sha, s.objects[h], t, call.batch, expected, call.epoch).value
  {
    hide BatchOutcome;
  }

  lemma AcceptedBatchGrows(sha: Hash, s: State, t: ThreadId, h: Handle, expected: Digest)
    requires AcceptsBatch(sha, s, t, h, expected)
    ensures h in s.objects && Revision(s.objects[h]) == expected
    ensures
      var s' := Next(sha, s, Continue(t));
      h in s'.objects && |s.objects[h].accepted| < |s'.objects[h].accepted|
  {
    hide BatchOutcome, Revision, Next;
    var call := ThreadOf(s, t).pc.call;
    AcceptedBatchExpected(sha, s.objects[h], t, call.batch, expected, call.epoch);
    AcceptedBatchIsStored(sha, s, t, h, expected);
  }

  /** Of all batches on a core that expect one revision at most one is ever accepted, unless the log repeats it. */
  lemma OneBatchPerRevision(
      sha: Hash, actions: seq<Action>, more: seq<Action>, t: ThreadId, u: ThreadId, h: Handle, expected: Digest)
    requires AcceptsBatch(sha, After(sha, actions), t, h, expected)
    requires more != [] && more[0] == Continue(t)
    requires AcceptsBatch(sha, After(sha, actions + more), u, h, expected)
    ensures Repeats(sha, After(sha, actions + more).objects[h].accepted)
  {
    hide After, Next, AcceptsBatch, Repeats, Revision;
    AcceptedBatchGrows(sha, After(sha, actions), t, h, expected);
    AfterMore(sha, actions, Continue(t));
    assert actions + more == actions + [Continue(t)] + more[1..];
    AcceptedStays(sha, actions + [Continue(t)], more[1..], h);
    AcceptedBatchGrows(sha, After(sha, actions + more), u, h, expected);
    RevisionNamesTheLog(sha, actions, more, h);
  }

  // Leases name the stage of the log at which they were registered.

  predicate NamesStage(sha: Hash, c: Core, l: Lease, n: nat)
    requires n <= |c.accepted|
  {
    l.metadata.revision == RevisionOf(sha, c.accepted[..n])
  }

  ghost predicate FromLog(sha: Hash, c: Core, l: Lease) {
    exists n :: 0 <= n <= |c.accepted| && NamesStage(sha, c, l, n)
  }

  lemma FromLogGrows(sha: Hash, c: Core, c': Core, l: Lease, l': Lease)
    requires FromLog(sha, c, l) && c.accepted <= c'.accepted && SameTerms(l, l')
    ensures FromLog(sha, c', l')
  {
    hide RevisionOf;
    var n :| 0 <= n <= |c.accepted| && NamesStage(sha, c, l, n);
    assert c'.accepted[..n] == c.accepted[..n];
    assert NamesStage(sha, c', l', n);
  }

  lemma FreshIsFromLog(sha: Hash, actions: seq<Action>, c': Core, l: Lease, h: Handle)
    requires h in After(sha, actions).objects && c'.accepted == After(sha, actions).objects[h].accepted
    requires l.metadata.revision == Revision(After(sha, actions).objects[h])
    ensures FromLog(sha, c', l)
  {
    hide After, ChainHash, Revision, Replay, Unbroken, CurrentProject;
    DiffsTellTheHistory(sha, actions, h);
    assert c'.accepted[..|c'.accepted|] == c'.accepted;
    assert NamesStage(sha, c', l, |c'.accepted|);
  }

  /** In every run the revision of every lease is one its core's log has been at. */
  lemma {:induction false} LeasesNameTheirLog(sha: Hash, actions: seq<Action>, h: Handle, id: nat)
    requires HasTheLease(After(sha, actions), h, id)
    ensures FromLog(sha, After(sha, actions).objects[h], After(sha, actions).objects[h].leases[id])
    decreases |actions|
  {
    hide Next, FromLog, Inv;
    var front, a := actions[..|actions| - 1], actions[|actions| - 1];
    var s, s' := After(sha, front), After(sha, actions);
    EveryInterleavingIsInOrder(sha, front);
    InOrderHandles(s);
    LeasesComeFrom(sha, s, a, h, id);
    assert actions == front + [a];
    AcceptedStays(sha, front, [a], h);
    if HasTheLease(s, h, id) && SameTerms(s.objects[h].leases[id], s'.objects[h].leases[id]) {
      LeasesNameTheirLog(sha, front, h, id);
      FromLogGrows(sha, s.objects[h], s'.objects[h], s.objects[h].leases[id], s'.objects[h].leases[id]);
    } else {
      FreshIsFromLog(sha, front, s'.objects[h], s'.objects[h].leases[id], h);
    }
  }

  // When an acquired lease is current.

  /** Between two states the core keeps its epoch and shows the same revision. */
  predicate Unchanged(s: State, s': State, h: Handle) {
    && h in s.objects && h in s'.objects
    && s.objects[h].epoch == s'.objects[h].epoch && Revision(s.objects[h]) == Revision(s'.objects[h])
  }

  /**
   * An acquired lease is current exactly if the arguments of its `acquire` agree with it and the core has not
   * changed since they were checked. The only exception is a log that repeats a revision.
   */
  lemma AcquiredIsCurrentExactly(
      sha: Hash, actions: seq<Action>, a: Action, e: Event, m: nat, call: Call)
    requires e.op == AcquireOp && Records(sha, actions, a, e)
    requires CheckedAt(sha, actions, e.thread, call, m) && call.Acquire? && IsOperationOf(e, call)
    ensures HasTheLease(After(sha, actions), e.core, e.lease)
    ensures
      var agreed := ArgumentsAgree(After(sha, actions), call)
        && Unchanged(After(sha, actions[..m]), After(sha, actions), e.core);
      var current := LeaseIsCurrent(After(sha, actions + [a]), e.core, e.lease);
      && (agreed ==> current)
      && (current ==> agreed || Repeats(sha, After(sha, actions).objects[e.core].accepted))
  {
    hide After, Next, Repeats, Revision, InCallFrom, Inv;
    var s := After(sha, actions);
    AfterMore(sha, actions, a);
    EveryInterleavingIsInOrder(sha, actions);
    OperationIsItsCall(sha, s, a, e);
    assert PassesCheck(After(sha, actions[..m]), call);
    SameLogSameRevision(s, After(sha, actions + [a]), e.core);
    if LeaseIsCurrent(After(sha, actions + [a]), e.core, e.lease) {
      CheckedIsPast(sha, actions, e.thread, call, m);
      HeldSinceCheck(sha, actions, e.thread, call, m);
      assert HeldAt(sha, actions, e.thread, call, m);
      assert actions[..m] + actions[m..] == actions;
      CurrentMeansUnchanged(sha, actions[..m], actions[m..], e.core, e.lease);
    }
  }

  lemma SameLogSameRevision(s: State, s': State, h: Handle)
    requires h in s.objects && h in s'.objects && s.objects[h].history == s'.objects[h].history
    ensures Revision(s.objects[h]) == Revision(s'.objects[h])
  {
  }

  /**
   * A lease that is current now was current at every earlier moment of its life, and no command was accepted
   * in between, unless the log repeats a revision.
   */
  lemma CurrentMeansUnchanged(sha: Hash, actions: seq<Action>, more: seq<Action>, h: Handle, id: nat)
    requires HasTheLease(After(sha, actions), h, id) && LeaseIsCurrent(After(sha, actions + more), h, id)
    requires
      SameTerms(After(sha, actions).objects[h].leases[id], After(sha, actions + more).objects[h].leases[id])
    ensures h in After(sha, actions + more).objects
    ensures
      var s, s' := After(sha, actions), After(sha, actions + more);
      || Repeats(sha, s'.objects[h].accepted)
      || (Unchanged(s, s', h) && s.objects[h].accepted == s'.objects[h].accepted && LeaseIsCurrent(s, h, id))
  {
    hide After, ChainHash, Revision, Replay, Unbroken, CurrentProject, Repeats, RevisionOf;
    var c, c' := After(sha, actions).objects[h], After(sha, actions + more).objects[h];
    NoLeaseFromTheFuture(sha, actions, h, id);
    EpochsNeverDecrease(sha, actions, more, h);
    AcceptedStays(sha, actions, more, h);
    RevisionIsOfLog(sha, actions, h);
    RevisionIsOfLog(sha, actions + more, h);
    LeasesNameTheirLog(sha, actions, h, id);
    var n :| 0 <= n <= |c.accepted| && NamesStage(sha, c, c.leases[id], n);
    assert c'.accepted[..n] == c.accepted[..n];
    GrownLogsRepeat(sha, c'.accepted[..n], c'.accepted);
    if c'.accepted[..n] == c'.accepted {
      assert c.accepted == c'.accepted;
    }
  }

  lemma RevisionIsOfLog(sha: Hash, actions: seq<Action>, h: Handle)
    requires h in After(sha, actions).objects
    ensures Revision(After(sha, actions).objects[h]) == RevisionOf(sha, After(sha, actions).objects[h].accepted)
  {
    hide After, ChainHash, Revision, Replay, Unbroken, CurrentProject;
    DiffsTellTheHistory(sha, actions, h);
  }
}
