/** Batches of commands on a core: all or nothing, the same as one by one, and an unbroken chain of diffs. */
module Batches {
  import opened Wrappers
  import opened Bytes
  import opened Projects
  import opened ProjectCodec
  import opened Revisions
  import opened Histories
  import opened Cores
  import opened LeaseProofs
  import opened Interleavings

  // A batch is the commands it holds.

  predicate AllParse(batch: Batch) {
    forall i :: 0 <= i < |batch| ==> batch[i].Ok?
  }

  lemma ParsedOfAppended(batch: Batch)
    requires batch != [] && AllParse(batch)
    ensures AllParse(batch[..|batch| - 1])
    ensures Parsed(batch) == Parsed(batch[..|batch| - 1]) + [batch[|batch| - 1].value]
  {
  }

  ghost predicate Shows(sha: Hash, h: History, log: seq<Command>) {
    Zips(sha, h, Zipper(log, []))
  }

  lemma ShowsApplied(sha: Hash, h: History, log: seq<Command>, command: Command)
    requires InBounds(h) && Shows(sha, h, log)
    ensures Apply(sha, h, command).Ok? <==> Replay(EMPTY, log + [command]).Ok?
    ensures Apply(sha, h, command).Ok? ==> Shows(sha, Apply(sha, h, command).value, log + [command])
  {
    hide Zips, Apply, Replay;
    ApplyRefines(sha, h, Zipper(log, []), command);
  }

  lemma {:induction false} FailedReplayStaysFailed(log: seq<Command>, more: seq<Command>)
    requires Replay(EMPTY, log).Err?
    ensures Replay(EMPTY, log + more).Err?
    decreases |more|
  {
    hide Reduce;
    if more == [] {
      assert log + more == log;
    } else {
      FailedReplayStaysFailed(log, more[..|more| - 1]);
      assert (log + more)[..|log + more| - 1] == log + more[..|more| - 1];
    }
  }

  /** Applying a batch to a clone succeeds exactly if every command parses and the whole log replays. */
  lemma {:induction false} BatchReplays(sha: Hash, h: CoreHistory, log: seq<Command>, batch: Batch)
    requires Shows(sha, h, log)
    ensures ApplyAll(sha, h, batch).Ok? <==> AllParse(batch) && Replay(EMPTY, log + Parsed(batch)).Ok?
    ensures ApplyAll(sha, h, batch).Ok? ==> Shows(sha, ApplyAll(sha, h, batch).value, log + Parsed(batch))
    decreases |batch|
  {
    hide Apply, Replay, Shows;
    if batch == [] {
      assert log + Parsed(batch) == log;
      assert Replay(EMPTY, log).Ok? by { ShownReplays(sha, h, log); }
    } else {
      var front := batch[..|batch| - 1];
      BatchReplays(sha, h, log, front);
      if AllParse(batch) {
        ParsedOfAppended(batch);
        var command := batch[|batch| - 1].value;
        assert log + Parsed(batch) == log + Parsed(front) + [command];
        if ApplyAll(sha, h, front).Ok? {
          ShowsApplied(sha, ApplyAll(sha, h, front).value, log + Parsed(front), command);
        } else {
          FailedReplayStaysFailed(log + Parsed(front), [command]);
        }
      }
    }
  }

  lemma ShownReplays(sha: Hash, h: History, log: seq<Command>)
    requires Shows(sha, h, log)
    ensures InBounds(h) && Replay(EMPTY, log) == Ok(CurrentProject(h))
  {
    hide Replay;
    CursorShowsReplay(sha, h, Zipper(log, []));
  }

  /** Command `i` of the batch is the first in the way: it does not parse, or does not replay after those before. */
  ghost predicate FailsAt(log: seq<Command>, batch: Batch, i: nat, error: Refusal) {
    && i < |batch| && AllParse(batch[..i]) && Replay(EMPTY, log + Parsed(batch[..i])).Ok?
    && if batch[i].Err? then error == batch[i].error
       else error == ModelFailure && Replay(EMPTY, log + Parsed(batch[..i]) + [batch[i].value]).Err?
  }

  lemma FailsUnparsed(log: seq<Command>, batch: Batch, i: nat)
    requires i < |batch| && batch[i].Err? && AllParse(batch[..i]) && Replay(EMPTY, log + Parsed(batch[..i])).Ok?
    ensures FailsAt(log, batch, i, batch[i].error)
  {
    hide Replay;
  }

  lemma FailsUnreplayed(log: seq<Command>, batch: Batch, i: nat)
    requires i < |batch| && batch[i].Ok? && AllParse(batch[..i]) && Replay(EMPTY, log + Parsed(batch[..i])).Ok?
    requires Replay(EMPTY, log + Parsed(batch[..i]) + [batch[i].value]).Err?
    ensures FailsAt(log, batch, i, ModelFailure)
  {
    hide Replay;
  }

  /** A batch fails with the error of its first command in the way. */
  lemma {:induction false} FailedBatchFailsAt(sha: Hash, h: CoreHistory, log: seq<Command>, batch: Batch)
    returns (i: nat)
    requires Shows(sha, h, log) && ApplyAll(sha, h, batch).Err?
    ensures FailsAt(log, batch, i, ApplyAll(sha, h, batch).error)
    decreases |batch|
  {
    hide Apply, Replay, Shows;
    var front := batch[..|batch| - 1];
    if ApplyAll(sha, h, front).Err? {
      i := FailedBatchFailsAt(sha, h, log, front);
      assert batch[..i] == front[..i];
    } else {
      i := |batch| - 1;
      BatchReplays(sha, h, log, front);
      if batch[i].Ok? {
        ShowsApplied(sha, ApplyAll(sha, h, front).value, log + Parsed(front), batch[i].value);
      }
    }
  }

  // One by one.

  /** The commands of a batch submitted one at a time, each on the revision the one before left. */
  function Singly(sha: Hash, c: Core, t: ThreadId, batch: Batch): Result<Core, Refusal> {
    if batch == [] then Ok(c)
    else
      var before :- Singly(sha, c, t, batch[..|batch| - 1]);
      BatchOutcome(sha, before, t, [batch[|batch| - 1]], Revision(before), before.epoch)
  }

  lemma OneCommand(sha: Hash, c: Core, t: ThreadId, raw: Result<Command, Refusal>)
    requires c.owner == t
    ensures
      var outcome := BatchOutcome(sha, c, t, [raw], Revision(c), c.epoch);
      var applied := if raw.Ok? then Apply(sha, c.history, raw.value) else Err(CorruptProject);
      && (outcome.Ok? <==> raw.Ok? && applied.Ok?)
      && (outcome.Ok? ==>
            outcome.value == c.(
              history := applied.value, accepted := c.accepted + [raw.value], diffs := outcome.value.diffs))
      && (outcome.Err? ==> outcome.error == if raw.Err? then raw.error else ModelFailure)
  {
    hide Apply, EncodeProject, Revision;
    assert [raw][..0] == [];
    assert ApplyAll(sha, c.history, []) == Ok(c.history);
    assert raw.Ok? ==> Parsed([raw]) == [raw.value];
  }

  /** A batch succeeds exactly if its commands do one by one, with the same history, and fails with the same error. */
  lemma {:induction false} BatchEqualsSingles(sha: Hash, c: Core, t: ThreadId, batch: Batch)
    requires c.owner == t
    ensures
      var whole := BatchOutcome(sha, c, t, batch, Revision(c), c.epoch);
      var singly := Singly(sha, c, t, batch);
      && (whole.Ok? <==> singly.Ok?)
      && (whole.Ok? ==> whole.value.(diffs := singly.value.diffs) == singly.value)
      && (whole.Err? ==> whole.error == singly.error)
    decreases |batch|
  {
    hide Apply, EncodeProject, Revision, BatchOutcome;
    WholeIsApplyAll(sha, c, t, batch);
    if batch != [] {
      var front := batch[..|batch| - 1];
      BatchEqualsSingles(sha, c, t, front);
      WholeIsApplyAll(sha, c, t, front);
      var singly := Singly(sha, c, t, front);
      if singly.Ok? {
        OneCommand(sha, singly.value, t, batch[|batch| - 1]);
        assert AllParse(batch) ==> Parsed(batch) == Parsed(front) + [batch[|batch| - 1].value] by {
          if AllParse(batch) { ParsedOfAppended(batch); }
        }
      }
    }
  }

  lemma WholeIsApplyAll(sha: Hash, c: Core, t: ThreadId, batch: Batch)
    requires c.owner == t
    ensures
      var whole := BatchOutcome(sha, c, t, batch, Revision(c), c.epoch);
      var applied := ApplyAll(sha, c.history, batch);
      && (whole.Ok? <==> applied.Ok?)
      && (whole.Err? ==> whole.error == applied.error)
      && (whole.Ok? ==> AllParse(batch))
      && (whole.Ok? ==>
            whole.value == c.(
              history := applied.value, accepted := c.accepted + Parsed(batch), diffs := whole.value.diffs))
  {
    hide ApplyAll, EncodeProject, Revision;
    if ApplyAll(sha, c.history, batch).Ok? {
      AppliedBatchParses(sha, c.history, batch);
    }
  }

  // The diffs of a core.

  /** The diffs lead from the zero digest to `to`, each starting where the one before it ended. */
  predicate Unbroken(diffs: seq<Diff>, to: Digest) {
    if diffs == [] then to == ZERO_DIGEST
    else
      var last := diffs[|diffs| - 1];
      last.revision == to && Unbroken(diffs[..|diffs| - 1], last.previous)
  }

  ghost predicate CoreInOrder(sha: Hash, c: Core) {
    && Shows(sha, c.history, c.accepted)
    && Unbroken(c.diffs, Revision(c))
    && (c.diffs == [] ==> c.accepted == [])
    && (c.diffs != [] ==> c.diffs[|c.diffs| - 1].projectDigest == sha(EncodeProject(CurrentProject(c.history))))
  }

  lemma BatchKeepsCore(sha: Hash, c: Core, t: ThreadId, batch: Batch, expected: Digest, epoch: u64)
    requires CoreInOrder(sha, c) && BatchOutcome(sha, c, t, batch, expected, epoch).Ok?
    ensures CoreInOrder(sha, BatchOutcome(sha, c, t, batch, expected, epoch).value)
    ensures c.diffs <= BatchOutcome(sha, c, t, batch, expected, epoch).value.diffs
    ensures c.accepted <= BatchOutcome(sha, c, t, batch, expected, epoch).value.accepted
  {
    hide ApplyAll, EncodeProject, Shows, CurrentProject, CurrentHash, Replay;
    BatchReplays(sha, c.history, c.accepted, batch);
    var c' := BatchOutcome(sha, c, t, batch, expected, epoch).value;
    assert c'.diffs[..|c'.diffs| - 1] == c.diffs;
  }

  /** What one step does to one core: nothing to its history, or one accepted batch. */
  ghost predicate Evolves(sha: Hash, c: Core, c': Core) {
    || (c'.history == c.history && c'.accepted == c.accepted && c'.diffs == c.diffs)
    || exists t, batch, expected, epoch :: BatchOutcome(sha, c, t, batch, expected, epoch) == Ok(c')
  }

  lemma StepEvolves(sha: Hash, s: State, a: Action, h: Handle)
    requires h in s.objects && HandlesInOrder(s)
    ensures h in Next(sha, s, a).objects && Evolves(sha, s.objects[h], Next(sha, s, a).objects[h])
  {
    hide BatchOutcome, Refused, Revision;
    var pc := ThreadOf(s, a.thread).pc;
    if a.Continue? && pc.Busy? && pc.at == Section1 && pc.call.SubmitBatch? && pc.call.core == h {
      var outcome := BatchOutcome(sha, s.objects[h], a.thread, pc.call.batch, pc.call.expected, pc.call.epoch);
      if outcome.Ok? {
        assert Next(sha, s, a).objects[h] == outcome.value;
      }
    }
  }

  lemma NewCores(sha: Hash, s: State, a: Action, h: Handle)
    requires h in Next(sha, s, a).objects && h !in s.objects
    ensures
      var c := Next(sha, s, a).objects[h];
      c.history == NEW_HISTORY && c.accepted == [] && c.diffs == []
  {
    hide BatchOutcome, Refused, Revision;
  }

  lemma EvolvingKeepsOrder(sha: Hash, c: Core, c': Core)
    requires CoreInOrder(sha, c) && Evolves(sha, c, c')
    ensures CoreInOrder(sha, c') && c.accepted <= c'.accepted && c.diffs <= c'.diffs
  {
    hide CoreInOrder, BatchOutcome;
    if c'.history == c.history && c'.accepted == c.accepted && c'.diffs == c.diffs {
      SameLogInOrder(sha, c, c');
    } else {
      var t, batch, expected, epoch :| BatchOutcome(sha, c, t, batch, expected, epoch) == Ok(c');
      BatchKeepsCore(sha, c, t, batch, expected, epoch);
    }
  }

  lemma SameLogInOrder(sha: Hash, c: Core, c': Core)
    requires CoreInOrder(sha, c) && c'.history == c.history && c'.accepted == c.accepted && c'.diffs == c.diffs
    ensures CoreInOrder(sha, c')
  {
    hide Shows, Unbroken;
    assert Revision(c') == Revision(c);
  }

  lemma NewCoreInOrder(sha: Hash, c: Core)
    requires c.history == NEW_HISTORY && c.accepted == [] && c.diffs == []
    ensures CoreInOrder(sha, c)
  {
  }

  lemma {:induction false} EveryCoreInOrder(sha: Hash, actions: seq<Action>, h: Handle)
    requires h in After(sha, actions).objects
    ensures CoreInOrder(sha, After(sha, actions).objects[h])
    decreases |actions|
  {
    hide Next, CoreInOrder, Evolves;
    var front, a := actions[..|actions| - 1], actions[|actions| - 1];
    var s := After(sha, front);
    if h in s.objects {
      EveryCoreInOrder(sha, front, h);
      EveryInterleavingIsInOrder(sha, front);
      StepEvolves(sha, s, a, h);
      EvolvingKeepsOrder(sha, s.objects[h], After(sha, actions).objects[h]);
    } else {
      NewCores(sha, s, a, h);
      NewCoreInOrder(sha, After(sha, actions).objects[h]);
    }
  }

  /**
   * After every interleaving, for every core: the diffs of its accepted batches form an unbroken chain from
   * the zero digest to the current revision, the revision is the chain hash of all accepted commands, and the
   * last project digest is the digest of their replay.
   */
  lemma DiffsTellTheHistory(sha: Hash, actions: seq<Action>, h: Handle)
    requires h in After(sha, actions).objects
    ensures
      var c := After(sha, actions).objects[h];
      var replayed := Replay(EMPTY, c.accepted);
      && Unbroken(c.diffs, DigestOf(ChainHash(sha, c.accepted)))
      && Revision(c) == DigestOf(ChainHash(sha, c.accepted))
      && replayed == Ok(CurrentProject(c.history))
      && (c.diffs != [] ==> c.diffs[|c.diffs| - 1].projectDigest == sha(EncodeProject(replayed.value)))
      && (c.diffs == [] ==> c.accepted == [])
  {
    hide After, Replay, EncodeProject, ChainHash, Unbroken, CurrentProject, CurrentHash;
    EveryCoreInOrder(sha, actions, h);
    var c := After(sha, actions).objects[h];
    CursorShowsReplay(sha, c.history, Zipper(c.accepted, []));
  }

  /** Whatever runs next, accepted commands and recorded diffs stay. */
  lemma {:induction false} AcceptedStays(sha: Hash, actions: seq<Action>, more: seq<Action>, h: Handle)
    requires h in After(sha, actions).objects
    ensures h in After(sha, actions + more).objects
    ensures After(sha, actions).objects[h].accepted <= After(sha, actions + more).objects[h].accepted
    ensures After(sha, actions).objects[h].diffs <= After(sha, actions + more).objects[h].diffs
    decreases |more|
  {
    hide After, Next, CoreInOrder, Evolves;
    if more == [] {
      assert actions + more == actions;
    } else {
      var front, last := more[..|more| - 1], more[|more| - 1];
      AcceptedStays(sha, actions, front, h);
      EveryInterleavingIsInOrder(sha, actions + front);
      EveryCoreInOrder(sha, actions + front, h);
      StepEvolves(sha, After(sha, actions + front), last, h);
      AfterMore(sha, actions + front, last);
      assert actions + more == actions + front + [last];
      EvolvingKeepsOrder(sha, After(sha, actions + front).objects[h], After(sha, actions + more).objects[h]);
    }
  }

  /** A section that ends a call with anything but success changes no core, no table, and no trace. */
  lemma RefusedSectionChangesNothing(sha: Hash, s: State, t: ThreadId)
    requires ThreadOf(s, t).pc.Busy? && WellPlaced(ThreadOf(s, t).pc)
    requires ThreadOf(Next(sha, s, Continue(t)), t).pc.Idle?
    requires ThreadOf(Next(sha, s, Continue(t)), t).last != Some(Success)
    ensures Next(sha, s, Continue(t)) == SetThread(s, t, ThreadOf(Next(sha, s, Continue(t)), t))
  {
    hide BatchOutcome, Revision;
    var pc := ThreadOf(s, t).pc;
    match pc.at
    case Section1 => RefusedSection(sha, s, t, pc.call);
    case _ =>
  }

  lemma RefusedSection(sha: Hash, s: State, t: ThreadId, call: Call)
    requires var s' := Section(sha, s, t, call); ThreadOf(s', t).pc.Idle? && ThreadOf(s', t).last != Some(Success)
    ensures Section(sha, s, t, call) == SetThread(s, t, ThreadOf(Section(sha, s, t, call), t))
  {
    hide BatchOutcome, Revision;
  }
}
