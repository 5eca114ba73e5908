/** The mutable core behind its mutex: what each lock section does to it, proved against the machine's sections. */
module CoreStates {
  import opened Wrappers
  import opened Bytes
  import opened Projects
  import opened ProjectCodec
  import opened Revisions
  import opened Histories
  import opened Cores
  import opened Steps
  import opened Batches

  /** The first error of a batch is the error of the batch. */
  lemma {:induction false} FirstErrorDecides(sha: Hash, h: CoreHistory, batch: Batch, n: nat)
    requires n <= |batch| && ApplyAll(sha, h, batch[..n]).Err?
    ensures ApplyAll(sha, h, batch) == ApplyAll(sha, h, batch[..n])
    decreases |batch|
  {
    hide Apply;
    if n == |batch| {
      assert batch[..n] == batch;
    } else {
      var front := batch[..|batch| - 1];
      assert front[..n] == batch[..n];
      FirstErrorDecides(sha, h, front, n);
    }
  }

  lemma OneMoreApplied(sha: Hash, h: CoreHistory, batch: Batch, i: nat)
    requires i < |batch| && ApplyAll(sha, h, batch[..i]).Ok?
    ensures
      var before := ApplyAll(sha, h, batch[..i]).value;
      ApplyAll(sha, h, batch[..i + 1]) ==
        if batch[i].Err? then Err(batch[i].error)
        else if Apply(sha, before, batch[i].value).Err? then Err(ModelFailure)
        else Ok(Apply(sha, before, batch[i].value).value)
  {
    hide Apply;
    assert batch[..i + 1][..i] == batch[..i];
  }

  /** One command more on the clone: the machine's `Apply` and the object agree. */
  lemma AppliedAgrees(sha: Hash, before: CoreHistory, log: seq<Command>, command: Command, after: History)
    requires Shows(sha, before, log)
    requires Replay(EMPTY, log + [command]).Ok? ==> Shows(sha, after, log + [command])
    ensures
      var applied := Apply(sha, before, command);
      && (applied.Ok? <==> Replay(EMPTY, log + [command]).Ok?)
      && (applied.Ok? ==> applied.value == after)
  {
    hide Apply, Replay, Zips;
    ShowsApplied(sha, before, log, command);
    if Replay(EMPTY, log + [command]).Ok? {
      ZipperDeterminesHistory(sha, Apply(sha, before, command).value, after, Zipper(log + [command], []));
    }
  }

  lemma ParsedPrefix(batch: Batch, i: nat)
    requires i < |batch| && AllParse(batch[..i + 1])
    ensures AllParse(batch[..i]) && Parsed(batch[..i + 1]) == Parsed(batch[..i]) + [batch[i].value]
  {
    assert batch[..i + 1] == batch[..i] + [batch[i]];
    forall k | 0 <= k < i ensures batch[..i][k].Ok? {
      assert batch[..i][k] == batch[..i + 1][k];
    }
  }

  lemma PrefixesParse(batch: Batch, i: nat)
    requires i <= |batch| && AllParse(batch)
    ensures AllParse(batch[..i]) && Parsed(batch[..i]) == Parsed(batch)[..i]
  {
  }

  /** A batch whose beginning fails to replay fails to replay. */
  lemma BadPrefixRefuses(log: seq<Command>, batch: Batch, i: nat)
    requires i <= |batch| && AllParse(batch[..i]) && Replay(EMPTY, log + Parsed(batch[..i])).Err?
    ensures AllParse(batch) ==> Replay(EMPTY, log + Parsed(batch)).Err?
  {
    hide Replay;
    if AllParse(batch) {
      PrefixesParse(batch, i);
      var commands := Parsed(batch);
      assert log + commands == log + commands[..i] + commands[i..];
      FailedReplayStaysFailed(log + commands[..i], commands[i..]);
    }
  }

  /** The lock section answered `r` and left the core as the machine's section says. */
  predicate Settles(outcome: Result<Core, Refusal>, before: Core, after: Core, r: StitchResult) {
    if outcome.Ok? then r == Success && after == outcome.value else r == outcome.error && after == before
  }

  class CoreState {
    const sha: Hash
    const owner: ThreadId
    var history: EditorHistory
    var epoch: u64
    var leases: map<nat, Lease>
    /** The diffs of the batches accepted so far. */
    ghost var diffs: seq<Diff>

    /** Metadata and state agree, and no lease is from a later epoch than its core. */
    predicate LeaseSound(id: nat)
      requires id in leases
      reads this
    {
      var l := leases[id];
      l.metadata.leaseId == id && l.metadata.state == l.state && l.metadata.epoch <= epoch
    }

    /** Nothing is ever undone in a core, and every lease is sound. */
    ghost predicate Valid()
      reads this, history
    {
      && history.Valid() && history.sha == sha && history.undone == []
      && forall id | id in leases :: LeaseSound(id)
    }

    lemma HistoryIsWhole()
      requires history.Valid() && history.undone == []
      ensures history.cursor == |history.revisions| && InBounds(history.Value())
    {
      hide Replay, ChainHash;
    }

    ghost function Value(): Core
      requires Valid()
      reads this, history
    {
      HistoryIsWhole();
      Core(history.Value(), epoch, leases, owner, history.done, diffs)
    }

    lemma RevisionIsChain()
      requires Valid()
      ensures Revision(Value()) == DigestOf(ChainHash(sha, history.done))
    {
      hide Replay, ChainHash, Zips;
      CursorShowsReplay(sha, history.Value(), Zipper(history.done, history.undone));
    }

    constructor (sha: Hash, initialEpoch: u64, thread: ThreadId)
      ensures Valid() && this.sha == sha && owner == thread && epoch == initialEpoch && fresh(history)
      ensures history.done == [] && leases == map[] && diffs == []
    {
      this.sha := sha;
      owner := thread;
      history := new EditorHistory(sha);
      epoch, leases := initialEpoch, map[];
      diffs := [];
    }

    method CurrentRevision() returns (revision: Digest)
      requires Valid()
      ensures revision == DigestOf(ChainHash(sha, history.done)) == Revision(Value())
    {
      hide ChainHash;
      RevisionIsChain();
      var hash := history.GetHash();
      revision := DigestOf(hash);
    }

    /** Only the owner, only upwards; so every lease stays sound. */
    method SetEpoch(t: ThreadId, newEpoch: u64) returns (r: StitchResult)
      requires Valid()
      modifies this`epoch
      ensures Valid() && Settles(SetEpochOn(old(Value()), t, newEpoch), old(Value()), Value(), r)
      ensures old(epoch) <= epoch && (epoch != old(epoch) ==> t == owner)
    {
      if owner != t {
        return InvalidArgument;
      }
      if newEpoch < epoch {
        return StaleEpoch;
      }
      epoch := newEpoch;
      return Success;
    }

    /**
     * Commands go to a clone of the history, which replaces the history only after the last of them. The batch
     * is accepted exactly if it is the owner's, is not stale, parses, and replays after all accepted commands.
     */
    method Submit(t: ThreadId, batch: Batch, expected: Digest, batchEpoch: u64) returns (r: Result<Diff, Refusal>)
      requires Valid()
      modifies this`history, this`diffs
      ensures Valid() && (history == old(history) || fresh(history))
      ensures r.Ok? <==>
        && t == owner && batchEpoch == epoch && expected == DigestOf(ChainHash(sha, old(history.done)))
        && AllParse(batch) && Replay(EMPTY, old(history.done) + Parsed(batch)).Ok?
      ensures r.Ok? ==> history.done == old(history.done) + Parsed(batch) && diffs == old(diffs) + [r.value]
      ensures r.Ok? ==>
        var project := Replay(EMPTY, history.done);
        r.value == Diff(expected, DigestOf(ChainHash(sha, history.done)), sha(EncodeProject(project.value)), epoch)
      ensures r.Err? ==> history == old(history) && diffs == old(diffs)
      ensures t != owner ==> r == Err(InvalidArgument)
      ensures t == owner && batchEpoch != epoch ==> r == Err(StaleEpoch)
      ensures t == owner && batchEpoch == epoch && expected != DigestOf(ChainHash(sha, old(history.done))) ==>
        r == Err(StaleRevision)
      ensures
        t == owner && batchEpoch == epoch && expected == DigestOf(ChainHash(sha, old(history.done))) && r.Err? ==>
          exists i :: FailsAt(old(history.done), batch, i, r.error)
      ensures
        var outcome := BatchOutcome(sha, old(Value()), t, batch, expected, batchEpoch);
        if outcome.Ok? then r.Ok? && Value() == outcome.value else r == Err(outcome.error)
    {
      hide Apply, EncodeProject, Replay, ChainHash, Zips, ApplyAll, FailsAt, Parsed;
      if owner != t {
        return Err(InvalidArgument);
      }
      if batchEpoch != epoch {
        return Err(StaleEpoch);
      }
      var previous := CurrentRevision();
      if previous != expected {
        return Err(StaleRevision);
      }
      ghost var log := history.done;
      HistoryIsWhole();
      ghost var start: CoreHistory := history.Value();
      var next := new EditorHistory.Clone(history);
      NothingApplied(start, batch, log);
      ZipperDeterminesHistory(sha, start, next.Value(), Zipper(log, []));
      for i := 0 to |batch|
        invariant Valid() && history == old(history) && history.done == log && history.Value() == start
        invariant diffs == old(diffs)
        invariant fresh(next) && next.Valid() && next.sha == sha && next.undone == []
        invariant AllParse(batch[..i]) && next.done == log + Parsed(batch[..i])
        invariant ApplyAll(sha, start, batch[..i]) == Ok(next.Value())
      {
        OneMoreApplied(sha, start, batch, i);
        ShownProject(sha, next.Value(), next.done);
        if batch[i].Err? {
          FirstErrorDecides(sha, start, batch, i + 1);
          FailsUnparsed(log, batch, i);
          return Err(batch[i].error);
        }
        assert AllParse(batch[..i + 1]) by { ParsesOneMore(batch, i); }
        ParsedPrefix(batch, i);
        ghost var before: CoreHistory := ApplyAll(sha, start, batch[..i]).value;
        ghost var done := next.done;
        assert done + [batch[i].value] == log + Parsed(batch[..i + 1]);
        var applied := next.ApplyCommand(batch[i].value);
        AppliedAgrees(sha, before, done, batch[i].value, next.Value());
        if applied.Err? {
          FirstErrorDecides(sha, start, batch, i + 1);
          BadPrefixRefuses(log, batch, i + 1);
          assert log + Parsed(batch[..i]) + [batch[i].value] == log + Parsed(batch[..i + 1]);
          FailsUnreplayed(log, batch, i);
          return Err(ModelFailure);
        }
      }
      assert batch[..|batch|] == batch;
      history := next;
      assert Valid();
      HistoryIsWhole();
      var revision := CurrentRevision();
      var project := history.GetProject();
      ShownProject(sha, history.Value(), history.done);
      var diff := Diff(previous, revision, sha(EncodeProject(project)), epoch);
      diffs := diffs + [diff];
      return Ok(diff);
    }

    /** A new lease starts current; every other lease stays as it is. */
    method Register(t: ThreadId, metadata: FrameMetadata, id: nat) returns (r: StitchResult)
      requires Valid() && id !in leases
      modifies this`leases
      ensures Valid() && Settles(RegisterOn(old(Value()), t, metadata, id), old(Value()), Value(), r)
      ensures r == Success ==> leases == old(leases)[id := leases[id]] && leases[id].owner == t
      ensures r == Success ==>
        leases[id].metadata.epoch == epoch && leases[id].metadata.revision == DigestOf(ChainHash(sha, history.done))
    {
      hide Replay, ChainHash, Zips;
      if metadata.epoch != epoch {
        return StaleEpoch;
      }
      var revision := CurrentRevision();
      if metadata.revision != revision {
        return StaleRevision;
      }
      leases := leases[id := Lease(metadata.(leaseId := id, state := Registered), Registered, t)];
      return Success;
    }

    /** The first core section of `acquire`: its arguments against the core. */
    method CheckAcquire(expectedEpoch: u64, expectedRevision: Digest) returns (r: StitchResult)
      requires Valid()
      ensures AcquireCheck(Value(), expectedEpoch, expectedRevision) == if r == Success then Ok(()) else Err(r)
    {
      if expectedEpoch != epoch {
        return StaleEpoch;
      }
      var revision := CurrentRevision();
      return if expectedRevision != revision then StaleRevision else Success;
    }

    /** The first core section of `submit`: the lease against the core. */
    method CheckSubmit(id: nat) returns (r: StitchResult)
      requires Valid()
      ensures SubmitCheck(Value(), id) == if r == Success then Ok(()) else Err(r)
    {
      if id !in leases {
        return UnknownHandle;
      }
      var current := leases[id].metadata;
      if current.epoch != epoch {
        return StaleEpoch;
      }
      var revision := CurrentRevision();
      return if current.revision != revision then StaleRevision else Success;
    }

    /** Only the owner's lease goes, and only before it was submitted. */
    method Discard(t: ThreadId, id: nat, device: u64) returns (r: StitchResult)
      requires Valid()
      modifies this`leases
      ensures Valid() && Settles(DiscardOn(old(Value()), t, id, device), old(Value()), Value(), r)
      ensures leases == if r == Success then old(leases) - {id} else old(leases)
    {
      hide Replay, ChainHash, Zips;
      if id !in leases {
        return UnknownHandle;
      }
      var lease := leases[id];
      if lease.metadata.device != device {
        return StaleDevice;
      }
      if lease.owner != t {
        return InvalidArgument;
      }
      if !lease.state.Registered? && !lease.state.Acquired? {
        return BadLeaseState;
      }
      leases := leases - {id};
      return Success;
    }

    /** One lease moves, in state and metadata together; its terms and all other leases stay. */
    method Transition(t: ThreadId, id: nat, device: u64, expected: LeaseState, next: LeaseState)
      returns (r: StitchResult)
      requires Valid()
      modifies this`leases
      ensures Valid()
      ensures Settles(TransitionOn(old(Value()), t, id, device, expected, next), old(Value()), Value(), r)
      ensures leases.Keys == old(leases).Keys
      ensures forall k | k in leases && (k != id || r != Success) :: leases[k] == old(leases)[k]
      ensures r == Success ==> id in leases && leases[id].state == next && SameTerms(old(leases)[id], leases[id])
    {
      hide Replay, ChainHash, Zips;
      if id !in leases {
        return UnknownHandle;
      }
      var lease := leases[id];
      if lease.metadata.device != device {
        return StaleDevice;
      }
      if lease.owner != t {
        return InvalidArgument;
      }
      if lease.state != expected {
        return BadLeaseState;
      }
      leases := leases[id := Lease(lease.metadata.(state := next), next, lease.owner)];
      return Success;
    }

    method Remove(id: nat)
      requires Valid()
      modifies this`leases
      ensures Valid() && Value() == RemoveOn(old(Value()), id)
      ensures leases == old(leases) - {id}
    {
      hide Replay, ChainHash, Zips;
      leases := leases - {id};
    }

    // Calls of several sections when nothing comes between them.

    /** A lease is acquired exactly if its owner asks and the arguments are the core's, whatever the lease says. */
    method Acquire(t: ThreadId, id: nat, device: u64, expectedEpoch: u64, expectedRevision: Digest)
      returns (r: StitchResult)
      requires Valid()
      modifies this`leases
      ensures Valid() && leases.Keys == old(leases).Keys
      ensures r == Success <==>
        && id in old(leases) && old(leases)[id].state == Registered && old(leases)[id].owner == t
        && old(leases)[id].metadata.device == device
        && expectedEpoch == epoch && expectedRevision == DigestOf(ChainHash(sha, history.done))
      ensures r == Success ==> leases[id].state == Acquired && SameTerms(old(leases)[id], leases[id])
      ensures forall k | k in leases && (k != id || r != Success) :: leases[k] == old(leases)[k]
    {
      hide ChainHash, Replay, Zips;
      RevisionIsChain();
      var checked := CheckAcquire(expectedEpoch, expectedRevision);
      if checked != Success {
        return checked;
      }
      r := Transition(t, id, device, Registered, Acquired);
    }

    /** A lease is submitted exactly if it is acquired, its owner asks, and it is current. */
    method SubmitLease(t: ThreadId, id: nat, device: u64) returns (r: StitchResult)
      requires Valid()
      modifies this`leases
      ensures Valid() && leases.Keys == old(leases).Keys
      ensures r == Success <==>
        && id in old(leases) && old(leases)[id].state == Acquired && old(leases)[id].owner == t
        && old(leases)[id].metadata.device == device && old(leases)[id].metadata.epoch == epoch
        && old(leases)[id].metadata.revision == DigestOf(ChainHash(sha, history.done))
      ensures r == Success ==> leases[id].state == Submitted && SameTerms(old(leases)[id], leases[id])
      ensures forall k | k in leases && (k != id || r != Success) :: leases[k] == old(leases)[k]
    {
      hide ChainHash, Replay, Zips;
      RevisionIsChain();
      var checked := CheckSubmit(id);
      if checked != Success {
        return checked;
      }
      r := Transition(t, id, device, Acquired, Submitted);
    }

    /** A completed lease is gone after its owner's `retire`; nothing else changes. */
    method Retire(t: ThreadId, id: nat, device: u64) returns (r: StitchResult)
      requires Valid()
      modifies this`leases
      ensures Valid()
      ensures r == Success <==>
        && id in old(leases) && old(leases)[id].state == Completed && old(leases)[id].owner == t
        && old(leases)[id].metadata.device == device
      ensures leases == if r == Success then old(leases) - {id} else old(leases)
    {
      hide ChainHash, Replay, Zips;
      r := Transition(t, id, device, Completed, Retired);
      if r != Success {
        return;
      }
      Remove(id);
    }
  }

  lemma NothingApplied(start: CoreHistory, batch: Batch, log: seq<Command>)
    ensures AllParse(batch[..0]) && log + Parsed(batch[..0]) == log
    ensures forall sha: Hash :: ApplyAll(sha, start, batch[..0]) == Ok(start)
  {
    assert batch[..0] == [];
  }

  lemma ParsesOneMore(batch: Batch, i: nat)
    requires i < |batch| && AllParse(batch[..i]) && batch[i].Ok?
    ensures AllParse(batch[..i + 1])
  {
    assert batch[..i + 1] == batch[..i] + [batch[i]];
  }

  lemma ShownProject(sha: Hash, h: History, log: seq<Command>)
    requires Shows(sha, h, log)
    ensures InBounds(h) && Replay(EMPTY, log) == Ok(CurrentProject(h)) && ChainHash(sha, log) == CurrentHash(h)
  {
    hide Replay, ChainHash, Zips;
    CursorShowsReplay(sha, h, Zipper(log, []));
  }
}
