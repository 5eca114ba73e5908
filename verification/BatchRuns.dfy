/** A batch call against the same commands in calls of their own, as runs of the thread machine. */
module BatchRuns {
  import opened Wrappers
  import opened Bytes
  import opened Cores
  import opened Steps
  import opened Interleavings
  import opened Batches
  import opened Drains

  function BatchCall(h: Handle, c: Core, batch: Batch): Call {
    SubmitBatch(h, batch, Revision(c), c.epoch, false)
  }

  /** The calls one after the other, with no other thread between their sections. */
  function InTurn(t: ThreadId, calls: seq<Call>): seq<Action> {
    if calls == [] then []
    else InTurn(t, calls[..|calls| - 1]) + [Start(t, calls[|calls| - 1]), Continue(t), Continue(t)]
  }

  lemma InTurnRuns(sha: Hash, actions: seq<Action>, t: ThreadId, calls: seq<Call>, call: Call)
    ensures
      var s := After(sha, actions + InTurn(t, calls));
      After(sha, actions + InTurn(t, calls + [call]))
        == Next(sha, Next(sha, Next(sha, s, Start(t, call)), Continue(t)), Continue(t))
  {
    hide After, Next;
    var before := actions + InTurn(t, calls);
    AfterThree(sha, before, Start(t, call), Continue(t), Continue(t));
    assert (calls + [call])[..|calls|] == calls;
    assert actions + InTurn(t, calls + [call]) == before + [Start(t, call), Continue(t), Continue(t)];
  }

  /** The thread that may submit: free, and owner of a core in the table. */
  predicate Ready(s: State, t: ThreadId, h: Handle) {
    Free(s, t) && h in s.table && h in s.objects && s.objects[h].owner == t
  }

  /** A thread that keeps the table gives it back first. */
  function GivesBack(s: State): seq<Action> {
    if s.holder.Some? then [Continue(s.holder.value)] else []
  }

  lemma GivenBack(sha: Hash, actions: seq<Action>, t: ThreadId, h: Handle)
    requires Ready(After(sha, actions), t, h)
    ensures
      var s, s' := After(sha, actions), After(sha, actions + GivesBack(After(sha, actions)));
      Ready(s', t, h) && s'.holder.None? && s'.objects == s.objects
  {
    hide After;
    assert actions + [] == actions;
    if After(sha, actions).holder.Some? {
      TableIsGivenBack(sha, actions);
    }
  }

  /** What one call did: the outcome is the core's new value and the thread's answer. */
  predicate Answered(s: State, t: ThreadId, h: Handle, c: Core, outcome: Result<Core, Refusal>) {
    && Ready(s, t, h) && s.holder.None?
    && s.objects[h] == (if outcome.Ok? then outcome.value else c)
    && ThreadOf(s, t).last == Some(if outcome.Ok? then Success else outcome.error)
  }

  lemma BatchCallRuns(sha: Hash, s: State, t: ThreadId, h: Handle, batch: Batch)
    requires Ready(s, t, h) && s.holder.None? && 0 < |batch| <= 4096
    ensures
      var c := s.objects[h];
      var call := BatchCall(h, c, batch);
      var s' := Next(sha, Next(sha, Next(sha, s, Start(t, call)), Continue(t)), Continue(t));
      Answered(s', t, h, c, BatchOutcome(sha, c, t, batch, Revision(c), c.epoch))
  {
    hide BatchOutcome, Revision;
    var c := s.objects[h];
    if BatchOutcome(sha, c, t, batch, Revision(c), c.epoch).Ok? {
      BatchKeepsLeases(sha, c, t, batch, Revision(c), c.epoch);
    }
  }

  /** The `k`-th call carries the `k`-th command alone, as the core then stands; the calls before succeeded. */
  predicate Carries(sha: Hash, actions: seq<Action>, t: ThreadId, h: Handle, batch: Batch, calls: seq<Call>, k: nat)
    requires k < |calls| <= |batch|
  {
    var s := After(sha, actions + InTurn(t, calls[..k]));
    && h in s.objects && calls[k] == BatchCall(h, s.objects[h], [batch[k]])
    && (k > 0 ==> ThreadOf(s, t).last == Some(Success))
  }

  /** The commands of the batch one by one, to the end or to the first that is refused. */
  ghost predicate OneByOne(sha: Hash, actions: seq<Action>, t: ThreadId, h: Handle, batch: Batch, calls: seq<Call>) {
    && |calls| <= |batch| && (batch != [] ==> calls != [])
    && (forall k :: 0 <= k < |calls| ==> Carries(sha, actions, t, h, batch, calls, k))
    && (|calls| < |batch| ==> ThreadOf(After(sha, actions + InTurn(t, calls)), t).last != Some(Success))
  }

  lemma OneMore(sha: Hash, actions: seq<Action>, t: ThreadId, h: Handle, batch: Batch, calls: seq<Call>, call: Call)
    requires batch != [] && OneByOne(sha, actions, t, h, batch[..|batch| - 1], calls) && |calls| == |batch| - 1
    requires
      var s := After(sha, actions + InTurn(t, calls));
      && h in s.objects && call == BatchCall(h, s.objects[h], [batch[|batch| - 1]])
      && (calls != [] ==> ThreadOf(s, t).last == Some(Success))
    ensures OneByOne(sha, actions, t, h, batch, calls + [call])
  {
    hide After, Revision;
    var longer := calls + [call];
    forall k | 0 <= k < |longer| ensures Carries(sha, actions, t, h, batch, longer, k) {
      assert longer[..k] == calls[..k];
      if k < |calls| {
        assert Carries(sha, actions, t, h, batch[..|batch| - 1], calls, k);
      } else {
        assert calls[..k] == calls;
      }
    }
  }

  lemma NoMore(sha: Hash, actions: seq<Action>, t: ThreadId, h: Handle, batch: Batch, calls: seq<Call>)
    requires batch != [] && OneByOne(sha, actions, t, h, batch[..|batch| - 1], calls) && calls != []
    requires ThreadOf(After(sha, actions + InTurn(t, calls)), t).last != Some(Success)
    ensures OneByOne(sha, actions, t, h, batch, calls)
  {
    hide After, Revision;
    forall k | 0 <= k < |calls| ensures Carries(sha, actions, t, h, batch, calls, k) {
      assert Carries(sha, actions, t, h, batch[..|batch| - 1], calls, k);
    }
  }

  /** One call after the other, up to the first that is refused. */
  lemma {:induction false} SinglesRun(sha: Hash, actions: seq<Action>, t: ThreadId, h: Handle, batch: Batch)
    returns (calls: seq<Call>)
    requires Ready(After(sha, actions), t, h) && After(sha, actions).holder.None?
    ensures OneByOne(sha, actions, t, h, batch, calls)
    ensures
      var c := After(sha, actions).objects[h];
      var s', singly := After(sha, actions + InTurn(t, calls)), Singly(sha, c, t, batch);
      && Ready(s', t, h) && s'.holder.None?
      && (singly.Ok? ==> s'.objects[h] == singly.value && |calls| == |batch|)
      && (singly.Ok? && batch != [] ==> ThreadOf(s', t).last == Some(Success))
      && (singly.Err? ==> ThreadOf(s', t).last == Some(singly.error))
    decreases |batch|
  {
    hide After, Next, BatchOutcome, Revision, Free, OneByOne, Carries, InTurn;
    if batch == [] {
      calls := [];
      NoCalls(sha, actions, t, h);
    } else {
      var c, front := After(sha, actions).objects[h], batch[..|batch| - 1];
      calls := SinglesRun(sha, actions, t, h, front);
      var before := After(sha, actions + InTurn(t, calls));
      if Singly(sha, c, t, front).Ok? {
        var last := [batch[|batch| - 1]];
        var call := BatchCall(h, before.objects[h], last);
        BatchCallRuns(sha, before, t, h, last);
        InTurnRuns(sha, actions, t, calls, call);
        OneMore(sha, actions, t, h, batch, calls, call);
        calls := calls + [call];
      } else {
        assert calls != [] by { SomeCalls(sha, actions, t, h, front, calls); }
        NoMore(sha, actions, t, h, batch, calls);
      }
    }
  }

  lemma NoCalls(sha: Hash, actions: seq<Action>, t: ThreadId, h: Handle)
    ensures actions + InTurn(t, []) == actions && OneByOne(sha, actions, t, h, [], [])
  {
  }

  lemma SomeCalls(sha: Hash, actions: seq<Action>, t: ThreadId, h: Handle, batch: Batch, calls: seq<Call>)
    requires OneByOne(sha, actions, t, h, batch, calls) && batch != []
    ensures calls != []
  {
  }

  /**
   * From any reachable state: one call with the whole batch, or the commands one by one up to the first that is
   * refused. The thread gets the same answer, and if it is success, the core the same history.
   */
  lemma BatchCallEqualsSingleCalls(sha: Hash, actions: seq<Action>, t: ThreadId, h: Handle, batch: Batch)
    returns (calls: seq<Call>)
    requires Ready(After(sha, actions), t, h) && 0 < |batch| <= 4096
    ensures
      var c, before := After(sha, actions).objects[h], actions + GivesBack(After(sha, actions));
      var s := After(sha, before + InTurn(t, [BatchCall(h, c, batch)]));
      var s' := After(sha, before + InTurn(t, calls));
      && OneByOne(sha, before, t, h, batch, calls)
      && ThreadOf(s, t).last == ThreadOf(s', t).last
      && h in s.objects && h in s'.objects
      && (ThreadOf(s, t).last == Some(Success) ==>
            |calls| == |batch| && s.objects[h] == s'.objects[h].(diffs := s.objects[h].diffs))
      && (ThreadOf(s, t).last != Some(Success) ==> s.objects[h] == c)
  {
    hide After, Next, BatchOutcome, Revision, Singly, OneByOne, InTurn;
    var c, before := After(sha, actions).objects[h], actions + GivesBack(After(sha, actions));
    GivenBack(sha, actions, t, h);
    BatchEqualsSingles(sha, c, t, batch);
    var whole, singly := BatchOutcome(sha, c, t, batch, Revision(c), c.epoch), Singly(sha, c, t, batch);
    assert whole.Ok? ==> whole.value == singly.value.(diffs := whole.value.diffs);
    BatchCallRuns(sha, After(sha, before), t, h, batch);
    NoCalls(sha, before, t, h);
    InTurnRuns(sha, before, t, [], BatchCall(h, c, batch));
    assert [] + [BatchCall(h, c, batch)] == [BatchCall(h, c, batch)];
    calls := SinglesRun(sha, before, t, h, batch);
  }
}
