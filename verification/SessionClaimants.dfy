/**
 * When unlocked updates let two runs hold unreleased claims on one session:
 * the exact condition over whole runs, and a run in which it happens.
 */
module SessionClaimants {
  import opened Text
  import opened SessionTypes
  import opened SessionStore
  import opened SessionRuns
  import opened SessionReadiness
  import opened SessionLocks
  import opened SessionOverlaps

  // ---------------------------------------------------------------- the invariant

  /** An update in flight carries a slot that covered the claims there were when it read its row. */
  predicate CoversReadClaims(log: seq<Entry>, t: Tx, row: Row)
    requires SlotCall(t.call) && t.readAt <= |log|
  {
    && PayloadOk(Named(t.call), row)
    && (t.call.Update? ==> OnlySlot(Claimants(log[..t.readAt], Named(t.call)), Slot(row)))
  }

  predicate TxFair(rows: map<string, Row>, log: seq<Entry>, t: Tx) {
    && SlotCall(t.call) && t.readAt <= |log| && Named(t.call) in rows
    && (t.stage.Holding? ==> CoversReadClaims(log, t, t.stage.row))
    && (t.stage.Wrote? && t.stage.effect.Rewritten? ==> CoversReadClaims(log, t, t.stage.effect.row))
  }

  ghost predicate Fair(namespace: string, s: System) {
    && Inv(namespace, s) && RowsOk(s.store) && Exclusive(s)
    && forall tx <- s.txs :: TxFair(s.store.rows, s.log, s.txs[tx])
  }

  /**
   * The step commits a spec change over the claim of a run that was granted
   * it after the update's read, has not released it, and is not the run the
   * update puts back into the slot.
   */
  ghost predicate Robs(s: System, step: Step) {
    && step.CommitTx? && step.tx in s.txs
    && var t := s.txs[step.tx];
    && t.call.Update? && t.stage.Wrote? && t.stage.effect.Rewritten? && t.readAt <= |s.log|
    && exists runID <- Claimants(s.log, Named(t.call)) ::
         runID !in Claimants(s.log[..t.readAt], Named(t.call)) && runID != Slot(t.stage.effect.row)
  }

  // ---------------------------------------------------------------- one step

  lemma TxStaysFair(rows: map<string, Row>, more: map<string, Row>, log: seq<Entry>, longer: seq<Entry>, t: Tx)
    requires TxFair(rows, log, t) && rows.Keys == more.Keys && log <= longer
    ensures TxFair(more, longer, t) && TxFair(more, longer, t.(stage := Over))
  {
    assert longer[..t.readAt] == log[..t.readAt];
  }

  lemma ReadIsFair(namespace: string, s: System, tx: TxId, next: System)
    requires Enabled(namespace, s, ReadRow(tx)) && next == Next(namespace, s, ReadRow(tx))
    requires TxFair(s.store.rows, s.log, s.txs[tx])
    requires var id := Named(s.txs[tx].call);
             PayloadOk(id, s.store.rows[id]) && OnlySlot(Claimants(s.log, id), Slot(s.store.rows[id]))
    ensures TxFair(next.store.rows, next.log, next.txs[tx])
  {
    assert s.log[..|s.log|] == s.log;
  }

  lemma WriteIsFair(namespace: string, s: System, tx: TxId, next: System)
    requires Enabled(namespace, s, WriteRow(tx)) && next == Next(namespace, s, WriteRow(tx))
    requires TxFair(s.store.rows, s.log, s.txs[tx])
    ensures TxFair(next.store.rows, next.log, next.txs[tx])
  {
    var t := s.txs[tx];
    EffectOnSlot(namespace, Named(t.call), t.stage.row, t.call);
  }

  lemma OtherStepsAreFair(namespace: string, s: System, step: Step, next: System, tx: TxId)
    requires Enabled(namespace, s, step) && next == Next(namespace, s, step) && tx in next.txs
    requires !(tx == step.tx && (step.ReadRow? || step.WriteRow?)) && (step.Begin? ==> SlotCall(step.call))
    requires tx in s.txs ==> TxFair(s.store.rows, s.log, s.txs[tx])
    requires s.store.rows.Keys == next.store.rows.Keys
    ensures TxFair(next.store.rows, next.log, next.txs[tx])
  {
    if tx in s.txs {
      TxStaysFair(s.store.rows, next.store.rows, s.log, next.log, s.txs[tx]);
    }
  }

  lemma KeysStay(namespace: string, s: System, step: Step, next: System)
    requires Inv(namespace, s) && Enabled(namespace, s, step) && next == Next(namespace, s, step)
    ensures next.store.rows.Keys == s.store.rows.Keys
  {
    if step.CommitTx? {
      CommitKeepsKeys(namespace, s, step.tx, next);
    } else {
      OtherStepsKeepStore(namespace, s, step);
    }
  }

  lemma StepKeepsTxsFair(namespace: string, s: System, step: Step, next: System)
    requires Fair(namespace, s) && Enabled(namespace, s, step) && next == Next(namespace, s, step)
    requires step.Begin? ==> SlotCall(step.call)
    ensures forall tx <- next.txs :: TxFair(next.store.rows, next.log, next.txs[tx])
  {
    KeysStay(namespace, s, step, next);
    forall tx <- next.txs ensures TxFair(next.store.rows, next.log, next.txs[tx]) {
      if tx == step.tx && step.ReadRow? {
        assert Named(s.txs[tx].call) in s.store.rows;
        ReadIsFair(namespace, s, tx, next);
      } else if tx == step.tx && step.WriteRow? {
        WriteIsFair(namespace, s, tx, next);
      } else {
        OtherStepsAreFair(namespace, s, step, next, tx);
      }
    }
  }

  lemma LockedCommitStaysExclusive(namespace: string, s: System, tx: TxId, next: System)
    requires Fair(namespace, s) && Enabled(namespace, s, CommitTx(tx)) && next == Next(namespace, s, CommitTx(tx))
    requires LocksOnRead(s.txs[tx].call)
    ensures RowsOk(next.store) && Exclusive(next)
  {
    CommitKeepsKeys(namespace, s, tx, next);
    assert TxInv(namespace, s.store, s.locks, tx, s.txs[tx]);
    forall id <- next.store.rows
      ensures PayloadOk(id, next.store.rows[id]) && OnlySlot(Claimants(next.log, id), Slot(next.store.rows[id]))
    {
      LockedCommitMoves(namespace, s, tx, next, id);
      LogAppend("", s.log, Entry(s.txs[tx].call, Ok(s.txs[tx].stage.effect.reply)), id);
    }
  }

  /** The slot an update puts back covers the claims if and only if none was granted since to another run. */
  lemma CoversIff(claimants: set<string>, read: set<string>, now: string, written: string)
    requires OnlySlot(claimants, now) && OnlySlot(read, written)
    ensures OnlySlot(claimants, written) <==> !exists runID <- claimants :: runID !in read && runID != written
  {
  }

  lemma UpdateCommitOnRow(namespace: string, s: System, tx: TxId, next: System, id: string)
    requires Enabled(namespace, s, CommitTx(tx)) && next == Next(namespace, s, CommitTx(tx))
    requires s.txs[tx].call.Update? && TxFair(s.store.rows, s.log, s.txs[tx])
    requires id in s.store.rows && PayloadOk(id, s.store.rows[id])
    ensures id in next.store.rows && PayloadOk(id, next.store.rows[id])
            && Claimants(next.log, id) == Claimants(s.log, id)
    ensures var t := s.txs[tx];
            next.store.rows[id] == if id == Named(t.call) && t.stage.effect.Rewritten? then t.stage.effect.row
            else s.store.rows[id]
  {
    var t := s.txs[tx];
    CommitWrites(namespace, s, tx, next);
    UpdateIsNoMove("", s.log, Entry(t.call, Ok(t.stage.effect.reply)), id);
  }

  lemma UpdateCommitRowIff(namespace: string, s: System, tx: TxId, next: System, id: string)
    requires Enabled(namespace, s, CommitTx(tx)) && next == Next(namespace, s, CommitTx(tx))
    requires s.txs[tx].call.Update? && TxFair(s.store.rows, s.log, s.txs[tx])
    requires id in s.store.rows && PayloadOk(id, s.store.rows[id])
             && OnlySlot(Claimants(s.log, id), Slot(s.store.rows[id]))
    ensures id in next.store.rows && PayloadOk(id, next.store.rows[id])
    ensures OnlySlot(Claimants(next.log, id), Slot(next.store.rows[id]))
            <==> !(id == Named(s.txs[tx].call) && Robs(s, CommitTx(tx)))
  {
    var t := s.txs[tx];
    UpdateCommitOnRow(namespace, s, tx, next, id);
    if id == Named(t.call) && t.stage.effect.Rewritten? {
      CoversIff(Claimants(s.log, id), Claimants(s.log[..t.readAt], id), Slot(s.store.rows[id]),
                Slot(t.stage.effect.row));
    }
  }

  lemma UpdateCommitExclusiveIff(namespace: string, s: System, tx: TxId, next: System)
    requires Fair(namespace, s) && Enabled(namespace, s, CommitTx(tx)) && next == Next(namespace, s, CommitTx(tx))
    requires s.txs[tx].call.Update?
    ensures RowsOk(next.store) && (Exclusive(next) <==> !Robs(s, CommitTx(tx)))
  {
    var own, robs := Named(s.txs[tx].call), Robs(s, CommitTx(tx));
    CommitKeepsKeys(namespace, s, tx, next);
    assert TxFair(s.store.rows, s.log, s.txs[tx]);
    forall id <- next.store.rows
      ensures PayloadOk(id, next.store.rows[id])
      ensures OnlySlot(Claimants(next.log, id), Slot(next.store.rows[id])) <==> !(id == own && robs)
    {
      UpdateCommitRowIff(namespace, s, tx, next, id);
    }
  }

  lemma StepExclusiveIff(namespace: string, s: System, step: Step, next: System)
    requires Fair(namespace, s) && Enabled(namespace, s, step) && next == Next(namespace, s, step)
    requires step.Begin? ==> SlotCall(step.call)
    ensures Exclusive(next) <==> !Robs(s, step)
    ensures Exclusive(next) ==> Fair(namespace, next)
  {
    StepKeepsInv(namespace, s, step, next);
    StepKeepsTxsFair(namespace, s, step, next);
    if !step.CommitTx? {
      OtherStepsKeepStore(namespace, s, step);
    } else {
      assert TxFair(s.store.rows, s.log, s.txs[step.tx]);
      if s.txs[step.tx].call.Update? {
        UpdateCommitExclusiveIff(namespace, s, step.tx, next);
      } else {
        LockedCommitStaysExclusive(namespace, s, step.tx, next);
      }
    }
  }

  // ---------------------------------------------------------------- whole runs

  ghost predicate NoneRobs(namespace: string, s: System, steps: seq<Step>)
    requires IsRun(namespace, s, steps)
    decreases |steps|
  {
    steps == [] || (!Robs(s, steps[0]) && NoneRobs(namespace, Next(namespace, s, steps[0]), steps[1..]))
  }

  /** Before and after every step of the run, unreleased claims are those of the runs in the slots. */
  ghost predicate ExclusiveThroughout(namespace: string, s: System, steps: seq<Step>)
    requires IsRun(namespace, s, steps)
    decreases |steps|
  {
    && Exclusive(s)
    && (steps == [] || ExclusiveThroughout(namespace, Next(namespace, s, steps[0]), steps[1..]))
  }

  lemma {:induction false} RunExclusiveIff(namespace: string, s: System, steps: seq<Step>)
    requires Fair(namespace, s) && IsRun(namespace, s, steps) && BeginsSlotCalls(steps)
    ensures ExclusiveThroughout(namespace, s, steps) <==> NoneRobs(namespace, s, steps)
    decreases |steps|
  {
    if steps != [] {
      var next := Next(namespace, s, steps[0]);
      StepExclusiveIff(namespace, s, steps[0], next);
      if Exclusive(next) {
        RunExclusiveIff(namespace, next, steps[1..]);
      } else {
        assert !ExclusiveThroughout(namespace, next, steps[1..]);
      }
    }
  }

  /**
   * Claims, releases and updates interleaved in any way: unreleased claims
   * are always those of the runs in the slots if and only if no update
   * commits over an unreleased claim that another run was granted after the
   * update's read.
   */
  lemma ExclusiveIff(namespace: string, store: Store, steps: seq<Step>)
    requires StoreInv(store) && IsRun(namespace, Initial(store), steps) && BeginsSlotCalls(steps)
    ensures ExclusiveThroughout(namespace, Initial(store), steps) <==> NoneRobs(namespace, Initial(store), steps)
  {
    RunExclusiveIff(namespace, Initial(store), steps);
  }

  // ---------------------------------------------------------------- two claimants

  /** A later claim of a free, ready session runs to its commit. */
  lemma LaterClaim(namespace: string, s: System, claim: Call, id: string) returns (end: System)
    requires Claimable(s, id) && claim.Claim? && Named(claim) == id && TrimSpace(claim.runID) != ""
    ensures Reaches(namespace, s, end)
    ensures Claimants(end.log, id) == Claimants(s.log, id) + {TrimSpace(claim.runID)}
    ensures id in end.store.rows && Slot(end.store.rows[id]) == TrimSpace(claim.runID)
  {
    var row := s.store.rows[id];
    var held, t, effect := Opened(s, 3, claim), Tx(claim, Holding(row), |s.log|), RowEffect(namespace, row, claim);
    FreshClaimRewrites(namespace, row, claim, id);
    EffectOnSlot(namespace, id, row, claim);
    OpenReaches(namespace, s, 3, claim);
    CloseReaches(namespace, held, 3, t, effect);
    end := Committed(held, 3, t, effect);
    ReachesThrough(namespace, s, held, end);
    CommittedWrites(held, 3, t, effect);
    LogAppend("", s.log, Entry(claim, Ok(effect.reply)), id);
  }

  /**
   * It happens: the update that read before the first claim puts the empty
   * slot back, a second run is granted the session, and both hold it.
   */
  lemma TwoClaimants(namespace: string, now: Timestamp) returns (store: Store, end: System)
    ensures StoreInv(store) && Reaches(namespace, Initial(store), end)
    ensures Claimants(end.log, "s") == {"r", "q"} && !Exclusive(end)
  {
    var update: Call, claim: Call, middle: System;
    store, update, claim, middle := LostClaimExample(namespace, now);
    Letters();
    end := LaterClaim(namespace, middle, Claim("s", "q", now), "s");
    ReachesThrough(namespace, Initial(store), middle, end);
    NotExclusive(end, "s", "r");
  }

  lemma Letters()
    ensures TrimSpace("s") == "s" && TrimSpace("q") == "q"
  {
    assert Trimmed("s") && Trimmed("q");
    TrimSpaceTrims("s");
    TrimSpaceTrims("q");
  }

  lemma NotExclusive(s: System, id: string, runID: string)
    requires id in s.store.rows && runID in Claimants(s.log, id) && runID != Slot(s.store.rows[id])
    ensures !Exclusive(s)
  {
  }
}
