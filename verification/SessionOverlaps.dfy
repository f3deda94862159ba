/**
 * The active-run slot under overlapping transactions: claims and releases,
 * which lock their row before they read it, and spec updates, which do not.
 * The log of committed claims and releases says which run should hold a slot.
 */
module SessionOverlaps {
  import opened Text
  import opened SessionTypes
  import opened SessionStore
  import opened SessionRuns
  import opened SessionReadiness
  import opened SessionLocks

  // ---------------------------------------------------------------- what the log says

  /** The run that holds a session's slot after one more committed call, going by its answer. */
  function Held(slot: string, entry: Entry, id: string): string {
    if entry.call.Create? || Named(entry.call) != id then slot
    else if entry.call.Claim? && entry.reply.Ok? then TrimSpace(entry.call.runID)
    else if entry.call.Release? && entry.reply == Ok(ReleasedReply(true)) then ""
    else slot
  }

  function Holder(slot: string, log: seq<Entry>, id: string): string {
    if log == [] then slot else Held(Holder(slot, log[..|log| - 1], id), log[|log| - 1], id)
  }

  function Claims(claimants: set<string>, entry: Entry, id: string): set<string> {
    if entry.call.Create? || Named(entry.call) != id then claimants
    else if entry.call.Claim? && entry.reply.Ok? then claimants + {TrimSpace(entry.call.runID)}
    else if entry.call.Release? && entry.reply == Ok(ReleasedReply(true)) then claimants - {TrimSpace(entry.call.runID)}
    else claimants
  }

  /** The runs that hold a claim on the session which they have not released. */
  function Claimants(log: seq<Entry>, id: string): set<string> {
    if log == [] then {} else
    Claims(Claimants(log[..|log| - 1], id), log[|log| - 1], id)
  }

  lemma LogAppend(slot: string, log: seq<Entry>, entry: Entry, id: string)
    ensures Holder(slot, log + [entry], id) == Held(Holder(slot, log, id), entry, id)
    ensures Claimants(log + [entry], id) == Claims(Claimants(log, id), entry, id)
  {
    assert (log + [entry])[..|log|] == log;
  }

  predicate OnlySlot(claimants: set<string>, slot: string) { claimants <= if slot == "" then {} else {slot} }

  /** Every run with an unreleased claim on a session is the one in its slot. */
  ghost predicate Exclusive(s: System) {
    forall id <- s.store.rows :: OnlySlot(Claimants(s.log, id), Slot(s.store.rows[id]))
  }

  /** Every slot holds the run that the committed claims and releases left in it. */
  ghost predicate FollowsLog(first: Store, s: System) {
    && s.store.rows.Keys == first.rows.Keys
    && forall id <- s.store.rows :: Slot(s.store.rows[id]) == Holder(Slot(first.rows[id]), s.log, id)
  }

  // ---------------------------------------------------------------- one call on one row

  predicate SlotCall(call: Call) { call.Claim? || call.Release? || call.Update? }

  predicate MovesSlot(row: Row, call: Call, effect: Effect)
    requires SlotCall(call)
  {
    match effect
    case Refused(_) => true
    case Unchanged(reply) =>
      (call.Claim? ==> Slot(row) == TrimSpace(call.runID)) && (call.Release? ==> reply == ReleasedReply(false))
    case Rewritten(next, _, reply) =>
      && (call.Update? ==> Slot(next) == Slot(row))
      && (call.Claim? ==> Slot(row) == "" && Slot(next) == TrimSpace(call.runID))
      && (call.Release? ==> Slot(row) == TrimSpace(call.runID) && Slot(next) == "" && reply == ReleasedReply(true))
  }

  /** A claim takes a free slot or repeats its own, a release empties its own, an update writes the slot it read. */
  lemma EffectOnSlot(namespace: string, id: string, row: Row, call: Call)
    requires SlotCall(call) && EarlyReply(call).None? && Named(call) == id && PayloadOk(id, row)
    ensures var effect := RowEffect(namespace, row, call);
            MovesSlot(row, call, effect) && (effect.Rewritten? ==> PayloadOk(id, effect.row))
  {
    EffectKeepsPayload(namespace, id, row, call);
    TrimSpaceTrims(id);
    if call.Claim? {
      TrimSpaceTrims(call.runID);
    }
    assert TrimSpace("") == "";
  }

  // ---------------------------------------------------------------- the invariant

  /** An update in flight carries the slot as it was when it read its row. */
  predicate CarriesReadSlot(first: Store, log: seq<Entry>, t: Tx, row: Row)
    requires SlotCall(t.call) && t.readAt <= |log| && Named(t.call) in first.rows
  {
    && PayloadOk(Named(t.call), row)
    && (t.call.Update? ==> Slot(row) == Holder(Slot(first.rows[Named(t.call)]), log[..t.readAt], Named(t.call)))
  }

  predicate TxOk(first: Store, log: seq<Entry>, t: Tx) {
    && SlotCall(t.call) && t.readAt <= |log| && Named(t.call) in first.rows
    && (t.stage.Holding? ==> CarriesReadSlot(first, log, t, t.stage.row))
    && (t.stage.Wrote? && t.stage.effect.Rewritten? ==> CarriesReadSlot(first, log, t, t.stage.effect.row))
  }

  predicate RowsOk(store: Store) { forall id <- store.rows :: PayloadOk(id, store.rows[id]) }

  ghost predicate Sound(namespace: string, first: Store, s: System) {
    && Inv(namespace, s) && RowsOk(s.store) && FollowsLog(first, s) && Exclusive(s)
    && forall tx <- s.txs :: TxOk(first, s.log, s.txs[tx])
  }

  /**
   * The step commits a spec change after the claims and releases committed
   * since its read have given the slot to someone else, or emptied it.
   */
  predicate Overtaken(first: Store, s: System, step: Step) {
    && step.CommitTx? && step.tx in s.txs
    && var t := s.txs[step.tx];
    && t.call.Update? && t.stage.Wrote? && t.stage.effect.Rewritten?
    && Named(t.call) in first.rows && t.readAt <= |s.log|
    && var slot := Slot(first.rows[Named(t.call)]);
       Holder(slot, s.log[..t.readAt], Named(t.call)) != Holder(slot, s.log, Named(t.call))
  }

  // ---------------------------------------------------------------- one step

  lemma TxKeeps(first: Store, log: seq<Entry>, more: seq<Entry>, t: Tx)
    requires TxOk(first, log, t) && log <= more
    ensures TxOk(first, more, t) && TxOk(first, more, t.(stage := Over))
  {
    assert more[..t.readAt] == log[..t.readAt];
  }

  lemma ReadKeepsTx(namespace: string, first: Store, s: System, tx: TxId, next: System)
    requires Enabled(namespace, s, ReadRow(tx)) && next == Next(namespace, s, ReadRow(tx))
    requires TxOk(first, s.log, s.txs[tx])
    requires var id := Named(s.txs[tx].call);
             PayloadOk(id, s.store.rows[id]) && Slot(s.store.rows[id]) == Holder(Slot(first.rows[id]), s.log, id)
    ensures TxOk(first, next.log, next.txs[tx])
  {
    assert s.log[..|s.log|] == s.log;
  }

  lemma WriteKeepsTx(namespace: string, first: Store, s: System, tx: TxId, next: System)
    requires Enabled(namespace, s, WriteRow(tx)) && next == Next(namespace, s, WriteRow(tx))
    requires TxOk(first, s.log, s.txs[tx])
    ensures TxOk(first, next.log, next.txs[tx])
  {
    var t := s.txs[tx];
    EffectOnSlot(namespace, Named(t.call), t.stage.row, t.call);
  }

  /** Any other step leaves the transaction as it was, or over, or has just begun it. */
  lemma OtherStepsKeepTx(namespace: string, first: Store, s: System, step: Step, next: System, tx: TxId)
    requires Enabled(namespace, s, step) && next == Next(namespace, s, step) && tx in next.txs
    requires !(tx == step.tx && (step.ReadRow? || step.WriteRow?)) && (step.Begin? ==> SlotCall(step.call))
    requires tx in s.txs ==> TxOk(first, s.log, s.txs[tx])
    requires s.store.rows.Keys == first.rows.Keys
    ensures TxOk(first, next.log, next.txs[tx])
  {
    if tx in s.txs {
      TxKeeps(first, s.log, next.log, s.txs[tx]);
    }
  }

  lemma StepKeepsTxs(namespace: string, first: Store, s: System, step: Step, next: System)
    requires Sound(namespace, first, s) && Enabled(namespace, s, step) && next == Next(namespace, s, step)
    requires step.Begin? ==> SlotCall(step.call)
    ensures forall tx <- next.txs :: TxOk(first, next.log, next.txs[tx])
  {
    forall tx <- next.txs ensures TxOk(first, next.log, next.txs[tx]) {
      if tx == step.tx && step.ReadRow? {
        assert Named(s.txs[tx].call) in s.store.rows;
        ReadKeepsTx(namespace, first, s, tx, next);
      } else if tx == step.tx && step.WriteRow? {
        WriteKeepsTx(namespace, first, s, tx, next);
      } else {
        OtherStepsKeepTx(namespace, first, s, step, next, tx);
      }
    }
  }

  function SlotAfter(row: Row, effect: Effect): string { if effect.Rewritten? then Slot(effect.row) else Slot(row) }

  /** What a commit does to rows and log. */
  lemma CommitWrites(namespace: string, s: System, tx: TxId, next: System)
    requires Enabled(namespace, s, CommitTx(tx)) && next == Next(namespace, s, CommitTx(tx))
    ensures var call, effect := s.txs[tx].call, s.txs[tx].stage.effect;
            && next.store.rows == (if effect.Rewritten? then s.store.rows[Named(call) := effect.row] else s.store.rows)
            && next.log == s.log + [Entry(call, Ok(effect.reply))]
  {
  }

  /** A claim or release moves slot, log and claimants together. */
  lemma LockedEffectFollows(row: Row, call: Call, effect: Effect, claimants: set<string>)
    requires LocksOnRead(call) && !effect.Refused? && MovesSlot(row, call, effect) && OnlySlot(claimants, Slot(row))
    requires call.Claim? ==> TrimSpace(call.runID) != ""
    ensures var entry := Entry(call, Ok(effect.reply));
            && Held(Slot(row), entry, Named(call)) == SlotAfter(row, effect)
            && OnlySlot(Claims(claimants, entry, Named(call)), SlotAfter(row, effect))
  {
  }

  /** It commits what it would have done on its own, because the row it read is still the committed one. */
  lemma LockedTxMovesSlot(namespace: string, store: Store, locks: map<string, TxId>, tx: TxId, t: Tx)
    requires TxInv(namespace, store, locks, tx, t) && LocksOnRead(t.call) && t.stage.Wrote?
    requires PayloadOk(Named(t.call), store.rows[Named(t.call)])
    ensures MovesSlot(store.rows[Named(t.call)], t.call, t.stage.effect)
    ensures t.stage.effect.Rewritten? ==> PayloadOk(Named(t.call), t.stage.effect.row)
    ensures t.call.Claim? ==> TrimSpace(t.call.runID) != ""
  {
    EffectOnSlot(namespace, Named(t.call), store.rows[Named(t.call)], t.call);
  }

  lemma LockedCommitMoves(namespace: string, s: System, tx: TxId, next: System, id: string)
    requires Enabled(namespace, s, CommitTx(tx)) && next == Next(namespace, s, CommitTx(tx))
    requires LocksOnRead(s.txs[tx].call) && TxInv(namespace, s.store, s.locks, tx, s.txs[tx])
    requires id in s.store.rows && PayloadOk(id, s.store.rows[id])
             && OnlySlot(Claimants(s.log, id), Slot(s.store.rows[id]))
    ensures id in next.store.rows && PayloadOk(id, next.store.rows[id])
    ensures var entry := Entry(s.txs[tx].call, Ok(s.txs[tx].stage.effect.reply));
            && next.log == s.log + [entry]
            && Slot(next.store.rows[id]) == Held(Slot(s.store.rows[id]), entry, id)
            && OnlySlot(Claims(Claimants(s.log, id), entry, id), Slot(next.store.rows[id]))
  {
    var call, effect := s.txs[tx].call, s.txs[tx].stage.effect;
    CommitWrites(namespace, s, tx, next);
    if id == Named(call) {
      LockedTxMovesSlot(namespace, s.store, s.locks, tx, s.txs[tx]);
      LockedEffectFollows(s.store.rows[id], call, effect, Claimants(s.log, id));
    }
  }

  lemma LockedCommitFollows(namespace: string, s: System, tx: TxId, next: System, slot: string, id: string)
    requires Enabled(namespace, s, CommitTx(tx)) && next == Next(namespace, s, CommitTx(tx))
    requires LocksOnRead(s.txs[tx].call) && TxInv(namespace, s.store, s.locks, tx, s.txs[tx])
    requires id in s.store.rows && PayloadOk(id, s.store.rows[id])
             && OnlySlot(Claimants(s.log, id), Slot(s.store.rows[id]))
    requires Slot(s.store.rows[id]) == Holder(slot, s.log, id)
    ensures id in next.store.rows && PayloadOk(id, next.store.rows[id])
    ensures Slot(next.store.rows[id]) == Holder(slot, next.log, id)
    ensures OnlySlot(Claimants(next.log, id), Slot(next.store.rows[id]))
  {
    LockedCommitMoves(namespace, s, tx, next, id);
    LogAppend(slot, s.log, Entry(s.txs[tx].call, Ok(s.txs[tx].stage.effect.reply)), id);
  }

  lemma UpdateIsNoMove(slot: string, log: seq<Entry>, entry: Entry, id: string)
    requires entry.call.Update?
    ensures Holder(slot, log + [entry], id) == Holder(slot, log, id)
            && Claimants(log + [entry], id) == Claimants(log, id)
  {
    LogAppend(slot, log, entry, id);
  }

  /** An update commits the slot it read, whatever has been committed since. */
  lemma UpdateCommitWrites(namespace: string, first: Store, s: System, tx: TxId, next: System, id: string)
    requires Enabled(namespace, s, CommitTx(tx)) && next == Next(namespace, s, CommitTx(tx))
    requires s.txs[tx].call.Update? && TxOk(first, s.log, s.txs[tx])
    requires id in s.store.rows && PayloadOk(id, s.store.rows[id]) && s.store.rows.Keys == first.rows.Keys
    requires Slot(s.store.rows[id]) == Holder(Slot(first.rows[id]), s.log, id)
    ensures id in next.store.rows && PayloadOk(id, next.store.rows[id])
    ensures Holder(Slot(first.rows[id]), next.log, id) == Holder(Slot(first.rows[id]), s.log, id)
    ensures Claimants(next.log, id) == Claimants(s.log, id)
    ensures var t := s.txs[tx];
            Slot(next.store.rows[id])
            == Holder(Slot(first.rows[id]), if id == Named(t.call) && t.stage.effect.Rewritten? then s.log[..t.readAt]
                      else s.log, id)
  {
    var t := s.txs[tx];
    CommitWrites(namespace, s, tx, next);
    UpdateIsNoMove(Slot(first.rows[id]), s.log, Entry(t.call, Ok(t.stage.effect.reply)), id);
  }

  lemma CommitKeepsKeys(namespace: string, s: System, tx: TxId, next: System)
    requires Inv(namespace, s) && Enabled(namespace, s, CommitTx(tx)) && next == Next(namespace, s, CommitTx(tx))
    ensures next.store.rows.Keys == s.store.rows.Keys
  {
    assert TxInv(namespace, s.store, s.locks, tx, s.txs[tx]);
  }

  lemma LockedCommitKeepsSound(namespace: string, first: Store, s: System, tx: TxId, next: System)
    requires Sound(namespace, first, s) && Enabled(namespace, s, CommitTx(tx))
             && next == Next(namespace, s, CommitTx(tx))
    requires LocksOnRead(s.txs[tx].call)
    ensures RowsOk(next.store) && FollowsLog(first, next) && Exclusive(next)
  {
    CommitKeepsKeys(namespace, s, tx, next);
    forall id <- next.store.rows
      ensures PayloadOk(id, next.store.rows[id])
              && Slot(next.store.rows[id]) == Holder(Slot(first.rows[id]), next.log, id)
      ensures OnlySlot(Claimants(next.log, id), Slot(next.store.rows[id]))
    {
      LockedCommitFollows(namespace, s, tx, next, Slot(first.rows[id]), id);
    }
  }

  lemma UpdateCommitFollowsIff(namespace: string, first: Store, s: System, tx: TxId, next: System)
    requires Sound(namespace, first, s) && Enabled(namespace, s, CommitTx(tx))
             && next == Next(namespace, s, CommitTx(tx))
    requires s.txs[tx].call.Update?
    ensures RowsOk(next.store) && (FollowsLog(first, next) <==> !Overtaken(first, s, CommitTx(tx)))
    ensures FollowsLog(first, next) ==> Exclusive(next)
  {
    var own, overtaken := Named(s.txs[tx].call), Overtaken(first, s, CommitTx(tx));
    CommitKeepsKeys(namespace, s, tx, next);
    assert TxOk(first, s.log, s.txs[tx]);
    forall id <- next.store.rows
      ensures PayloadOk(id, next.store.rows[id]) && Claimants(next.log, id) == Claimants(s.log, id)
      ensures Slot(next.store.rows[id]) == Holder(Slot(first.rows[id]), next.log, id) <==> !(id == own && overtaken)
      ensures Slot(next.store.rows[id]) == Holder(Slot(first.rows[id]), next.log, id) ==>
              Slot(next.store.rows[id]) == Slot(s.store.rows[id])
    {
      UpdateCommitWrites(namespace, first, s, tx, next, id);
    }
    ExclusiveStays(s, next);
  }

  lemma ExclusiveStays(s: System, next: System)
    requires Exclusive(s) && next.store.rows.Keys == s.store.rows.Keys
    requires forall id <- next.store.rows :: Claimants(next.log, id) == Claimants(s.log, id)
    ensures (forall id <- next.store.rows :: Slot(next.store.rows[id]) == Slot(s.store.rows[id])) ==> Exclusive(next)
  {
  }

  lemma SameStoreAndLog(first: Store, s: System, next: System)
    requires RowsOk(s.store) && FollowsLog(first, s) && Exclusive(s) && next.store == s.store && next.log == s.log
    ensures RowsOk(next.store) && FollowsLog(first, next) && Exclusive(next)
  {
  }

  lemma StepFollowsIff(namespace: string, first: Store, s: System, step: Step, next: System)
    requires Sound(namespace, first, s) && Enabled(namespace, s, step) && next == Next(namespace, s, step)
    requires step.Begin? ==> SlotCall(step.call)
    ensures FollowsLog(first, next) <==> !Overtaken(first, s, step)
    ensures FollowsLog(first, next) ==> Sound(namespace, first, next)
  {
    StepKeepsInv(namespace, s, step, next);
    StepKeepsTxs(namespace, first, s, step, next);
    if !step.CommitTx? {
      OtherStepsKeepStore(namespace, s, step);
      SameStoreAndLog(first, s, next);
    } else {
      assert TxOk(first, s.log, s.txs[step.tx]);
      if s.txs[step.tx].call.Update? {
        UpdateCommitFollowsIff(namespace, first, s, step.tx, next);
      } else {
        LockedCommitKeepsSound(namespace, first, s, step.tx, next);
      }
    }
  }

  // ---------------------------------------------------------------- whole runs

  predicate BeginsSlotCalls(steps: seq<Step>) { forall step <- steps :: step.Begin? ==> SlotCall(step.call) }

  /** No update of the run commits over a slot that moved after its read. */
  predicate NoneOvertaken(namespace: string, first: Store, s: System, steps: seq<Step>)
    requires IsRun(namespace, s, steps)
    decreases |steps|
  {
    steps == [] ||
    (!Overtaken(first, s, steps[0]) && NoneOvertaken(namespace, first, Next(namespace, s, steps[0]), steps[1..]))
  }

  /** Before and after every step of the run, every slot holds the run the log says. */
  ghost predicate SlotsFollow(namespace: string, first: Store, s: System, steps: seq<Step>)
    requires IsRun(namespace, s, steps)
    decreases |steps|
  {
    && FollowsLog(first, s)
    && (steps == [] || SlotsFollow(namespace, first, Next(namespace, s, steps[0]), steps[1..]))
  }

  lemma {:induction false} RunFollowsIff(namespace: string, first: Store, s: System, steps: seq<Step>)
    requires Sound(namespace, first, s) && IsRun(namespace, s, steps) && BeginsSlotCalls(steps)
    ensures SlotsFollow(namespace, first, s, steps) <==> NoneOvertaken(namespace, first, s, steps)
    ensures NoneOvertaken(namespace, first, s, steps) ==> Sound(namespace, first, After(namespace, s, steps))
    decreases |steps|
  {
    if steps != [] {
      var next := Next(namespace, s, steps[0]);
      StepFollowsIff(namespace, first, s, steps[0], next);
      if FollowsLog(first, next) {
        RunFollowsIff(namespace, first, next, steps[1..]);
      } else {
        DeviationShows(namespace, first, next, steps[1..]);
      }
    }
  }

  lemma DeviationShows(namespace: string, first: Store, s: System, steps: seq<Step>)
    requires IsRun(namespace, s, steps) && !FollowsLog(first, s)
    ensures !SlotsFollow(namespace, first, s, steps)
  {
  }

  lemma InitialIsSound(namespace: string, store: Store)
    requires StoreInv(store)
    ensures Sound(namespace, store, Initial(store))
  {
  }

  /**
   * Claims, releases and updates interleaved in any way: every slot always
   * holds the run that the committed claims and releases left there if and
   * only if no update commits after the claims and releases committed since
   * its read have moved the slot.
   */
  lemma SlotsFollowIff(namespace: string, store: Store, steps: seq<Step>)
    requires StoreInv(store) && IsRun(namespace, Initial(store), steps) && BeginsSlotCalls(steps)
    ensures SlotsFollow(namespace, store, Initial(store), steps)
            <==> NoneOvertaken(namespace, store, Initial(store), steps)
  {
    InitialIsSound(namespace, store);
    RunFollowsIff(namespace, store, Initial(store), steps);
  }

  /** In such a run no two runs ever hold unreleased claims on one session. */
  lemma ClaimsStayExclusive(namespace: string, store: Store, steps: seq<Step>)
    requires StoreInv(store) && IsRun(namespace, Initial(store), steps) && BeginsSlotCalls(steps)
    requires NoneOvertaken(namespace, store, Initial(store), steps)
    ensures Exclusive(After(namespace, Initial(store), steps))
            && FollowsLog(store, After(namespace, Initial(store), steps))
  {
    InitialIsSound(namespace, store);
    RunFollowsIff(namespace, store, Initial(store), steps);
  }

  predicate SlotMove(call: Call, reply: Outcome<Reply>, id: string, before: string, after: string) {
    && !call.Create? && Named(call) == id && reply.Ok?
    && (|| (call.Claim? && before == "" && after == TrimSpace(call.runID))
        || (call.Release? && before == TrimSpace(call.runID) && after == "" && reply.value == ReleasedReply(true)))
  }

  /** A locked commit leaves the slot alone or moves it as its own call may. */
  lemma LockedCommitMovesSlot(namespace: string, s: System, tx: TxId, next: System, id: string)
    requires Enabled(namespace, s, CommitTx(tx)) && next == Next(namespace, s, CommitTx(tx))
    requires LocksOnRead(s.txs[tx].call) && TxInv(namespace, s.store, s.locks, tx, s.txs[tx])
    requires id in s.store.rows && PayloadOk(id, s.store.rows[id])
    ensures id in next.store.rows && |next.log| == |s.log| + 1
    ensures Slot(next.store.rows[id]) == Slot(s.store.rows[id])
            || SlotMove(s.txs[tx].call, next.log[|s.log|].reply, id, Slot(s.store.rows[id]), Slot(next.store.rows[id]))
  {
    CommitWrites(namespace, s, tx, next);
    if id == Named(s.txs[tx].call) {
      LockedTxMovesSlot(namespace, s.store, s.locks, tx, s.txs[tx]);
    }
  }

  /**
   * The only ways the committed slot moves in such a run: from empty to the
   * run whose claim commits, and to empty from the run whose release commits.
   */
  lemma SlotChangesOnlyByItsRun(namespace: string, store: Store, steps: seq<Step>, step: Step, id: string, s: System,
                                next: System)
    requires StoreInv(store) && IsRun(namespace, Initial(store), steps) && BeginsSlotCalls(steps)
    requires NoneOvertaken(namespace, store, Initial(store), steps) && s == After(namespace, Initial(store), steps)
    requires Enabled(namespace, s, step) && !Overtaken(store, s, step) && id in s.store.rows
    requires next == Next(namespace, s, step)
    ensures id in next.store.rows
    ensures Slot(next.store.rows[id]) != Slot(s.store.rows[id]) ==>
              && step.CommitTx? && |next.log| == |s.log| + 1
              && SlotMove(s.txs[step.tx].call, next.log[|s.log|].reply, id, Slot(s.store.rows[id]),
                          Slot(next.store.rows[id]))
  {
    InitialIsSound(namespace, store);
    RunFollowsIff(namespace, store, Initial(store), steps);
    StepMovesSlot(namespace, store, s, step, id, next);
  }

  lemma StepMovesSlot(namespace: string, store: Store, s: System, step: Step, id: string, next: System)
    requires Sound(namespace, store, s)
    requires Enabled(namespace, s, step) && !Overtaken(store, s, step) && id in s.store.rows
    requires next == Next(namespace, s, step)
    ensures id in next.store.rows
    ensures Slot(next.store.rows[id]) != Slot(s.store.rows[id]) ==>
              && step.CommitTx? && |next.log| == |s.log| + 1
              && SlotMove(s.txs[step.tx].call, next.log[|s.log|].reply, id, Slot(s.store.rows[id]),
                          Slot(next.store.rows[id]))
  {
    if step.CommitTx? && LocksOnRead(s.txs[step.tx].call) {
      LockedCommitMovesSlot(namespace, s, step.tx, next, id);
    } else if step.CommitTx? {
      assert TxOk(store, s.log, s.txs[step.tx]);
      UpdateCommitWrites(namespace, store, s, step.tx, next, id);
    } else {
      OtherStepsKeepStore(namespace, s, step);
    }
  }

  lemma {:induction false} LockedRunIsNotOvertaken(namespace: string, first: Store, s: System, steps: seq<Step>)
    requires LocksAll(s) && IsRun(namespace, s, steps) && BeginsLocked(steps)
    ensures NoneOvertaken(namespace, first, s, steps)
    decreases |steps|
  {
    if steps != [] {
      StepKeepsLocksAll(namespace, s, steps[0], Next(namespace, s, steps[0]));
      LockedRunIsNotOvertaken(namespace, first, Next(namespace, s, steps[0]), steps[1..]);
    }
  }

  /**
   * Active-run mutual exclusion: in any interleaving of claims and releases,
   * every run with an unreleased claim is the one in the committed slot, so no
   * two runs hold a session at the same time.
   */
  lemma AtMostOneClaimant(namespace: string, store: Store, steps: seq<Step>)
    requires StoreInv(store) && IsRun(namespace, Initial(store), steps) && BeginsLocked(steps)
    ensures Exclusive(After(namespace, Initial(store), steps))
            && FollowsLog(store, After(namespace, Initial(store), steps))
  {
    LockedRunIsNotOvertaken(namespace, store, Initial(store), steps);
    ClaimsStayExclusive(namespace, store, steps);
  }

  /** A call of the log that gave the slot to a run or emptied it. */
  predicate Moves(entry: Entry, id: string) {
    && !entry.call.Create? && Named(entry.call) == id
    && ((entry.call.Claim? && entry.reply.Ok?) || (entry.call.Release? && entry.reply == Ok(ReleasedReply(true))))
  }

  lemma {:induction false} QuietLogKeepsHolder(slot: string, log: seq<Entry>, n: nat, id: string)
    requires n <= |log| && forall entry <- log[n..] :: !Moves(entry, id)
    ensures Holder(slot, log[..n], id) == Holder(slot, log, id)
    decreases |log|
  {
    if n == |log| {
      assert log[..n] == log;
    } else {
      var rest := log[..|log| - 1];
      assert log[|log| - 1] in log[n..];
      assert forall entry <- rest[n..] :: entry in log[n..];
      QuietLogKeepsHolder(slot, rest, n, id);
      assert rest[..n] == log[..n];
    }
  }

  /** An update is not overtaken while no claim or release of its session has succeeded since its read. */
  lemma QuietUpdateIsNotOvertaken(first: Store, s: System, step: Step)
    requires step.CommitTx? && step.tx in s.txs && s.txs[step.tx].call.Update? && s.txs[step.tx].readAt <= |s.log|
    requires forall entry <- s.log[s.txs[step.tx].readAt..] :: !Moves(entry, Named(s.txs[step.tx].call))
    ensures !Overtaken(first, s, step)
  {
    var t := s.txs[step.tx];
    if Named(t.call) in first.rows {
      QuietLogKeepsHolder(Slot(first.rows[Named(t.call)]), s.log, t.readAt, Named(t.call));
    }
  }

  /** Such calls are not always in the way: a claim of a free slot and its release leave it as it was. */
  lemma ClaimAndReleaseCancel(slot: string, log: seq<Entry>, claim: Entry, release: Entry, id: string)
    requires Moves(claim, id) && claim.call.Claim? && Moves(release, id) && release.call.Release?
    requires Holder(slot, log, id) == ""
    ensures Holder(slot, log + [claim] + [release], id) == Holder(slot, log, id)
  {
    LogAppend(slot, log, claim, id);
    LogAppend(slot, log + [claim], release, id);
  }

  // ---------------------------------------------------------------- a lost claim

  ghost predicate Reaches(namespace: string, s: System, t: System) {
    exists steps: seq<Step> :: IsRun(namespace, s, steps) && After(namespace, s, steps) == t
  }

  /** Where a system goes when transaction `tx` writes `effect` and commits it. */
  function Committed(s: System, tx: TxId, t: Tx, effect: Effect): System
    requires !t.call.Create? && effect.Rewritten? && Announces(effect)
  {
    System(Commit(s.store, Named(t.call), effect).store, s.txs[tx := t.(stage := Over)],
           Unlocked(s.locks[Named(t.call) := tx], tx), s.log + [Entry(t.call, Ok(effect.reply))])
  }

  lemma CommittedWrites(s: System, tx: TxId, t: Tx, effect: Effect)
    requires !t.call.Create? && effect.Rewritten? && Announces(effect)
    ensures Committed(s, tx, t, effect).store.rows == s.store.rows[Named(t.call) := effect.row]
    ensures Committed(s, tx, t, effect).log == s.log + [Entry(t.call, Ok(effect.reply))]
    ensures s.locks == map[] ==> Committed(s, tx, t, effect).locks == map[]
    ensures tx in s.txs ==> Committed(s, tx, t, effect).txs.Keys == s.txs.Keys
  {
  }

  lemma {:induction false} RunConcat(namespace: string, s: System, steps: seq<Step>, more: seq<Step>)
    requires IsRun(namespace, s, steps) && IsRun(namespace, After(namespace, s, steps), more)
    ensures IsRun(namespace, s, steps + more)
    ensures After(namespace, s, steps + more) == After(namespace, After(namespace, s, steps), more)
    decreases |steps|
  {
    if steps == [] {
      assert steps + more == more;
    } else {
      assert (steps + more)[0] == steps[0] && (steps + more)[1..] == steps[1..] + more;
      RunConcat(namespace, Next(namespace, s, steps[0]), steps[1..], more);
    }
  }

  lemma ReachesThrough(namespace: string, s: System, t: System, u: System)
    requires Reaches(namespace, s, t) && Reaches(namespace, t, u)
    ensures Reaches(namespace, s, u)
  {
    var steps: seq<Step> :| IsRun(namespace, s, steps) && After(namespace, s, steps) == t;
    var more: seq<Step> :| IsRun(namespace, t, more) && After(namespace, t, more) == u;
    RunConcat(namespace, s, steps, more);
  }

  lemma OneStepReaches(namespace: string, s: System, step: Step, t: System)
    requires Enabled(namespace, s, step) && t == Next(namespace, s, step)
    ensures Reaches(namespace, s, t)
  {
    var steps := [step];
    assert steps[1..] == [] && IsRun(namespace, t, steps[1..]);
    assert IsRun(namespace, s, steps) && After(namespace, s, steps) == t;
  }

  /** The state after transaction `tx` has begun and read its row. */
  function Opened(s: System, tx: TxId, call: Call): System
    requires Reads(s.store, call)
  {
    s.(txs := s.txs[tx := Tx(call, Holding(s.store.rows[Named(call)]), |s.log|)],
       locks := if LocksOnRead(call) then s.locks[Named(call) := tx] else s.locks)
  }

  lemma OpenReaches(namespace: string, s: System, tx: TxId, call: Call)
    requires tx !in s.txs && Reads(s.store, call) && (LocksOnRead(call) ==> Named(call) !in s.locks)
    ensures Reaches(namespace, s, Opened(s, tx, call))
  {
    var begun := Next(namespace, s, Begin(tx, call));
    OneStepReaches(namespace, s, Begin(tx, call), begun);
    OneStepReaches(namespace, begun, ReadRow(tx), Next(namespace, begun, ReadRow(tx)));
    assert Next(namespace, begun, ReadRow(tx)) == Opened(s, tx, call);
    ReachesThrough(namespace, s, begun, Opened(s, tx, call));
  }

  lemma CloseReaches(namespace: string, s: System, tx: TxId, t: Tx, effect: Effect)
    requires tx in s.txs && s.txs[tx] == t && t.stage.Holding? && Reads(s.store, t.call)
    requires effect == RowEffect(namespace, t.stage.row, t.call) && effect.Rewritten? && Announces(effect)
    requires !LocksOnRead(t.call) ==> Named(t.call) !in s.locks
    ensures Reaches(namespace, s, Committed(s, tx, t, effect))
  {
    var written := Next(namespace, s, WriteRow(tx));
    OneStepReaches(namespace, s, WriteRow(tx), written);
    OneStepReaches(namespace, written, CommitTx(tx), Next(namespace, written, CommitTx(tx)));
    assert Next(namespace, written, CommitTx(tx)) == Committed(s, tx, t, effect);
    ReachesThrough(namespace, s, written, Committed(s, tx, t, effect));
  }

  function ClaimedMeanwhile(s: System, update: Call, claim: Call, claimed: Effect): System
    requires Reads(s.store, update) && Reads(s.store, claim) && claimed.Rewritten? && Announces(claimed)
  {
    Committed(Opened(Opened(s, 1, update), 2, claim), 2, Tx(claim, Holding(s.store.rows[Named(claim)]), |s.log|),
              claimed)
  }

  /** The update reads, then the claim reads, writes and commits. */
  lemma ClaimedMeanwhileReaches(namespace: string, s: System, update: Call, claim: Call, claimed: Effect)
    requires s.txs == map[] && s.locks == map[] && Reads(s.store, update) && Reads(s.store, claim)
    requires update.Update? && claim.Claim?
    requires claimed == RowEffect(namespace, s.store.rows[Named(claim)], claim) && claimed.Rewritten?
             && Announces(claimed)
    ensures Reaches(namespace, s, ClaimedMeanwhile(s, update, claim, claimed))
  {
    var first := Opened(s, 1, update);
    var both := Opened(first, 2, claim);
    var t := Tx(claim, Holding(s.store.rows[Named(claim)]), |s.log|);
    OpenReaches(namespace, s, 1, update);
    OpenReaches(namespace, first, 2, claim);
    ReachesThrough(namespace, s, first, both);
    CloseReaches(namespace, both, 2, t, claimed);
    ReachesThrough(namespace, s, both, Committed(both, 2, t, claimed));
  }

  lemma MeanwhileLeaves(s: System, between: System, update: Call, claim: Call, claimed: Effect)
    requires s.txs == map[] && s.locks == map[] && Reads(s.store, update) && Reads(s.store, claim)
    requires update.Update? && claim.Claim? && Named(claim) == Named(update) && claimed.Rewritten? && Announces(claimed)
    requires between == ClaimedMeanwhile(s, update, claim, claimed)
    ensures between.store.rows == s.store.rows[Named(update) := claimed.row] && between.locks == map[]
    ensures between.txs.Keys == {1, 2}
    ensures 1 in between.txs && between.txs[1] == Tx(update, Holding(s.store.rows[Named(update)]), |s.log|)
    ensures between.log == s.log + [Entry(claim, Ok(claimed.reply))]
  {
  }

  /** An update that holds the row it read writes and commits, when no row is locked. */
  lemma UpdateCloses(namespace: string, s: System, t: Tx, id: string, updated: Effect) returns (end: System)
    requires 1 in s.txs && s.txs[1] == t && t.stage.Holding? && t.call.Update? && Named(t.call) == id
    requires Reads(s.store, t.call) && s.locks == map[]
    requires updated == RowEffect(namespace, t.stage.row, t.call) && updated.Rewritten? && Announces(updated)
    ensures Reaches(namespace, s, end)
    ensures end.store.rows == s.store.rows[id := updated.row]
    ensures end.log == s.log + [Entry(t.call, Ok(updated.reply))]
    ensures end.locks == map[] && end.txs.Keys == s.txs.Keys
  {
    CloseReaches(namespace, s, 1, t, updated);
    CommittedWrites(s, 1, t, updated);
    end := Committed(s, 1, t, updated);
  }

  /** The session is free and ready, and nothing is in the way of a new transaction. */
  predicate Claimable(s: System, id: string) {
    && s.locks == map[] && s.txs.Keys == {1, 2}
    && id in s.store.rows && PayloadOk(id, s.store.rows[id]) && Slot(s.store.rows[id]) == ""
    && DispatchReady(s.store.rows[id].payload.status.conditions)
  }

  lemma ClaimantsAfter(first: Entry, second: Entry, id: string)
    requires first.call.Claim? && first.reply.Ok? && Named(first.call) == id && second.call.Update?
    ensures Claimants([] + [first] + [second], id) == {TrimSpace(first.call.runID)}
    ensures Holder("", [] + [first] + [second], id) == TrimSpace(first.call.runID)
  {
    LogAppend("", [], first, id);
    LogAppend("", [] + [first], second, id);
    assert Claimants([], id) == {} && Holder("", [], id) == "";
  }

  lemma FreshClaimRewrites(namespace: string, row: Row, claim: Call, id: string)
    requires PayloadOk(id, row) && claim.Claim? && id == Named(claim) && Slot(row) == "" && TrimSpace(claim.runID) != ""
    requires DispatchReady(row.payload.status.conditions)
    ensures EarlyReply(claim).None?
    ensures var effect := RowEffect(namespace, row, claim);
            effect.Rewritten? && Announces(effect) && effect.reply.StateReply?
  {
    TrimSpaceTrims(id);
  }

  lemma ChangedSpecRewrites(namespace: string, row: Row, update: Call, id: string)
    requires PayloadOk(id, row) && update.Update? && id == Named(update)
    requires NormalizeSpec(id, update.session).Ok?
             && Some(NormalizeSpec(id, update.session).value) != row.payload.session
    ensures EarlyReply(update).None?
    ensures var effect := RowEffect(namespace, row, update);
            effect.Rewritten? && Announces(effect) && effect.reply.StateReply?
  {
    TrimSpaceTrims(id);
    NormalizedSpec(id, update.session);
  }

  /** An update of a free, ready session leaves it free and ready. */
  lemma PutBackRow(namespace: string, id: string, row: Row, update: Call)
    requires update.Update? && EarlyReply(update).None? && Named(update) == id && PayloadOk(id, row)
    requires Slot(row) == "" && DispatchReady(row.payload.status.conditions)
    ensures var effect := RowEffect(namespace, row, update);
            effect.Rewritten? ==>
              PayloadOk(id, effect.row) && Slot(effect.row) == "" && DispatchReady(effect.row.payload.status.conditions)
  {
    EffectOnSlot(namespace, id, row, update);
    OthersKeepConditions(namespace, row, update);
  }

  /**
   * The unlocked read of Update can lose a claim: the claim is committed and
   * answered, never released, and the slot is empty again.
   */
  lemma UpdateCanLoseClaim(namespace: string, store: Store, update: Call, claim: Call, id: string) returns (end: System)
    requires StoreInv(store) && id in store.rows && update.Update? && claim.Claim? && Named(update) == id
             && Named(claim) == id
    requires Slot(store.rows[id]) == "" && Ready(store, id) && TrimSpace(claim.runID) != ""
    requires NormalizeSpec(id, update.session).Ok?
             && Some(NormalizeSpec(id, update.session).value) != store.rows[id].payload.session
    ensures Reaches(namespace, Initial(store), end)
    ensures Claimable(end, id) && Claimants(end.log, id) == {TrimSpace(claim.runID)} && !FollowsLog(store, end)
  {
    var row := store.rows[id];
    var updated, claimed := RowEffect(namespace, row, update), RowEffect(namespace, row, claim);
    FreshClaimRewrites(namespace, row, claim, id);
    ChangedSpecRewrites(namespace, row, update, id);
    ClaimedMeanwhileReaches(namespace, Initial(store), update, claim, claimed);
    var between := ClaimedMeanwhile(Initial(store), update, claim, claimed);
    MeanwhileLeaves(Initial(store), between, update, claim, claimed);
    end := UpdateCloses(namespace, between, Tx(update, Holding(row), 0), id, updated);
    ReachesThrough(namespace, Initial(store), between, end);
    PutBackRow(namespace, id, row, update);
    ClaimantsAfter(Entry(claim, Ok(claimed.reply)), Entry(update, Ok(updated.reply)), id);
  }

  lemma ChangedSpecNormalizes(spec: Spec)
    requires spec.sessionID == "s" && spec.workspaceRef.Some? && spec.homeStateRef.Some?
    ensures NormalizeSpec("s", Some(spec)) == Ok(spec)
  {
    var id := "s";
    TrimSpaceTrims(id);
  }

  /** Such a store exists: a ready session and an update that changes its execution class. */
  lemma LostClaimExample(namespace: string, now: Timestamp)
    returns (store: Store, update: Call, claim: Call, end: System)
    ensures StoreInv(store) && "s" in store.rows && Slot(store.rows["s"]) == "" && Ready(store, "s")
    ensures claim.Claim? && update.Update? && Named(claim) == Named(update) == "s"
    ensures Reaches(namespace, Initial(store), end) && Claimable(end, "s")
    ensures Claimants(end.log, "s") == {"r"} && !FollowsLog(store, end)
  {
    var id, runID := "s", "r";
    var spec := Spec(id, "", "", None, None, Some("w"), Some("h"), 0, "", []);
    var changed := spec.(executionClass := "c");
    assert Trimmed(id);
    store := ValidReadySession(namespace, spec, id);
    update, claim := Update(id, Some(changed)), Claim(id, runID, now);
    TrimSpaceTrims(id);
    TrimSpaceTrims(runID);
    ChangedSpecNormalizes(changed);
    assert changed.executionClass != spec.executionClass;
    end := UpdateCanLoseClaim(namespace, store, update, claim, id);
  }
}
