/**
 * Overlapping session transactions. ClaimActiveRun and ReleaseActiveRun read
 * their row under a row lock; Update and UpdateStatus read it without one and
 * lock it only when they write. A run interleaves reads, writes, commits and
 * rollbacks of any number of transactions in any order.
 */
module SessionLocks {
  import opened Text
  import opened SessionTypes
  import opened SessionResource
  import opened SessionStore
  import opened SessionRuns
  import opened SessionReadiness

  type TxId = nat

  /** Waiting to read; holding the row it read; done writing; or over. */
  datatype Stage = Waiting | Holding(row: Row) | Wrote(effect: Effect) | Over

  /** `readAt` is how many calls had committed when it read its row. */
  datatype Tx = Tx(call: Call, stage: Stage, readAt: nat)

  /** A committed call and its answer. */
  datatype Entry = Entry(call: Call, reply: Outcome<Reply>)

  /** `log` records the commits in their order. */
  datatype System = System(store: Store, txs: map<TxId, Tx>, locks: map<string, TxId>, log: seq<Entry>)

  datatype Step =
    | Begin(tx: TxId, call: Call)
    | ReadRow(tx: TxId)
    | WriteRow(tx: TxId)
    | CommitTx(tx: TxId)
    | Rollback(tx: TxId)

  predicate LocksOnRead(call: Call) { call.Claim? || call.Release? }

  /** Calls that get as far as reading an existing row. */
  predicate Reads(store: Store, call: Call) { !call.Create? && EarlyReply(call).None? && Named(call) in store.rows }

  predicate Enabled(namespace: string, s: System, step: Step) {
    match step
    case Begin(tx, call) => tx !in s.txs && Reads(s.store, call)
    case ReadRow(tx) =>
      tx in s.txs && s.txs[tx].stage.Waiting? && Reads(s.store, s.txs[tx].call)
      && (LocksOnRead(s.txs[tx].call) ==> Named(s.txs[tx].call) !in s.locks)
    case WriteRow(tx) =>
      tx in s.txs && s.txs[tx].stage.Holding? && Reads(s.store, s.txs[tx].call)
      && (RowEffect(namespace, s.txs[tx].stage.row, s.txs[tx].call).Rewritten? && !LocksOnRead(s.txs[tx].call) ==>
            Named(s.txs[tx].call) !in s.locks)
    case CommitTx(tx) =>
      tx in s.txs && s.txs[tx].stage.Wrote? && !s.txs[tx].stage.effect.Refused? && Announces(s.txs[tx].stage.effect)
      && !s.txs[tx].call.Create?
    case Rollback(tx) => tx in s.txs && !s.txs[tx].stage.Over?
  }

  function Unlocked(locks: map<string, TxId>, tx: TxId): map<string, TxId> {
    map id | id in locks && locks[id] != tx :: locks[id]
  }

  function Next(namespace: string, s: System, step: Step): System
    requires Enabled(namespace, s, step)
  {
    match step
    case Begin(tx, call) => s.(txs := s.txs[tx := Tx(call, Waiting, 0)])
    case ReadRow(tx) =>
      var t := s.txs[tx];
      var id := Named(t.call);
      s.(txs := s.txs[tx := t.(stage := Holding(s.store.rows[id]), readAt := |s.log|)],
         locks := if LocksOnRead(t.call) then s.locks[id := tx] else s.locks)
    case WriteRow(tx) =>
      var t := s.txs[tx];
      var effect := RowEffect(namespace, t.stage.row, t.call);
      s.(txs := s.txs[tx := t.(stage := Wrote(effect))],
         locks := if effect.Rewritten? then s.locks[Named(t.call) := tx] else s.locks)
    case CommitTx(tx) =>
      var t := s.txs[tx];
      var done := Commit(s.store, Named(t.call), t.stage.effect);
      System(done.store, s.txs[tx := t.(stage := Over)], Unlocked(s.locks, tx), s.log + [Entry(t.call, done.reply)])
    case Rollback(tx) => s.(txs := s.txs[tx := s.txs[tx].(stage := Over)], locks := Unlocked(s.locks, tx))
  }

  predicate IsRun(namespace: string, s: System, steps: seq<Step>)
    decreases |steps|
  {
    steps == [] || (Enabled(namespace, s, steps[0]) && IsRun(namespace, Next(namespace, s, steps[0]), steps[1..]))
  }

  function After(namespace: string, s: System, steps: seq<Step>): System
    requires IsRun(namespace, s, steps)
    decreases |steps|
  {
    if steps == [] then s else After(namespace, Next(namespace, s, steps[0]), steps[1..])
  }

  function Initial(store: Store): System { System(store, map[], map[], []) }

  // ---------------------------------------------------------------- the lock invariant

  predicate HoldsLock(locks: map<string, TxId>, tx: TxId, call: Call)
    requires !call.Create?
  {
    Named(call) in locks && locks[Named(call)] == tx
  }

  /** Whoever read under the lock still has it, and what was read under it is still what is committed. */
  predicate TxInv(namespace: string, store: Store, locks: map<string, TxId>, tx: TxId, t: Tx) {
    && Reads(store, t.call)
    && (t.stage.Holding? && LocksOnRead(t.call) ==>
        HoldsLock(locks, tx, t.call) && t.stage.row == store.rows[Named(t.call)])
    && (t.stage.Wrote? && t.stage.effect.Rewritten? ==> HoldsLock(locks, tx, t.call))
    && (t.stage.Wrote? && LocksOnRead(t.call) ==>
          HoldsLock(locks, tx, t.call) && t.stage.effect == RowEffect(namespace, store.rows[Named(t.call)], t.call))
  }

  ghost predicate Inv(namespace: string, s: System) {
    forall tx <- s.txs :: TxInv(namespace, s.store, s.locks, tx, s.txs[tx])
  }

  lemma CommitTouchesOwnRow(store: Store, id: string, effect: Effect)
    requires Announces(effect)
    ensures var after := Commit(store, id, effect).store;
            && store.rows.Keys <= after.rows.Keys
            && (forall other <- store.rows :: other != id || !effect.Rewritten? ==>
                after.rows[other] == store.rows[other])
  {
  }

  /** A transaction is not disturbed by another one's step. */
  lemma OthersKeepTx(namespace: string, s: System, step: Step, next: System, tx: TxId)
    requires Enabled(namespace, s, step) && next == Next(namespace, s, step) && tx in s.txs && tx != step.tx
    requires TxInv(namespace, s.store, s.locks, tx, s.txs[tx])
    requires step.tx in s.txs ==> TxInv(namespace, s.store, s.locks, step.tx, s.txs[step.tx])
    ensures tx in next.txs && TxInv(namespace, next.store, next.locks, tx, next.txs[tx])
  {
    if step.CommitTx? {
      CommitTouchesOwnRow(s.store, Named(s.txs[step.tx].call), s.txs[step.tx].stage.effect);
    }
  }

  lemma OwnStepKeepsTx(namespace: string, s: System, step: Step, next: System)
    requires Enabled(namespace, s, step) && next == Next(namespace, s, step)
    requires step.tx in s.txs ==> TxInv(namespace, s.store, s.locks, step.tx, s.txs[step.tx])
    ensures step.tx in next.txs && TxInv(namespace, next.store, next.locks, step.tx, next.txs[step.tx])
  {
    if step.CommitTx? {
      CommitTouchesOwnRow(s.store, Named(s.txs[step.tx].call), s.txs[step.tx].stage.effect);
    }
  }

  lemma StepKeepsInv(namespace: string, s: System, step: Step, next: System)
    requires Inv(namespace, s) && Enabled(namespace, s, step) && next == Next(namespace, s, step)
    ensures Inv(namespace, next)
  {
    forall tx <- next.txs ensures TxInv(namespace, next.store, next.locks, tx, next.txs[tx]) {
      if tx == step.tx {
        OwnStepKeepsTx(namespace, s, step, next);
      } else {
        OthersKeepTx(namespace, s, step, next, tx);
      }
    }
  }

  // ---------------------------------------------------------------- commits are atomic calls

  /** A claim or release commits exactly what the call would have done on its own, at the moment of its commit. */
  lemma LockedCommitIsAtomic(namespace: string, s: System, step: Step)
    requires Inv(namespace, s) && Enabled(namespace, s, step) && step.CommitTx? && LocksOnRead(s.txs[step.tx].call)
    ensures var next := Next(namespace, s, step);
            var done := Execute(namespace, s.store, s.txs[step.tx].call);
            next.store == done.store && next.log == s.log + [Entry(s.txs[step.tx].call, done.reply)]
  {
    assert TxInv(namespace, s.store, s.locks, step.tx, s.txs[step.tx]);
    RowEffectAnnounces(namespace, s.store.rows[Named(s.txs[step.tx].call)], s.txs[step.tx].call);
  }

  lemma OtherStepsKeepStore(namespace: string, s: System, step: Step)
    requires Enabled(namespace, s, step) && !step.CommitTx?
    ensures Next(namespace, s, step).store == s.store && Next(namespace, s, step).log == s.log
  {
  }

  function Calls(log: seq<Entry>): (calls: seq<Call>)
    ensures |calls| == |log|
  {
    seq(|log|, i requires 0 <= i < |log| => log[i].call)
  }

  ghost predicate LocksAll(s: System) { forall tx <- s.txs :: LocksOnRead(s.txs[tx].call) }

  predicate BeginsLocked(steps: seq<Step>) { forall step <- steps :: step.Begin? ==> LocksOnRead(step.call) }

  /** The committed store is always what the committed calls give one after the other. */
  ghost predicate Serial(namespace: string, first: Store, s: System) {
    Inv(namespace, s) && LocksAll(s) && s.store == ExecuteAll(namespace, first, Calls(s.log))
  }

  lemma CallsAppend(log: seq<Entry>, entry: Entry)
    ensures Calls(log + [entry]) == Calls(log) + [entry.call]
  {
  }

  lemma ExecuteAllAppend(namespace: string, first: Store, calls: seq<Call>, call: Call)
    ensures ExecuteAll(namespace, first, calls + [call])
            == Execute(namespace, ExecuteAll(namespace, first, calls), call).store
  {
    assert (calls + [call])[..|calls|] == calls;
  }

  lemma CommitKeepsSerial(namespace: string, first: Store, s: System, step: Step, next: System)
    requires Inv(namespace, s) && s.store == ExecuteAll(namespace, first, Calls(s.log))
    requires Enabled(namespace, s, step) && step.CommitTx? && LocksOnRead(s.txs[step.tx].call)
             && next == Next(namespace, s, step)
    ensures next.store == ExecuteAll(namespace, first, Calls(next.log))
  {
    var call := s.txs[step.tx].call;
    LockedCommitIsAtomic(namespace, s, step);
    CallsAppend(s.log, Entry(call, Execute(namespace, s.store, call).reply));
    ExecuteAllAppend(namespace, first, Calls(s.log), call);
  }

  lemma StepKeepsLocksAll(namespace: string, s: System, step: Step, next: System)
    requires LocksAll(s) && Enabled(namespace, s, step) && next == Next(namespace, s, step)
             && (step.Begin? ==> LocksOnRead(step.call))
    ensures LocksAll(next)
  {
  }

  lemma StepKeepsSerial(namespace: string, first: Store, s: System, step: Step, next: System)
    requires Serial(namespace, first, s) && Enabled(namespace, s, step) && next == Next(namespace, s, step)
    requires step.Begin? ==> LocksOnRead(step.call)
    ensures Serial(namespace, first, next)
  {
    StepKeepsInv(namespace, s, step, next);
    StepKeepsLocksAll(namespace, s, step, next);
    if step.CommitTx? {
      CommitKeepsSerial(namespace, first, s, step, next);
    } else {
      OtherStepsKeepStore(namespace, s, step);
    }
  }

  lemma {:induction false} RunKeepsSerial(namespace: string, first: Store, s: System, steps: seq<Step>)
    requires Serial(namespace, first, s) && IsRun(namespace, s, steps) && BeginsLocked(steps)
    ensures Serial(namespace, first, After(namespace, s, steps))
    decreases |steps|
  {
    if steps != [] {
      var next := Next(namespace, s, steps[0]);
      StepKeepsSerial(namespace, first, s, steps[0], next);
      RunKeepsSerial(namespace, first, next, steps[1..]);
    }
  }

  lemma InitialIsSerial(namespace: string, store: Store)
    ensures Serial(namespace, store, Initial(store))
  {
  }

  /**
   * Any interleaving of claims and releases is serializable: the rows and the
   * outbox it commits are those of the committed calls run one at a time, in
   * the order of their commits.
   */
  lemma ClaimsAreSerializable(namespace: string, store: Store, steps: seq<Step>)
    requires IsRun(namespace, Initial(store), steps) && BeginsLocked(steps)
    ensures var end := After(namespace, Initial(store), steps);
            end.store == ExecuteAll(namespace, store, Calls(end.log))
  {
    InitialIsSerial(namespace, store);
    RunKeepsSerial(namespace, store, Initial(store), steps);
  }
}
