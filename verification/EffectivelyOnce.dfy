/**
 Effectively-once delivery: whatever crashes, stops and ack failures end the sessions of the
 consumer, the destination finally holds what one pass over the stream would have left, each
 message rendered as the session that acked it rendered it.
 */
module EffectivelyOnce {
  import opened Wrappers
  import opened MySql
  import opened Consumer

  function SqlFor(ms: seq<Msg>): (ss: seq<Stmt>)
    ensures SqlOf(ss, ms)
  {
    seq(|ms|, i requires 0 <= i < |ms| => ms[i].stmt)
  }

  // ---------- One session ----------

  /** Everything the queue offers over the given turns, first in first out. */
  function Queue(rounds: seq<Round>): seq<Item> {
    if rounds == [] then []
    else
      var r := rounds[|rounds| - 1];
      Queue(rounds[..|rounds| - 1]) + (r.drained + if r.waited.Some? then [r.waited.value] else [])
  }

  /** `r` has dequeued the first entries of `offered`, all of them while it runs. */
  ghost predicate InOrder(r: Run, offered: seq<Item>) {
    r.dequeued <= offered && (r.out.Continue? ==> r.dequeued == offered)
  }

  lemma {:induction false} ItemsInOrder(lim: Limits, r: Run, offered: seq<Item>, items: seq<Item>)
    requires InOrder(r, offered)
    ensures InOrder(AfterItems(lim, r, items), offered + items)
  {
    if items == [] {
      assert offered + items == offered;
    } else {
      var front := items[..|items| - 1];
      ItemsInOrder(lim, r, offered, front);
      assert offered + items == (offered + front) + [items[|items| - 1]];
    }
  }

  lemma {:induction false} RoundsInOrder(lim: Limits, r: Run, rounds: seq<Round>)
    requires r.out.Continue? && r.dequeued == []
    ensures InOrder(AfterRounds(lim, r, rounds), Queue(rounds))
  {
    if rounds == [] {
    } else {
      var front, round := rounds[..|rounds| - 1], rounds[|rounds| - 1];
      RoundsInOrder(lim, r, front);
      var r0 := AfterRounds(lim, r, front);
      ItemsInOrder(lim, r0, Queue(front), round.drained);
      var r1 := AfterTick(lim, AfterItems(lim, r0, round.drained), round);
      if round.waited.Some? {
        assert Queue(rounds) == (Queue(front) + round.drained) + [round.waited.value];
      } else {
        assert Queue(rounds) == Queue(front) + round.drained;
      }
    }
  }

  lemma {:induction false} MessagesOfPrefix(items: seq<Item>, n: nat)
    requires n <= |items|
    ensures Messages(items[..n]) <= Messages(items)
    decreases |items| - n
  {
    if n == |items| {
      assert items[..n] == items;
    } else {
      assert items[..n + 1][..n] == items[..n];
      MessagesOfPrefix(items, n + 1);
    }
  }

  lemma {:induction false} KeptOfPrefix(ds: seq<Delivery>, n: nat)
    requires n <= |ds|
    ensures Kept(ds[..n]) <= Kept(ds)
    decreases |ds| - n
  {
    if n == |ds| {
      assert ds[..n] == ds;
    } else {
      assert ds[..n + 1][..n] == ds[..n];
      KeptOfPrefix(ds, n + 1);
    }
  }

  lemma DequeuedAreInOrder(dequeued: seq<Item>, queue: seq<Item>)
    requires dequeued <= queue
    ensures Kept(Messages(dequeued)) <= Kept(Messages(queue))
  {
    MessagesOfPrefix(queue, |dequeued|);
    assert queue[..|dequeued|] == dequeued;
    KeptOfPrefix(Messages(queue), |Messages(dequeued)|);
    assert Messages(queue)[..|Messages(dequeued)|] == Messages(dequeued);
  }

  /** One process lifetime: its configuration, the last sequence the server delivered, and what the loop sees. */
  datatype Session = Session(
    maxAckPending: int, driverMax: int, minLatency: real, maxLatency: real, migrates: bool, sequence: int, rounds: seq<Round>)

  function LimitsOf(s: Session): Limits {
    Limits(BatchMax(s.maxAckPending, s.driverMax), s.minLatency, s.maxLatency, s.migrates)
  }

  /** The run a session makes. */
  function RunOf(s: Session): Run {
    AfterRounds(LimitsOf(s), FreshRun(s.sequence), s.rounds)
  }

  /** JetStream's side of the bargain: a restart offers the unacked messages again, in stream order. */
  ghost predicate RedeliversUnacked(s: Session, rendering: seq<Msg>, acked: nat) {
    acked <= |rendering| && Kept(Messages(Queue(s.rounds))) <= rendering[acked..]
  }

  /** A session executes exactly the SQL of the next stretch of the stream, and acks no more than it executed. */
  lemma SessionExecutesAStretch(s: Session, rendering: seq<Msg>, acked: nat)
    requires RedeliversUnacked(s, rendering, acked)
    ensures var v := RunOf(s).v;
            && |v.acked| <= |v.committed| <= |rendering| - acked
            && SqlOf(v.committed, rendering[acked..acked + |v.committed|])
    ensures RunOf(s).out.Continue? ==> |RunOf(s).v.acked| == |RunOf(s).v.committed|
  {
    var r := RunOf(s);
    RunIsSound(LimitsOf(s), s.sequence, s.rounds);
    RoundsInOrder(LimitsOf(s), FreshRun(s.sequence), s.rounds);
    DequeuedAreInOrder(r.dequeued, Queue(s.rounds));
    if r.out.Continue? {
      ValidIsDurable(s.sequence, r.v);
    }
    StretchOfStream(r.v.committed, r.v.processed, Kept(Messages(r.dequeued)), Kept(Messages(Queue(s.rounds))), rendering, acked);
  }

  /** SQL of a prefix of a prefix of what the stream still owes is the SQL of a stretch of the stream. */
  lemma StretchOfStream(executed: seq<Stmt>, processed: seq<Msg>, kept: seq<Msg>, offered: seq<Msg>, stream: seq<Msg>, acked: nat)
    requires acked <= |stream| && offered <= stream[acked..] && kept <= offered && processed <= kept
    requires |executed| <= |processed| && SqlOf(executed, processed[..|executed|])
    ensures acked + |executed| <= |stream| && SqlOf(executed, stream[acked..acked + |executed|])
  {
    var n := |executed|;
    assert processed <= stream[acked..];
    assert processed[..n] == stream[acked..][..n] == stream[acked..acked + n];
  }

  /** A fresh driver, processor and loop over what the stream redelivers make the session's run. */
  method RunSession(s: Session) returns (out: Outcome, executed: seq<Stmt>, acks: nat)
    ensures out == RunOf(s).out && executed == RunOf(s).v.committed && acks == |RunOf(s).v.acked|
  {
    var driver := new SqlDriver();
    var processor := new BatchProcessor(driver, LimitsOf(s), s.sequence);
    var bufferer := new Bufferer(processor);
    out := bufferer.Loop(s.rounds);
    executed := driver.committed;
    acks := |processor.acked|;
  }

  /** The same, in terms of what the session was offered. */
  method RunRedelivery(s: Session, ghost rendering: seq<Msg>, ghost acked: nat) returns (executed: seq<Stmt>, acks: nat)
    requires RedeliversUnacked(s, rendering, acked)
    ensures acks <= |executed| <= |rendering| - acked && SqlOf(executed, rendering[acked..acked + |executed|])
    ensures acks == |RunOf(s).v.acked|
  {
    var out;
    out, executed, acks := RunSession(s);
    SessionExecutesAStretch(s, rendering, acked);
  }

  // ---------- Any number of sessions ----------

  /** Statement by statement, the same rows are named. */
  ghost predicate NamesAlike(r: seq<Stmt>, s: seq<Stmt>) {
    |r| == |s| && forall i :: 0 <= i < |r| ==> Target(r[i]) == Target(s[i])
  }

  lemma {:induction false} AlikeNamesTheSame(r: seq<Stmt>, s: seq<Stmt>, k: (string, PrimaryKey))
    requires NamesAlike(r, s)
    ensures LastFor(r, k).Some? <==> LastFor(s, k).Some?
  {
    if r == [] {
    } else {
      AlikeNamesTheSame(r[..|r| - 1], s[..|s| - 1], k);
    }
  }

  /** Some rendering of the stretch of the stream that starts at `from`: each statement names the same row. */
  ghost predicate Renders(tail: seq<Stmt>, stream: seq<Stmt>, from: nat) {
    from + |tail| <= |stream| && forall i :: 0 <= i < |tail| ==> Target(tail[i]) == Target(stream[from + i])
  }

  /**
   What is true of the destination after any number of sessions that acked the first messages, rendered
   as in `once`, and never executed past the first `seen`: replaying the unacked messages up to any
   point at or past `seen`, in any rendering, gives what one pass gives. The destination itself may
   be behind: a session that dies while redelivering leaves older rows for a while.
   */
  ghost predicate Recoverable(db: Database, db0: Database, stream: seq<Stmt>, once: seq<Stmt>, seen: nat) {
    && |once| <= seen <= |stream|
    && forall tail :: Renders(tail, stream, |once|) && |once| + |tail| >= seen ==> ReplayAgrees(db, db0, once, tail)
  }

  ghost predicate ReplayAgrees(db: Database, db0: Database, once: seq<Stmt>, tail: seq<Stmt>) {
    ExecAll(db, tail) == ExecAll(db0, once + tail)
  }

  function Max(a: int, b: int): int {
    if a < b then b else a
  }

  /** One session: it executes a stretch from the first unacked message and acks part of what it executed. */
  lemma SessionKeepsRecoverable(db: Database, db0: Database, stream: seq<Stmt>, once: seq<Stmt>, seen: nat, executed: seq<Stmt>, acks: nat)
    requires Recoverable(db, db0, stream, once, seen) && Renders(executed, stream, |once|) && acks <= |executed|
    ensures Recoverable(ExecAll(db, executed), db0, stream, once + executed[..acks], Max(seen, |once| + |executed|))
  {
    var once' := once + executed[..acks];
    forall tail | Renders(tail, stream, |once'|) && |once'| + |tail| >= Max(seen, |once| + |executed|)
      ensures ReplayAgrees(ExecAll(db, executed), db0, once', tail)
    {
      TailReplays(db, db0, stream, once, seen, executed, acks, tail);
    }
  }

  lemma TailReplays(db: Database, db0: Database, stream: seq<Stmt>, once: seq<Stmt>, seen: nat, executed: seq<Stmt>, acks: nat, tail: seq<Stmt>)
    requires Recoverable(db, db0, stream, once, seen) && Renders(executed, stream, |once|) && acks <= |executed|
    requires Renders(tail, stream, |once| + acks) && |once| + acks + |tail| >= Max(seen, |once| + |executed|)
    ensures ReplayAgrees(ExecAll(db, executed), db0, once + executed[..acks], tail)
  {
    RenderingsJoin(executed, acks, tail, stream, |once|);
    ReplayOf(db, db0, stream, once, seen, executed[..acks] + tail);
    SessionReplays(db, db0, once, executed, acks, tail);
  }

  lemma ReplayOf(db: Database, db0: Database, stream: seq<Stmt>, once: seq<Stmt>, seen: nat, tail: seq<Stmt>)
    requires Recoverable(db, db0, stream, once, seen) && Renders(tail, stream, |once|) && |once| + |tail| >= seen
    ensures ReplayAgrees(db, db0, once, tail)
  {
  }

  lemma RenderingsJoin(executed: seq<Stmt>, acks: nat, tail: seq<Stmt>, stream: seq<Stmt>, from: nat)
    requires Renders(executed, stream, from) && acks <= |executed| && Renders(tail, stream, from + acks)
    ensures Renders(executed[..acks] + tail, stream, from)
    ensures |executed| - acks <= |tail| ==> NamesAlike(executed[acks..], tail[..|executed| - acks])
  {
  }

  lemma SessionReplays(db: Database, db0: Database, once: seq<Stmt>, executed: seq<Stmt>, acks: nat, tail: seq<Stmt>)
    requires acks <= |executed| && |executed| - acks <= |tail|
    requires NamesAlike(executed[acks..], tail[..|executed| - acks])
    requires ReplayAgrees(db, db0, once, executed[..acks] + tail)
    ensures ReplayAgrees(ExecAll(db, executed), db0, once + executed[..acks], tail)
  {
    assert executed == executed[..acks] + executed[acks..];
    RedoneCovers(executed[acks..], tail);
    PartlyAcked(db, db0, once, executed[..acks], executed[acks..], tail);
  }

  /** A stretch of which a part was acked, and what is redelivered. */
  lemma PartlyAcked(db: Database, db0: Database, once: seq<Stmt>, ackedPart: seq<Stmt>, unacked: seq<Stmt>, redelivered: seq<Stmt>)
    requires Covers(redelivered, unacked)
    requires ExecAll(db, ackedPart + redelivered) == ExecAll(db0, once + (ackedPart + redelivered))
    ensures ExecAll(ExecAll(db, ackedPart + unacked), redelivered) == ExecAll(db0, (once + ackedPart) + redelivered)
  {
    OverlapIsAbsorbed(db, ackedPart, unacked, redelivered);
    assert once + (ackedPart + redelivered) == (once + ackedPart) + redelivered;
  }

  /** What was executed past the acks is named again when it is redelivered. */
  lemma RedoneCovers(unacked: seq<Stmt>, redelivered: seq<Stmt>)
    requires |unacked| <= |redelivered| && NamesAlike(unacked, redelivered[..|unacked|])
    ensures Covers(redelivered, unacked)
  {
    var n := |unacked|;
    forall k | LastFor(unacked, k).Some?
      ensures LastFor(redelivered, k).Some?
    {
      AlikeNamesTheSame(unacked, redelivered[..n], k);
      assert redelivered == redelivered[..n] + redelivered[n..];
      LastForAppend(redelivered[..n], redelivered[n..], k);
    }
  }

  lemma BeforeTheFirstSession(db0: Database, stream: seq<Stmt>)
    ensures Recoverable(db0, db0, stream, [], 0)
  {
    forall tail | Renders(tail, stream, 0)
      ensures ReplayAgrees(db0, db0, [], tail)
    {
      assert [] + tail == tail;
    }
  }

  /** Once everything is acked there is nothing left to replay: the destination is the one-pass destination. */
  lemma AllAckedIsOnePass(db: Database, db0: Database, stream: seq<Stmt>, once: seq<Stmt>, seen: nat)
    requires Recoverable(db, db0, stream, once, seen) && |once| == |stream|
    ensures db == ExecAll(db0, once)
  {
    assert Renders([], stream, |once|);
    assert ReplayAgrees(db, db0, once, []);
    assert once + [] == once;
  }

  /** The number of messages acked by the first `n` sessions. */
  function AckedAfter(script: (nat, nat) -> Session, n: nat): nat {
    if n == 0 then 0
    else
      var acked := AckedAfter(script, n - 1);
      acked + |RunOf(script(n - 1, acked)).v.acked|
  }

  /** `once` gives each acked message as the session that acked it rendered it. */
  ghost predicate AsAcked(once: seq<Stmt>, script: (nat, nat) -> Session, renderings: nat -> seq<Msg>, sessions: nat) {
    && |once| == AckedAfter(script, sessions)
    && forall n: nat, i: nat :: n < sessions && AckedIn(script, n, i) ==> i < |once| && RendersAs(renderings(n), i, once[i])
  }

  /** Session `n` acked message `i`. */
  predicate AckedIn(script: (nat, nat) -> Session, n: nat, i: nat) {
    AckedAfter(script, n) <= i < AckedAfter(script, n + 1)
  }

  ghost predicate RendersAs(rendering: seq<Msg>, i: nat, s: Stmt) {
    i < |rendering| && rendering[i].stmt == s
  }

  lemma ExtendsAsAcked(once: seq<Stmt>, script: (nat, nat) -> Session, renderings: nat -> seq<Msg>, n: nat, executed: seq<Stmt>, acks: nat)
    requires AsAcked(once, script, renderings, n) && acks <= |executed| && |once| + |executed| <= |renderings(n)|
    requires acks == |RunOf(script(n, |once|)).v.acked|
    requires SqlOf(executed, renderings(n)[|once|..|once| + |executed|])
    ensures AsAcked(once + executed[..acks], script, renderings, n + 1)
  {
    var once' := once + executed[..acks];
    assert |once'| == AckedAfter(script, n + 1);
    forall m: nat, i: nat | m <= n && AckedIn(script, m, i)
      ensures i < |once'| && RendersAs(renderings(m), i, once'[i])
    {
      if m < n {
        assert RendersAs(renderings(m), i, once[i]);
      }
    }
  }

  /** Every session renders the same stream, and is offered what is not acked yet. */
  ghost predicate FairSessions(script: (nat, nat) -> Session, renderings: nat -> seq<Msg>, stream: seq<Stmt>) {
    && (forall n :: NamesAlike(SqlFor(renderings(n)), stream))
    && (forall n: nat, a: nat :: a <= |stream| ==> RedeliversUnacked(script(n, a), renderings(n), a))
  }

  /**
   Any number of sessions, each ended by anything at all. `script(n, acked)` is what session `n` sees
   when the first `acked` kept messages are acked, and `renderings(n)` the stream as the versions
   recorded in session `n` render it. When everything is acked, the destination is one pass over the
   stream, each message rendered as the session that acked it rendered it.
   */
  method RunSessions(sessions: nat, script: (nat, nat) -> Session, db0: Database, ghost renderings: nat -> seq<Msg>, ghost stream: seq<Stmt>)
      returns (db: Database, acked: nat, ghost once: seq<Stmt>)
    requires FairSessions(script, renderings, stream)
    ensures acked == |once| <= |stream| && AsAcked(once, script, renderings, sessions)
    ensures acked == |stream| ==> db == ExecAll(db0, once)
  {
    db, acked, once := db0, 0, [];
    ghost var seen: nat := 0;
    BeforeTheFirstSession(db0, stream);
    for n := 0 to sessions
      invariant acked == |once| && Recoverable(db, db0, stream, once, seen) && AsAcked(once, script, renderings, n)
    {
      db, acked, once, seen := NextSession(script, db, db0, acked, renderings, n, stream, once, seen);
    }
    if acked == |stream| {
      AllAckedIsOnePass(db, db0, stream, once, seen);
    }
  }

  /** One more session. */
  method NextSession(script: (nat, nat) -> Session, db: Database, ghost db0: Database, acked: nat, ghost renderings: nat -> seq<Msg>, n: nat,
                     ghost stream: seq<Stmt>, ghost once: seq<Stmt>, ghost seen: nat)
      returns (db': Database, acked': nat, ghost once': seq<Stmt>, ghost seen': nat)
    requires acked == |once| && Recoverable(db, db0, stream, once, seen) && AsAcked(once, script, renderings, n)
    requires NamesAlike(SqlFor(renderings(n)), stream) && RedeliversUnacked(script(n, acked), renderings(n), acked)
    ensures acked' == |once'| && Recoverable(db', db0, stream, once', seen') && AsAcked(once', script, renderings, n + 1)
  {
    var executed, acks := RunRedelivery(script(n, acked), renderings(n), acked);
    SessionStep(db, db0, stream, once, seen, script, renderings, n, executed, acks);
    once', seen' := once + executed[..acks], Max(seen, acked + |executed|);
    db', acked' := ExecAll(db, executed), acked + acks;
  }

  lemma SessionStep(db: Database, db0: Database, stream: seq<Stmt>, once: seq<Stmt>, seen: nat, script: (nat, nat) -> Session,
                    renderings: nat -> seq<Msg>, n: nat, executed: seq<Stmt>, acks: nat)
    requires Recoverable(db, db0, stream, once, seen) && AsAcked(once, script, renderings, n) && NamesAlike(SqlFor(renderings(n)), stream)
    requires acks <= |executed| <= |renderings(n)| - |once| && SqlOf(executed, renderings(n)[|once|..|once| + |executed|])
    requires acks == |RunOf(script(n, |once|)).v.acked|
    ensures Recoverable(ExecAll(db, executed), db0, stream, once + executed[..acks], Max(seen, |once| + |executed|))
    ensures AsAcked(once + executed[..acks], script, renderings, n + 1)
  {
    StretchRenders(executed, renderings(n), stream, |once|);
    SessionKeepsRecoverable(db, db0, stream, once, seen, executed, acks);
    ExtendsAsAcked(once, script, renderings, n, executed, acks);
  }

  lemma StretchRenders(executed: seq<Stmt>, rendering: seq<Msg>, stream: seq<Stmt>, acked: nat)
    requires NamesAlike(SqlFor(rendering), stream) && acked + |executed| <= |rendering|
    requires SqlOf(executed, rendering[acked..acked + |executed|])
    ensures Renders(executed, stream, acked)
  {
  }

  // ---------- Going back in time ----------

  /** A delivery that nothing disturbs, except for what its flush is told. */
  function Plainly(m: Msg, consumerSeq: int, flush: FlushReplies): Delivery {
    Delivery(m, Some(consumerSeq), true, 0, true, true, false, NoCutoff, NoValidator, Unneeded, true, true, 0, 0.0, 0.0, 0.0, flush)
  }

  /** The messages one after another, a process that dies after its commit. */
  function DyingItem(m: Msg, consumerSeq: int): Item {
    Message(Plainly(m, consumerSeq, FlushReplies(DiedAfterCommit, [])))
  }

  function DyingRound(ms: seq<Msg>): (r: Round)
    ensures Offers(r.drained, ms) && forall i :: 0 <= i < |ms| ==> r.drained[i] == DyingItem(ms[i], i + 1)
    ensures r.waited.None?
  {
    Round(seq(|ms|, i requires 0 <= i < |ms| => DyingItem(ms[i], i + 1)), false, 0.0, FlushReplies(Committed, []), None)
  }

  /** A session in which a full batch is committed and the process dies before it acks anything. */
  function DyingSession(ms: seq<Msg>): Session {
    Session(|ms|, 0, 0.0, 1.0, false, 0, [DyingRound(ms)])
  }

  /** The state after the first `n` messages of that session, while the batch is not full. */
  function Filling(ms: seq<Msg>, n: nat): View
    requires n <= |ms|
  {
    View(ms[..n], if n == 0 then None else Some(0.0), n, 0, SqlFor(ms[..n]), [], n, seq(n, i => i + 1), ms[..n], [], {})
  }

  lemma FillingGrows(ms: seq<Msg>, n: nat)
    requires n < |ms|
    ensures ms[..n] + [ms[n]] == ms[..n + 1]
    ensures SqlFor(ms[..n]) + [ms[n].stmt] == SqlFor(ms[..n + 1])
    ensures seq(n, i => i + 1) + [n + 1] == seq(n + 1, i => i + 1)
    ensures n + 1 == |ms| ==> ms[..n + 1] == ms
  {
  }

  /** Such a delivery is accepted, kept and buffered; whether it is flushed is the size of the batch alone. */
  lemma PlainlyBuffered(lim: Limits, v: View, m: Msg, flush: FlushReplies)
    requires !lim.supportsMigration && lim.maxPendingLatency == 1.0 && (v.started.Some? ==> v.started.value == 0.0)
    ensures var b := v.(handed := v.handed + 1, pending := v.pending + [m], sequence := v.sequence + 1,
                        accepted := v.accepted + [v.sequence + 1], buffer := v.buffer + [m.stmt], processed := v.processed + [m]);
            Processed(lim, v, Plainly(m, v.sequence + 1, flush)) ==
            if |v.pending| + 1 >= lim.max then Flushed(b, flush) else (b.(started := Some(0.0)), Continue)
  {
  }

  lemma FillsOneMore(ms: seq<Msg>, n: nat)
    requires n < |ms|
    ensures var lim := LimitsOf(DyingSession(ms));
            var (v', out) := Processed(lim, Filling(ms, n), Plainly(ms[n], n + 1, FlushReplies(DiedAfterCommit, [])));
            if n + 1 < |ms| then v' == Filling(ms, n + 1) && out.Continue?
            else out.Died? && v'.committed == SqlFor(ms) && v'.acked == []
  {
    FillingGrows(ms, n);
    PlainlyBuffered(LimitsOf(DyingSession(ms)), Filling(ms, n), ms[n], FlushReplies(DiedAfterCommit, []));
    assert [] + SqlFor(ms) == SqlFor(ms);
  }

  lemma {:induction false} FillsUp(ms: seq<Msg>, items: seq<Item>, n: nat)
    requires n < |ms| && items == DyingRound(ms).drained
    ensures AfterItems(LimitsOf(DyingSession(ms)), FreshRun(0), items[..n]) == Run(Filling(ms, n), Continue, items[..n])
  {
    var lim := LimitsOf(DyingSession(ms));
    if n == 0 {
      assert Filling(ms, 0) == Fresh(0) by {
        assert ms[..0] == [] && SqlFor([]) == [] && seq(0, i => i + 1) == [];
      }
    } else {
      FillsUp(ms, items, n - 1);
      FillsOneMore(ms, n - 1);
      assert items[..n][..n - 1] == items[..n - 1] && items[..n - 1] + [items[n - 1]] == items[..n];
    }
  }

  lemma DyingItems(ms: seq<Msg>, items: seq<Item>)
    requires ms != [] && items == DyingRound(ms).drained
    ensures var r := AfterItems(LimitsOf(DyingSession(ms)), FreshRun(0), items);
            r.out.Died? && r.v.committed == SqlFor(ms) && r.v.acked == []
  {
    var n := |ms| - 1;
    FillsUp(ms, items, n);
    FillsOneMore(ms, n);
    assert items[..|items| - 1] == items[..n];
  }

  lemma OneRound(lim: Limits, r: Run, round: Round)
    requires round.waited.None?
    ensures Queue([round]) == round.drained
    ensures var r' := AfterItems(lim, r, round.drained); !r'.out.Continue? ==> AfterRounds(lim, r, [round]) == r'
  {
    assert [round][..0] == [];
    assert Queue([round]) == [] + (round.drained + []) == round.drained;
  }

  /** For every list of messages there is a session that is offered them, commits them all and acks none. */
  lemma DyingSessionCommits(ms: seq<Msg>)
    requires ms != []
    ensures var r := RunOf(DyingSession(ms)); r.out.Died? && r.v.committed == SqlFor(ms) && r.v.acked == []
    ensures Kept(Messages(Queue(DyingSession(ms).rounds))) == ms
  {
    var round := DyingRound(ms);
    DyingItems(ms, round.drained);
    OneRound(LimitsOf(DyingSession(ms)), FreshRun(0), round);
    OffersAreKept(round.drained, ms);
  }

  /** Entry by entry, a message that is kept. */
  ghost predicate Offers(items: seq<Item>, ms: seq<Msg>) {
    |items| == |ms| && forall i :: 0 <= i < |ms| ==> items[i].Message? && KeptOne(items[i].delivery) == [ms[i]]
  }

  lemma {:induction false} OffersAreKept(items: seq<Item>, ms: seq<Msg>)
    requires Offers(items, ms)
    ensures Kept(Messages(items)) == ms
  {
    if items == [] {
    } else {
      var n := |items| - 1;
      OffersAreKept(items[..n], ms[..n]);
      KeptOneMore(items[..n], items[n], ms[n]);
      assert items == items[..n] + [items[n]] && ms == ms[..n] + [ms[n]];
    }
  }

  lemma KeptOneMore(items: seq<Item>, item: Item, m: Msg)
    requires item.Message? && KeptOne(item.delivery) == [m]
    ensures Kept(Messages(items + [item])) == Kept(Messages(items)) + [m]
  {
    OneMore(items, item);
  }

  /**
   Redelivery may leave older rows: for any two stretches from the first unacked message, the second
   no longer than the first, there are two sessions in a row that execute exactly these and ack
   nothing; and the destination then still holds what it held after the first one if and only if each
   key ends in the second stretch as it ends in the first.
   */
  lemma RedeliveryRegressesIff(db: Database, stream: seq<Msg>, done: nat, again: nat)
    requires 0 < again <= done <= |stream|
    ensures var first, second := DyingSession(stream[..done]), DyingSession(stream[..again]);
            && RedeliversUnacked(first, stream, 0) && RunOf(first).v.acked == []
            && RedeliversUnacked(second, stream, 0) && RunOf(second).v.acked == []
            && var held := ExecAll(db, RunOf(first).v.committed);
               (ExecAll(held, RunOf(second).v.committed) == held <==> EndAlike(SqlFor(stream[..again]), SqlFor(stream[..done])))
  {
    DyingSessionCommits(stream[..done]);
    DyingSessionCommits(stream[..again]);
    assert stream[0..] == stream;
    PrefixSql(stream, done, again);
    RegressesIff(db, SqlFor(stream[..done]), again);
  }

  lemma PrefixSql(stream: seq<Msg>, done: nat, again: nat)
    requires again <= done <= |stream|
    ensures SqlFor(stream[..done])[..again] == SqlFor(stream[..again])
  {
  }
}
