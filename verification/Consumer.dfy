/**
 The streaming consumer: the per-message decisions of the batch processor, the drain loop of the
 bufferer and the buffering half of the SQL driver. Every collaborator (JetStream, registry,
 validator, database) is an adversary whose replies travel with the message they answer. The classes
 are proved to compute functions of their state, and the guarantees are theorems about those.
 */
module Consumer {
  import opened Wrappers
  import opened MySql

  /** A message: its position in the stream and the SQL the driver builds for its event. */
  datatype Msg = Msg(id: nat, stmt: Stmt)

  /** The schema validator's answer; whatever it objects to or raises, the message is skipped. */
  datatype Validation = NoValidator | Accepted | Rejected

  /** What should_skip decides; `Raises` is an exception in it, outside every handler. */
  datatype SkipVerdict = Keep | Skip | Raises

  datatype MigrationReply = Unneeded | Migrated | MigrationFails

  /** One transaction: it may fail on either side of the commit, and the process may die on either side. */
  datatype FlushReply =
    | Committed
    | DriverStopped
    | FailedBeforeCommit
    | FailedAfterCommit
    | DiedBeforeCommit
    | DiedAfterCommit

  /** One ack call on the flush path; a failing ack may still have reached the server. */
  datatype AckReply = Acked | AckFails(registered: bool) | DiedBeforeAck

  /** The replies to one flush; acks past the end of the list succeed. */
  datatype FlushReplies = FlushReplies(reply: FlushReply, acks: seq<AckReply>)

  /** A table's export cutoff in microseconds; one recorded without a zone cannot be compared with an event's time. */
  datatype Cutoff = NoCutoff | ZonelessCutoff | CutoffAt(micros: int)

  /**
   A message with its metadata and every reply. Of its event it shows the millisecond timestamp, whether
   the table can be looked up (an array or an object cannot be a key), and whether the event can be
   printed (a number that is not finite cannot). The cutoff is what was loaded for the table, if
   cutoffs were loaded at all.
   */
  datatype Delivery = Delivery(
    msg: Msg,
    consumerSeq: Option<int>,
    decodes: bool,
    timestamp: int,
    tableIsKey: bool,
    printable: bool,
    cutoffsLoaded: bool,
    cutoff: Cutoff,
    validation: Validation,
    migration: MigrationReply,
    schemaKnown: bool,
    processes: bool,
    numPending: int,
    startClock: real,
    bypassClock: real,
    latencyClock: real,
    flush: FlushReplies
  )

  /** The first and the last millisecond that a datetime can hold: years 1 to 9999. */
  const MIN_TIMESTAMP := -62_135_596_800_000
  const MAX_TIMESTAMP := 253_402_300_799_999

  /** The cutoff test raises: the table cannot be looked up, or its cutoff cannot be compared with the event's time. */
  predicate CutoffRaises(d: Delivery) {
    d.cutoffsLoaded &&
    (|| !d.tableIsKey
     || d.cutoff.ZonelessCutoff?
     || (d.cutoff.CutoffAt? && !(MIN_TIMESTAMP <= d.timestamp <= MAX_TIMESTAMP)))
  }

  predicate BeforeCutoff(d: Delivery) {
    d.cutoffsLoaded && d.cutoff.CutoffAt? && d.timestamp * 1000 < d.cutoff.micros
  }

  /** An exception leaves should_skip: from the cutoff test, or from printing the event that the validator objects to. */
  predicate SkipRaises(d: Delivery) {
    CutoffRaises(d) || (!BeforeCutoff(d) && d.validation.Rejected? && !d.printable)
  }

  function ShouldSkip(d: Delivery): SkipVerdict {
    if SkipRaises(d) then Raises
    else if BeforeCutoff(d) || d.validation.Rejected? then Skip
    else Keep
  }

  /** How a call ends: normally, on a clean stop, on a surfaced fatal error, or by leaving the loop abruptly. */
  datatype Outcome = Continue | Stopped | Fatal | Drained | Cancelled | EscapedException | Died

  /** The outcomes after which Bufferer.run has returned. */
  predicate Returned(out: Outcome) {
    out.Stopped? || out.Fatal? || out.Drained? || out.Cancelled?
  }

  const DEFAULT_MAX_ACK_PENDING := 25_000

  /** The batch size: the configured or default pending limit, capped by a positive driver limit. */
  function BatchMax(maxAckPending: int, driverMax: int): (m: int)
    ensures 1 <= m
    ensures driverMax > 0 ==> m <= driverMax
    ensures maxAckPending > 0 ==> m <= maxAckPending
    ensures m == driverMax || m == maxAckPending || (m == 25_000 && maxAckPending <= 0)
    ensures m == driverMax ==> maxAckPending <= 0 || driverMax <= maxAckPending
  {
    var m := if maxAckPending > 0 then maxAckPending else DEFAULT_MAX_ACK_PENDING;
    if 0 < driverMax < m then driverMax else m
  }

  /** The configuration of a processor. */
  datatype Limits = Limits(max: int, minPendingLatency: real, maxPendingLatency: real, supportsMigration: bool)

  // ---------- The state, and what each call makes of it ----------

  /**
   The processor's fields, the driver's buffer in front of the committed statements, and a record of
   what the run did: messages handed in, consumer sequences accepted, messages whose SQL was buffered,
   messages the server knows to be acked by a flush, and messages with an ack or nak call.
   */
  datatype View = View(
    pending: seq<Msg>,
    started: Option<real>,
    sequence: int,
    gauge: nat,
    buffer: seq<Stmt>,
    committed: seq<Stmt>,
    handed: nat,
    accepted: seq<int>,
    processed: seq<Msg>,
    acked: seq<Msg>,
    settled: set<Msg>
  )

  function SetOf(ms: seq<Msg>): set<Msg> {
    set m | m in ms
  }

  /** Nak all pending messages and clear the batch. */
  function NackAll(v: View): View {
    v.(pending := [], started := None, settled := v.settled + SetOf(v.pending))
  }

  /** An error path that counts its message: the gauge goes down and the batch is settled. */
  function Reject(v: View): (View, Outcome) {
    (NackAll(v.(gauge := v.gauge + 1)), Fatal)
  }

  /** How the ack loop goes: how many acks the server knows of, how many were called, and how it ends. */
  datatype AckRun = AckRun(registered: nat, calls: nat, out: Outcome)

  function AckRunOf(acks: seq<AckReply>, i: nat, n: nat): (a: AckRun)
    requires i <= n
    ensures i <= a.calls <= n && i <= a.registered <= n
    ensures a.out.Continue? || a.out.Stopped? || a.out.Died?
    ensures a.out.Continue? ==> a.registered == a.calls == n
    decreases n - i
  {
    if i == n then AckRun(n, n, Continue)
    else match AckAt(acks, i)
      case Acked => AckRunOf(acks, i + 1, n)
      case AckFails(registered) => AckRun(if registered then i + 1 else i, i + 1, Stopped)
      case DiedBeforeAck => AckRun(i, i, Died)
  }

  /** The acks of a batch whose transaction went through. */
  function AckAll(v: View, acks: seq<AckReply>): (View, Outcome) {
    var a := AckRunOf(acks, 0, |v.pending|);
    var v' := v.(acked := v.acked + v.pending[..a.registered], gauge := v.gauge + a.calls);
    if a.out.Died? then (v'.(settled := v.settled + SetOf(v.pending[..a.calls])), Died)
    else (NackAll(v'), a.out)
  }

  /** The state in the middle of the ack loop, `n` acks having gone well. */
  function AckedUpTo(v: View, n: nat): View
    requires n <= |v.pending|
  {
    v.(acked := v.acked + v.pending[..n], settled := v.settled + SetOf(v.pending[..n]), gauge := v.gauge + n)
  }

  /** The state after the ack with that index failed. */
  function AckStopped(v: View, i: nat, registered: bool): View
    requires i < |v.pending|
  {
    NackAll(v.(acked := v.acked + v.pending[..if registered then i + 1 else i], gauge := v.gauge + i + 1))
  }

  lemma AckedOneMore(v: View, n: nat)
    requires n < |v.pending|
    ensures v.acked + v.pending[..n] + [v.pending[n]] == v.acked + v.pending[..n + 1]
    ensures SetOf(v.pending[..n + 1]) == SetOf(v.pending[..n]) + {v.pending[n]}
  {
    assert v.pending[..n + 1] == v.pending[..n] + [v.pending[n]];
  }

  /** The reply to an ack; acks past the end of the list succeed. */
  function AckAt(acks: seq<AckReply>, i: nat): AckReply {
    if i < |acks| then acks[i] else Acked
  }

  lemma {:induction false} AckRunStopsAt(acks: seq<AckReply>, from: nat, i: nat, n: nat)
    requires from <= i <= n && (forall j :: from <= j < i ==> AckAt(acks, j).Acked?) && (i < n ==> !AckAt(acks, i).Acked?)
    ensures AckRunOf(acks, from, n) ==
            if i == n then AckRun(n, n, Continue)
            else if AckAt(acks, i).DiedBeforeAck? then AckRun(i, i, Died)
            else AckRun(if AckAt(acks, i).registered then i + 1 else i, i + 1, Stopped)
    decreases i - from
  {
    if from == i {
    } else {
      assert AckAt(acks, from).Acked?;
      AckRunStopsAt(acks, from + 1, i, n);
    }
  }

  /**
   The ack loop, given the first ack that does not go well: the server knows of those before it, and of it
   exactly if it was registered; a failed ack is a clean stop, and without one the batch is done.
   */
  lemma AcksAreExact(v: View, acks: seq<AckReply>, i: nat)
    requires i <= |v.pending| && (forall j :: 0 <= j < i ==> AckAt(acks, j).Acked?) && (i < |v.pending| ==> !AckAt(acks, i).Acked?)
    ensures var (v', out) := AckAll(v, acks);
            && v'.gauge == v.gauge + (if i < |v.pending| && AckAt(acks, i).AckFails? then i + 1 else i)
            && if i == |v.pending| then out.Continue? && v'.acked == v.acked + v.pending
               else if AckAt(acks, i).DiedBeforeAck? then out.Died? && v'.acked == v.acked + v.pending[..i]
               else out.Stopped? && v'.acked == v.acked + v.pending[..if AckAt(acks, i) == AckFails(true) then i + 1 else i]
  {
    AckRunStopsAt(acks, 0, i, |v.pending|);
    assert v.pending[..|v.pending|] == v.pending;
  }

  /** One transaction for the whole buffer, then the acks; the buffer survives every failure. */
  function Flushed(v: View, replies: FlushReplies): (View, Outcome) {
    var v' := v.(committed := v.committed + v.buffer);
    match replies.reply
    case DriverStopped => (NackAll(v), Stopped)
    case DiedBeforeCommit => (v, Died)
    case DiedAfterCommit => (v', Died)
    case FailedBeforeCommit => if v.buffer != [] then (NackAll(v), Fatal) else AckAll(v', replies.acks)
    case FailedAfterCommit => if v.buffer != [] then (NackAll(v'), Fatal) else AckAll(v', replies.acks)
    case Committed => AckAll(v'.(buffer := []), replies.acks)
  }

  /**
   The flush rule for a kept message, with the unreachable second size test left out: a migration
   ran, the batch is full, or it is old enough and no large backlog is being caught up.
   */
  predicate FlushDue(lim: Limits, d: Delivery, size: nat, started: Option<real>) {
    var since := if started.Some? then started.value else d.startClock;
    || (lim.supportsMigration && d.migration.Migrated?)
    || size >= lim.max
    || (&& d.latencyClock - since >= lim.maxPendingLatency
        && !(d.numPending > lim.max && d.bypassClock - since < lim.maxPendingLatency * 2.0))
  }

  /** The batch clock starts with the first message that is not flushed at once. */
  function Clocked(lim: Limits, v: View, d: Delivery): View {
    if |v.pending| >= lim.max || (lim.supportsMigration && d.migration.Migrated?) || v.started.Some? then v
    else v.(started := Some(d.startClock))
  }

  /** A kept message: migrate, check, buffer, flush if due. */
  function Applied(lim: Limits, v: View, d: Delivery): (View, Outcome) {
    if lim.supportsMigration && d.migration.MigrationFails? then (NackAll(v), Fatal)
    else if d.msg.stmt.Replace? && !d.schemaKnown then (NackAll(v), Fatal)
    else if !d.processes then Reject(v)
    else
      var v' := v.(buffer := v.buffer + [d.msg.stmt], processed := v.processed + [d.msg]);
      var due := FlushDue(lim, d, |v'.pending|, v'.started);
      if due then Flushed(Clocked(lim, v', d), d.flush) else (Clocked(lim, v', d), Continue)
  }

  function Decided(lim: Limits, v: View, d: Delivery): (View, Outcome)
    requires v.pending != []
  {
    match ShouldSkip(d)
    case Raises => (v, EscapedException)
    case Skip => (v.(settled := v.settled + {d.msg}, pending := v.pending[..|v.pending| - 1], gauge := v.gauge + 1), Continue)
    case Keep => Applied(lim, v, d)
  }

  function Processed(lim: Limits, v: View, d: Delivery): (View, Outcome) {
    var v1 := v.(handed := v.handed + 1);
    var v2 := v1.(pending := v.pending + [d.msg]);
    if d.consumerSeq.None? then Reject(v1)
    else if d.consumerSeq.value != v.sequence + 1 then Reject(v2)
    else
      var v3 := v2.(sequence := v.sequence + 1, accepted := v.accepted + [v.sequence + 1]);
      if !d.decodes then Reject(v3) else Decided(lim, v3, d)
  }

  function Idled(lim: Limits, v: View, clock: real, replies: FlushReplies): (View, Outcome) {
    if 0 < |v.pending| < lim.max && v.started.Some? && clock - v.started.value >= lim.minPendingLatency then Flushed(v, replies)
    else (v, Continue)
  }

  // ---------- The classes ----------

  /** The SQL driver's streaming buffer in front of the destination's committed statements. */
  class SqlDriver {
    var pending: seq<Stmt>
    var count: nat
    var committed: seq<Stmt>

    constructor ()
      ensures pending == [] && count == 0 && committed == []
    {
      pending, count, committed := [], 0, [];
    }

    method Process(s: Stmt) returns (flush: bool)
      modifies this
      ensures !flush
      ensures pending == old(pending) + [s] && count == old(count) + 1 && committed == old(committed)
    {
      pending, count := pending + [s], count + 1;
      flush := false;
    }

    /** One transaction for the whole buffer; the buffer survives every failure. */
    method Flush(reply: FlushReply) returns (out: Outcome)
      requires count == |pending|
      modifies this
      ensures out == match reply
                     case Committed => Continue
                     case DriverStopped => Stopped
                     case FailedBeforeCommit => if old(count) > 0 then Fatal else Continue
                     case FailedAfterCommit => if old(count) > 0 then Fatal else Continue
                     case DiedBeforeCommit => Died
                     case DiedAfterCommit => Died
      ensures committed == old(committed) + if reply.Committed? || reply.FailedAfterCommit? || reply.DiedAfterCommit? then old(pending) else []
      ensures out.Continue? ==> committed == old(committed) + old(pending)
      ensures pending == if out.Continue? then [] else old(pending)
      ensures count == |pending|
    {
      if reply.DriverStopped? {
        return Stopped;
      }
      if reply.DiedBeforeCommit? {
        return Died;
      }
      if count > 0 {
        if reply.FailedBeforeCommit? {
          return Fatal;
        }
        committed := committed + pending;
        if reply.FailedAfterCommit? {
          return Fatal;
        }
      }
      if reply.DiedAfterCommit? {
        return Died;
      }
      pending, count := [], 0;
      out := Continue;
    }
  }

  class BatchProcessor {
    const driver: SqlDriver
    const limits: Limits
    var pending: seq<Msg>
    var pendingStarted: Option<real>
    var sequence: int
    var gaugeDecrements: nat
    ghost var handed: nat
    ghost var accepted: seq<int>
    ghost var processed: seq<Msg>
    var acked: seq<Msg>
    ghost var settled: set<Msg>

    ghost function Snapshot(): View
      reads this, driver
    {
      View(pending, pendingStarted, sequence, gaugeDecrements, driver.pending, driver.committed,
                    handed, accepted, processed, acked, settled)
    }

    /** The driver's count is the length of its buffer. */
    ghost predicate Synced()
      reads this, driver
    {
      driver.count == |driver.pending|
    }

    constructor (driver: SqlDriver, limits: Limits, sequence: int)
      requires driver.pending == [] && driver.count == 0 && driver.committed == []
      ensures this.driver == driver && this.limits == limits && Synced() && Snapshot() == Fresh(sequence)
    {
      this.driver, this.limits, this.sequence := driver, limits, sequence;
      this.pending, this.pendingStarted, this.gaugeDecrements := [], None, 0;
      this.handed, this.accepted, this.processed, this.acked, this.settled := 0, [], [], [], {};
    }

    method NackEverything()
      modifies this`pending, this`pendingStarted, this`settled
      ensures Snapshot() == NackAll(old(Snapshot()))
    {
      for i := 0 to |pending|
        invariant pending == old(pending)
        invariant settled == old(settled) + SetOf(pending[..i])
      {
        assert pending[..i + 1] == pending[..i] + [pending[i]];
        settled := settled + {pending[i]};
      }
      assert pending[..|pending|] == pending;
      pending, pendingStarted := [], None;
    }

    method HandleError() returns (out: Outcome)
      modifies this`pending, this`pendingStarted, this`settled
      ensures out.Fatal? && Snapshot() == NackAll(old(Snapshot()))
    {
      NackEverything();
      out := Fatal;
    }

    /** One ack call; a failing one settles the batch and stops. */
    method AckOne(i: nat, reply: AckReply, ghost v: View) returns (out: Outcome)
      requires i < |v.pending| && Snapshot() == AckedUpTo(v, i)
      modifies this`pending, this`pendingStarted, this`settled, this`acked, this`gaugeDecrements
      ensures match reply
              case Acked => out.Continue? && Snapshot() == AckedUpTo(v, i + 1)
              case DiedBeforeAck => out.Died? && Snapshot() == AckedUpTo(v, i)
              case AckFails(registered) => out.Stopped? && Snapshot() == AckStopped(v, i, registered)
    {
      if reply.DiedBeforeAck? {
        return Died;
      }
      AckedOneMore(v, i);
      settled := settled + {pending[i]};
      if !reply.AckFails? || reply.registered {
        acked := acked + [pending[i]];
      }
      gaugeDecrements := gaugeDecrements + 1;
      if reply.AckFails? {
        NackEverything();
        assert settled == v.settled + SetOf(v.pending);
        return Stopped;
      }
      out := Continue;
    }

    /** The ack loop of a flush whose transaction went through. */
    method AckPending(acks: seq<AckReply>) returns (out: Outcome)
      modifies this`pending, this`pendingStarted, this`settled, this`acked, this`gaugeDecrements
      ensures (Snapshot(), out) == AckAll(old(Snapshot()), acks)
    {
      ghost var v := Snapshot();
      assert v.pending[..0] == [];
      var n := |pending|;
      for i := 0 to n
        invariant Snapshot() == AckedUpTo(v, i)
        invariant AckRunOf(acks, 0, n) == AckRunOf(acks, i, n)
      {
        out := AckOne(i, AckAt(acks, i), v);
        if !out.Continue? {
          return;
        }
      }
      assert pending[..|pending|] == pending;
      pending, pendingStarted := [], None;
      out := Continue;
    }

    method Flush(replies: FlushReplies) returns (out: Outcome)
      requires Synced()
      modifies this`pending, this`pendingStarted, this`settled, this`acked, this`gaugeDecrements, driver
      ensures Synced() && (Snapshot(), out) == Flushed(old(Snapshot()), replies)
    {
      assert driver.committed + [] == driver.committed;
      out := driver.Flush(replies.reply);
      if out.Stopped? {
        NackEverything();
      } else if out.Fatal? {
        out := HandleError();
      } else if out.Continue? {
        out := AckPending(replies.acks);
      }
    }

    method ProcessMessage(d: Delivery) returns (out: Outcome)
      requires Synced()
      modifies this, driver
      ensures Synced() && (Snapshot(), out) == Processed(limits, old(Snapshot()), d)
    {
      handed := handed + 1;
      if d.consumerSeq.None? {
        gaugeDecrements := gaugeDecrements + 1;
        out := HandleError();
        return;
      }
      pending := pending + [d.msg];
      if d.consumerSeq.value != sequence + 1 {
        gaugeDecrements := gaugeDecrements + 1;
        out := HandleError();
        return;
      }
      sequence := d.consumerSeq.value;
      accepted := accepted + [sequence];
      if !d.decodes {
        gaugeDecrements := gaugeDecrements + 1;
        out := HandleError();
        return;
      }
      out := SkipOrApply(d);
    }

    /** The message just appended: skip and ack it on its own, or apply it. */
    method SkipOrApply(d: Delivery) returns (out: Outcome)
      requires Synced() && pending != []
      modifies this`pending, this`pendingStarted, this`settled, this`acked, this`gaugeDecrements, this`processed, driver
      ensures Synced() && (Snapshot(), out) == Decided(limits, old(Snapshot()), d)
    {
      var skip := false;
      if d.cutoffsLoaded {
        if !d.tableIsKey {
          return EscapedException;
        }
        if !d.cutoff.NoCutoff? {
          if !(MIN_TIMESTAMP <= d.timestamp <= MAX_TIMESTAMP) || d.cutoff.ZonelessCutoff? {
            return EscapedException;
          }
          skip := d.timestamp * 1000 < d.cutoff.micros;
        }
      }
      if !skip && d.validation.Rejected? {
        if !d.printable {
          return EscapedException;
        }
        skip := true;
      }
      if skip {
        settled := settled + {d.msg};
        pending := pending[..|pending| - 1];
        gaugeDecrements := gaugeDecrements + 1;
        return Continue;
      }
      out := ApplyEvent(d);
    }

    /** A kept message: migrate, check, buffer, decide on a flush. */
    method ApplyEvent(d: Delivery) returns (out: Outcome)
      requires Synced()
      modifies this`pending, this`pendingStarted, this`settled, this`acked, this`gaugeDecrements, this`processed, driver
      ensures Synced() && (Snapshot(), out) == Applied(limits, old(Snapshot()), d)
    {
      var forceFlush := false;
      if limits.supportsMigration {
        if d.migration.MigrationFails? {
          out := HandleError();
          return;
        }
        forceFlush := d.migration.Migrated?;
      }
      if d.msg.stmt.Replace? && !d.schemaKnown {
        out := HandleError();
        return;
      }
      if !d.processes {
        gaugeDecrements := gaugeDecrements + 1;
        out := HandleError();
        return;
      }
      var flush := driver.Process(d.msg.stmt);
      processed := processed + [d.msg];
      out := FlushIfDue(d, flush || forceFlush);
    }

    /** The size, migration and latency triggers, with the bypass that lets a large backlog accumulate. */
    method FlushIfDue(d: Delivery, forced: bool) returns (out: Outcome)
      requires Synced() && forced == (limits.supportsMigration && d.migration.Migrated?)
      modifies this`pending, this`pendingStarted, this`settled, this`acked, this`gaugeDecrements, driver
      ensures Synced()
      ensures var v := Clocked(limits, old(Snapshot()), d);
              (Snapshot(), out) == if FlushDue(limits, d, |old(pending)|, old(pendingStarted)) then Flushed(v, d.flush) else (v, Continue)
    {
      if |pending| >= limits.max || forced {
        out := Flush(d.flush);
        return;
      }
      if pendingStarted.None? {
        pendingStarted := Some(d.startClock);
      }
      if d.numPending > limits.max && d.bypassClock - pendingStarted.value < limits.maxPendingLatency * 2.0 {
        return Continue;
      }
      // The size half of this test never fires: a full batch was flushed above.
      if |pending| >= limits.max || d.latencyClock - pendingStarted.value >= limits.maxPendingLatency {
        out := Flush(d.flush);
        return;
      }
      out := Continue;
    }

    method OnIdle(clock: real, replies: FlushReplies) returns (out: Outcome)
      requires Synced()
      modifies this`pending, this`pendingStarted, this`settled, this`acked, this`gaugeDecrements, driver
      ensures Synced() && (Snapshot(), out) == Idled(limits, old(Snapshot()), clock, replies)
    {
      var count := |pending|;
      if 0 < count < limits.max && pendingStarted.Some? && clock - pendingStarted.value >= limits.minPendingLatency {
        out := Flush(replies);
        return;
      }
      out := Continue;
    }
  }

  function Fresh(sequence: int): View {
    View([], None, sequence, 0, [], [], 0, [], [], [], {})
  }

  // ---------- What every call keeps ----------

  /** `ss` is the SQL of the messages `ms`, in order. */
  ghost predicate SqlOf(ss: seq<Stmt>, ms: seq<Msg>) {
    |ss| == |ms| && forall i :: 0 <= i < |ms| ==> ss[i] == ms[i].stmt
  }

  /** The consumer sequences accepted since `start` have no gap. */
  ghost predicate Contiguous(start: int, v: View) {
    && |v.accepted| == v.sequence - start
    && forall i :: 0 <= i < |v.accepted| ==> v.accepted[i] == start + 1 + i
  }

  /** Acked implies committed, and what is committed is the in-order SQL of a prefix of the processed messages. */
  ghost predicate Durable(start: int, v: View) {
    && v.acked <= v.processed
    && |v.acked| <= |v.committed| <= |v.processed|
    && SqlOf(v.committed, v.processed[..|v.committed|])
    && Contiguous(start, v)
  }

  /** The driver's buffer is the image of the pending list, and both are the unacked end of the run. */
  ghost predicate Aligned(v: View) {
    && SqlOf(v.buffer, v.pending)
    && v.processed == v.acked + v.pending
    && SqlOf(v.committed, v.acked)
  }

  /** Holds between calls: nothing is half done. */
  ghost predicate Valid(lim: Limits, start: int, v: View) {
    && Aligned(v) && Contiguous(start, v)
    && 1 <= lim.max && |v.pending| < lim.max
    && (v.pending == [] <==> v.started.None?)
    && v.gauge + |v.pending| == v.handed
  }

  /** Each of these messages is still pending or has had ack or nak called. */
  ghost predicate NoneForgotten(ms: seq<Msg>, v: View) {
    forall m :: m in ms ==> m in v.settled || m in v.pending
  }

  lemma ValidIsDurable(start: int, v: View)
    requires Aligned(v) && Contiguous(start, v)
    ensures Durable(start, v)
  {
    assert v.processed[..|v.acked|] == v.acked;
  }

  /** What a flush makes of a batch, however its transaction and its acks go. */
  ghost predicate FlushedWell(lim: Limits, start: int, v: View, v': View, out: Outcome) {
    && (out.Continue? || out.Stopped? || out.Fatal? || out.Died?)
    && Durable(start, v')
    && (out.Continue? ==> Valid(lim, start, v') && v'.pending == [])
    && (!out.Died? ==> v'.pending == [] && SetOf(v.pending) <= v'.settled)
    && v.settled <= v'.settled
    && v'.processed == v.processed && v'.handed == v.handed && v'.sequence == v.sequence && v'.accepted == v.accepted
  }

  lemma AcksKeep(lim: Limits, start: int, v: View, acks: seq<AckReply>)
    requires v.processed == v.acked + v.pending && SqlOf(v.committed, v.processed) && v.buffer == []
    requires Contiguous(start, v) && 1 <= lim.max && v.gauge + |v.pending| == v.handed
    ensures var (v', out) := AckAll(v, acks); FlushedWell(lim, start, v, v', out)
  {
    var a := AckRunOf(acks, 0, |v.pending|);
    var (v', out) := AckAll(v, acks);
    assert v.acked + v.pending[..a.registered] <= v.processed;
    assert v.processed[..|v.processed|] == v.processed;
    if out.Continue? {
      assert v.pending[..a.registered] == v.pending;
      assert v'.processed == v'.acked + v'.pending;
    }
  }

  /** However the transaction and the acks fail, acked messages are committed and, short of dying, none stays unsettled. */
  lemma FlushKeeps(lim: Limits, start: int, v: View, replies: FlushReplies)
    requires Aligned(v) && Contiguous(start, v) && 1 <= lim.max && v.gauge + |v.pending| == v.handed
    ensures var (v', out) := Flushed(v, replies); FlushedWell(lim, start, v, v', out)
  {
    assert v.processed[..|v.acked|] == v.acked && v.processed[..|v.processed|] == v.processed;
    assert SqlOf(v.committed + v.buffer, v.acked + v.pending);
    var (v', out) := Flushed(v, replies);
    if replies.reply.Committed? || (v.buffer == [] && (replies.reply.FailedBeforeCommit? || replies.reply.FailedAfterCommit?)) {
      AcksKeep(lim, start, v.(committed := v.committed + v.buffer, buffer := []), replies.acks);
    }
  }

  /**
   How a flush ends: a stopped driver is a clean stop and a failed transaction a fatal error, both
   without a single ack; a committed one is followed by the acks and leaves the buffer empty.
   */
  lemma FlushEndsAs(v: View, replies: FlushReplies)
    ensures var (v', out) := Flushed(v, replies);
            && (replies.reply.DriverStopped? ==> out.Stopped? && v'.acked == v.acked && v'.committed == v.committed)
            && ((replies.reply.FailedBeforeCommit? || replies.reply.FailedAfterCommit?) && v.buffer != [] ==> out.Fatal? && v'.acked == v.acked)
            && (replies.reply.DiedBeforeCommit? || replies.reply.DiedAfterCommit? ==> out.Died? && v'.acked == v.acked)
            && (replies.reply.FailedBeforeCommit? || replies.reply.DiedBeforeCommit? ==> v'.committed == v.committed || v.buffer == [])
            && (replies.reply.Committed? ==>
                  v'.buffer == [] && v'.committed == v.committed + v.buffer
                  && out == AckAll(v, replies.acks).1 && v'.acked == AckAll(v, replies.acks).0.acked)
  {
    assert v.committed + [] == v.committed;
  }

  /** The message or nothing, as should_skip decides. */
  function KeptOne(d: Delivery): seq<Msg> {
    if ShouldSkip(d).Keep? then [d.msg] else []
  }

  /** What a call with one message makes of the state before it. */
  ghost predicate HandledWell(lim: Limits, start: int, v: View, d: Delivery, v': View, out: Outcome) {
    && !out.Drained? && !out.Cancelled?
    && Durable(start, v')
    && (out.Continue? ==> Valid(lim, start, v') && v'.handed == v.handed + 1 && v'.processed == v.processed + KeptOne(d))
    && (v'.processed == v.processed || v'.processed == v.processed + KeptOne(d))
    && v.settled <= v'.settled
    && (Returned(out) ==> v'.pending == [])
    && (out.Continue? || Returned(out) ==> NoneForgotten(v.pending, v') && (d.consumerSeq.Some? ==> NoneForgotten([d.msg], v')))
  }

  /** A batch whose newest message `m` is not buffered yet. */
  ghost predicate Arrived(lim: Limits, start: int, before: seq<Msg>, v: View, m: Msg) {
    && v.pending == before + [m] && v.processed == v.acked + before
    && SqlOf(v.buffer, before) && SqlOf(v.committed, v.acked) && Contiguous(start, v)
    && |before| < lim.max && (before == [] <==> v.started.None?) && v.gauge + |v.pending| == v.handed
  }

  /** What applying that message makes of it. */
  ghost predicate AppliedWell(lim: Limits, start: int, v: View, d: Delivery, v': View, out: Outcome) {
    && (out.Continue? || out.Stopped? || out.Fatal? || out.Died?)
    && Durable(start, v')
    && (out.Continue? ==> Valid(lim, start, v') && v'.processed == v.processed + [d.msg] && v'.handed == v.handed)
    && (out.Continue? ==> v'.pending == if FlushDue(lim, d, |v.pending|, v.started) then [] else v.pending)
    && (v'.processed == v.processed || v'.processed == v.processed + [d.msg])
    && v.settled <= v'.settled
    && (Returned(out) ==> v'.pending == [])
    && (out.Continue? || Returned(out) ==> NoneForgotten(v.pending, v'))
  }

  lemma RejectedWell(lim: Limits, start: int, before: seq<Msg>, v: View, d: Delivery, v': View)
    requires Arrived(lim, start, before, v, d.msg)
    requires v' == NackAll(v) || v' == NackAll(v.(gauge := v.gauge + 1))
    ensures AppliedWell(lim, start, v, d, v', Fatal)
  {
    assert v.processed[..|v.acked|] == v.acked;
  }

  /** The message is buffered and its clock is running. */
  function Buffered(lim: Limits, v: View, d: Delivery): View {
    Clocked(lim, v.(buffer := v.buffer + [d.msg.stmt], processed := v.processed + [d.msg]), d)
  }

  lemma BufferedIsAligned(lim: Limits, start: int, before: seq<Msg>, v: View, d: Delivery)
    requires Arrived(lim, start, before, v, d.msg)
    ensures var v' := Buffered(lim, v, d); Aligned(v') && Contiguous(start, v') && v'.gauge + |v'.pending| == v'.handed
    ensures !FlushDue(lim, d, |v.pending|, v.started) ==> Valid(lim, start, Buffered(lim, v, d))
  {
    var v' := Buffered(lim, v, d);
    assert v'.processed == v'.acked + v'.pending;
  }

  /** A kept message: it joins the buffer and the pending list together, or the whole batch is settled. */
  lemma AppliedKeeps(lim: Limits, start: int, before: seq<Msg>, v: View, d: Delivery)
    requires Arrived(lim, start, before, v, d.msg)
    ensures var (v', out) := Applied(lim, v, d); AppliedWell(lim, start, v, d, v', out)
  {
    var (v', out) := Applied(lim, v, d);
    if (lim.supportsMigration && d.migration.MigrationFails?) || (d.msg.stmt.Replace? && !d.schemaKnown) || !d.processes {
      RejectedWell(lim, start, before, v, d, v');
    } else {
      var b := Buffered(lim, v, d);
      BufferedIsAligned(lim, start, before, v, d);
      if FlushDue(lim, d, |v.pending|, v.started) {
        FlushKeeps(lim, start, b, d.flush);
      } else {
        ValidIsDurable(start, b);
      }
    }
  }

  /** A kept message is one that is accepted and then applied. */
  lemma KeptIsApplied(lim: Limits, v: View, d: Delivery)
    requires d.consumerSeq == Some(v.sequence + 1) && d.decodes && ShouldSkip(d).Keep?
    ensures Processed(lim, v, d) == Applied(lim, Accepted(v, d), d)
  {
  }

  lemma KeptMessageKeeps(lim: Limits, start: int, v: View, d: Delivery)
    requires Valid(lim, start, v) && d.consumerSeq == Some(v.sequence + 1) && d.decodes && ShouldSkip(d).Keep?
    ensures var (v', out) := Processed(lim, v, d); HandledWell(lim, start, v, d, v', out)
  {
    KeptIsApplied(lim, v, d);
    AppliedKeeps(lim, start, v.pending, Accepted(v, d), d);
    var (v', out) := Applied(lim, Accepted(v, d), d);
    AppliedIsHandled(lim, start, v, d, v', out);
  }

  /** A message that is skipped, rejected or raised on. */
  lemma OtherMessageKeeps(lim: Limits, start: int, v: View, d: Delivery)
    requires Valid(lim, start, v) && !(d.consumerSeq == Some(v.sequence + 1) && d.decodes && ShouldSkip(d).Keep?)
    ensures var (v', out) := Processed(lim, v, d); HandledWell(lim, start, v, d, v', out)
  {
    if d.consumerSeq == Some(v.sequence + 1) && d.decodes {
      if ShouldSkip(d).Skip? {
        SkippedMessageKeeps(lim, start, v, d);
      } else {
        ValidIsDurable(start, v);
        assert Processed(lim, v, d) == (Accepted(v, d), EscapedException);
      }
    } else {
      RejectedMessageKeeps(lim, start, v, d);
    }
  }

  lemma SkippedMessageKeeps(lim: Limits, start: int, v: View, d: Delivery)
    requires Valid(lim, start, v) && d.consumerSeq == Some(v.sequence + 1) && d.decodes && ShouldSkip(d).Skip?
    ensures var (v', out) := Processed(lim, v, d); HandledWell(lim, start, v, d, v', out)
  {
    ValidIsDurable(start, v);
    assert (v.pending + [d.msg])[..|v.pending|] == v.pending;
    var v' := v.(handed := v.handed + 1, sequence := v.sequence + 1, accepted := v.accepted + [v.sequence + 1],
                 settled := v.settled + {d.msg}, gauge := v.gauge + 1);
    assert Processed(lim, v, d) == (v', Continue);
  }

  lemma RejectedMessageKeeps(lim: Limits, start: int, v: View, d: Delivery)
    requires Valid(lim, start, v) && !(d.consumerSeq == Some(v.sequence + 1) && d.decodes)
    ensures var (v', out) := Processed(lim, v, d); HandledWell(lim, start, v, d, v', out)
  {
    RejectedIs(lim, v, d);
    ReachedIsDurable(lim, start, v, d);
    RejectKeeps(lim, start, v, d, Reached(v, d));
  }

  /** The state in which a message is rejected. */
  function Reached(v: View, d: Delivery): View {
    if d.consumerSeq.None? then v.(handed := v.handed + 1)
    else if d.consumerSeq.value != v.sequence + 1 then v.(handed := v.handed + 1, pending := v.pending + [d.msg])
    else Accepted(v, d)
  }

  lemma RejectedIs(lim: Limits, v: View, d: Delivery)
    requires !(d.consumerSeq == Some(v.sequence + 1) && d.decodes)
    ensures Processed(lim, v, d) == Reject(Reached(v, d))
  {
  }

  lemma ReachedIsDurable(lim: Limits, start: int, v: View, d: Delivery)
    requires Valid(lim, start, v)
    ensures var u := Reached(v, d);
            && Durable(start, u) && u.processed == v.processed && u.settled == v.settled
            && u.pending == v.pending + (if d.consumerSeq.Some? then [d.msg] else [])
  {
    ValidIsDurable(start, v);
    assert v.pending + [] == v.pending;
  }

  /** Rejecting from a state that the message has reached. */
  lemma RejectKeeps(lim: Limits, start: int, v: View, d: Delivery, u: View)
    requires Durable(start, u) && u.processed == v.processed && u.settled == v.settled
    requires u.pending == v.pending + (if d.consumerSeq.Some? then [d.msg] else [])
    ensures var (v', out) := Reject(u); HandledWell(lim, start, v, d, v', out)
  {
    assert forall m :: m in v.pending ==> m in u.pending;
    assert d.consumerSeq.Some? ==> u.pending[|v.pending|] == d.msg;
  }

  /**
   A message keeps the between-calls invariant or ends the run with everything durable and, unless
   the process dies or an exception escapes, everything settled.
   */
  lemma MessageKeeps(lim: Limits, start: int, v: View, d: Delivery)
    requires Valid(lim, start, v)
    ensures var (v', out) := Processed(lim, v, d); HandledWell(lim, start, v, d, v', out)
  {
    if d.consumerSeq == Some(v.sequence + 1) && d.decodes && ShouldSkip(d).Keep? {
      KeptMessageKeeps(lim, start, v, d);
    } else {
      OtherMessageKeeps(lim, start, v, d);
    }
  }

  lemma AppliedIsHandled(lim: Limits, start: int, v: View, d: Delivery, v': View, out: Outcome)
    requires ShouldSkip(d).Keep? && AppliedWell(lim, start, Accepted(v, d), d, v', out)
    ensures HandledWell(lim, start, v, d, v', out)
  {
    assert forall m :: m in v.pending || m == d.msg ==> m in Accepted(v, d).pending;
  }

  /** The state in which an accepted message is decoded. */
  function Accepted(v: View, d: Delivery): View {
    v.(handed := v.handed + 1, pending := v.pending + [d.msg], sequence := v.sequence + 1, accepted := v.accepted + [v.sequence + 1])
  }

  /** The order check: out of sequence is fatal, and every message in sequence is accepted. */
  lemma MessageIsOrdered(lim: Limits, v: View, d: Delivery)
    ensures var (v', out) := Processed(lim, v, d);
            && (d.consumerSeq != Some(v.sequence + 1) ==> out.Fatal? && v'.accepted == v.accepted)
            && (d.consumerSeq == Some(v.sequence + 1) ==> v'.accepted == v.accepted + [v.sequence + 1] && v'.sequence == v.sequence + 1)
  {
    if d.consumerSeq == Some(v.sequence + 1) && d.decodes && ShouldSkip(d).Keep? {
      AppliedAccepts(lim, Accepted(v, d), d);
    }
  }

  /** The flush rule: a skip leaves batch and clock alone, and a kept message flushes exactly when due. */
  lemma MessageFlushesWhenDue(lim: Limits, start: int, v: View, d: Delivery)
    requires Valid(lim, start, v)
    ensures var (v', out) := Processed(lim, v, d);
            && (out.Continue? && ShouldSkip(d).Skip? ==> v'.pending == v.pending && v'.started == v.started)
            && (out.Continue? && ShouldSkip(d).Keep? ==>
                  v'.pending == if FlushDue(lim, d, |v.pending| + 1, v.started) then [] else v.pending + [d.msg])
  {
    if d.consumerSeq == Some(v.sequence + 1) && d.decodes {
      if ShouldSkip(d).Keep? {
        AppliedKeeps(lim, start, v.pending, Accepted(v, d), d);
      } else {
        assert Accepted(v, d).pending[..|v.pending|] == v.pending;
      }
    }
  }

  /**
   What is skipped: an accepted message that does not end the run is buffered exactly when it is not
   stamped before its table's loaded cutoff and the validator does not object; otherwise it is settled on
   its own. A message before its cutoff, and a rejected one that can be printed, never end the run.
   */
  lemma MessageIsKeptOrSkipped(lim: Limits, v: View, d: Delivery)
    requires d.consumerSeq == Some(v.sequence + 1) && d.decodes
    ensures var (v', out) := Processed(lim, v, d);
            var early := d.cutoffsLoaded && d.cutoff.CutoffAt? && d.timestamp * 1000 < d.cutoff.micros;
            && (out.Continue? && !early && !d.validation.Rejected? ==> v'.processed == v.processed + [d.msg])
            && (out.Continue? && (early || d.validation.Rejected?) ==> v'.processed == v.processed && v'.settled == v.settled + {d.msg})
            && ((early || (d.validation.Rejected? && d.printable)) && d.tableIsKey && !d.cutoff.ZonelessCutoff?
                ==> !(MIN_TIMESTAMP <= d.timestamp <= MAX_TIMESTAMP) || out.Continue?)
  {
    if ShouldSkip(d).Keep? {
      KeptIsApplied(lim, v, d);
      AppliedBuffers(lim, Accepted(v, d), d);
    }
  }

  lemma AppliedBuffers(lim: Limits, v: View, d: Delivery)
    ensures var (v', out) := Applied(lim, v, d); out.Continue? ==> v'.processed == v.processed + [d.msg]
  {
  }

  /**
   What is fatal: unreadable metadata, a message that does not decode, and, for one that is kept, a failing
   migration, an upsert without a schema, or a driver that does not take it. Nothing is buffered then, and the
   whole batch with the message is settled.
   */
  lemma MessageIsFatal(lim: Limits, v: View, d: Delivery)
    requires d.consumerSeq == None || (d.consumerSeq == Some(v.sequence + 1) && (!d.decodes || (Wanted(d) && !SkipRaises(d)
             && ((lim.supportsMigration && d.migration.MigrationFails?) || (d.msg.stmt.Replace? && !d.schemaKnown) || !d.processes))))
    ensures var (v', out) := Processed(lim, v, d);
            && out.Fatal? && v'.processed == v.processed && v'.buffer == v.buffer && v'.pending == []
            && (forall m :: m in v.pending || (m == d.msg && d.consumerSeq.Some?) ==> m in v'.settled)
  {
    if d.consumerSeq == None || !d.decodes {
      RejectedIs(lim, v, d);
    } else {
      KeptIsApplied(lim, v, d);
    }
  }

  /**
   When a kept message is flushed: at once after a migration or when the batch is full; otherwise once the
   batch has reached the maximum latency, unless a backlog larger than a batch is waiting and twice that
   latency has not passed.
   */
  lemma KeptMessageIsFlushed(lim: Limits, start: int, v: View, d: Delivery)
    requires Valid(lim, start, v) && Wanted(d) && Processed(lim, v, d).1.Continue?
    ensures var pending := Processed(lim, v, d).0.pending;
            var since := if v.started.Some? then v.started.value else d.startClock;
            && (pending != [] ==> Processed(lim, v, d).0.started == Some(since))
            && (|v.pending| + 1 >= lim.max || (lim.supportsMigration && d.migration.Migrated?) ==> pending == [])
            && (|v.pending| + 1 < lim.max && !(lim.supportsMigration && d.migration.Migrated?) ==>
                  && (d.latencyClock < since + lim.maxPendingLatency ==> pending == v.pending + [d.msg])
                  && (d.latencyClock >= since + lim.maxPendingLatency && d.numPending <= lim.max ==> pending == [])
                  && (d.latencyClock >= since + lim.maxPendingLatency && d.numPending > lim.max ==>
                        pending == if d.bypassClock >= since + 2.0 * lim.maxPendingLatency then [] else v.pending + [d.msg]))
  {
    NoRejectContinues(lim, v, d);
    assert ShouldSkip(d).Keep?;
    MessageFlushesWhenDue(lim, start, v, d);
    KeptIsApplied(lim, v, d);
    if !FlushDue(lim, d, |v.pending| + 1, v.started) {
      assert Processed(lim, v, d).0 == Buffered(lim, Accepted(v, d), d);
    }
  }

  lemma AppliedAccepts(lim: Limits, v: View, d: Delivery)
    ensures var (v', _) := Applied(lim, v, d); v'.accepted == v.accepted && v'.sequence == v.sequence
  {
  }

  /**
   An exception escapes exactly for a decodable message in sequence whose cutoff test raises (a table
   that cannot be a key, a cutoff without a zone, a timestamp no datetime can hold) or which the validator
   rejects and which cannot be printed. It leaves the whole batch and this message pending, and nothing
   newly acked or nak'd.
   */
  lemma MessageEscapesIff(lim: Limits, v: View, d: Delivery)
    ensures var (v', out) := Processed(lim, v, d);
            var timed := d.cutoffsLoaded && d.cutoff.CutoffAt?;
            var unusable := d.cutoffsLoaded && (!d.tableIsKey || d.cutoff.ZonelessCutoff?);
            var outside := timed && (d.timestamp < -62_135_596_800_000 || d.timestamp > 253_402_300_799_999);
            var unprinted := d.validation.Rejected? && !d.printable && (timed ==> d.timestamp * 1000 >= d.cutoff.micros);
            && (out.EscapedException? <==> d.consumerSeq == Some(v.sequence + 1) && d.decodes && (unusable || outside || unprinted))
            && (out.EscapedException? ==> v'.pending == v.pending + [d.msg] && v'.settled == v.settled && v'.acked == v.acked)
  {
    if d.consumerSeq == Some(v.sequence + 1) && d.decodes && !SkipRaises(d) {
      NeverEscapes(lim, Accepted(v, d), d);
    }
  }

  lemma NeverEscapes(lim: Limits, v: View, d: Delivery)
    ensures !Applied(lim, v, d).1.EscapedException?
  {
  }

  /** An idle tick flushes a partial batch exactly when it has reached the minimum latency. */
  lemma IdleKeeps(lim: Limits, start: int, v: View, clock: real, replies: FlushReplies)
    requires Valid(lim, start, v)
    ensures var (v', out) := Idled(lim, v, clock, replies);
            && (out.Continue? || out.Stopped? || out.Fatal? || out.Died?)
            && Durable(start, v') && (out.Continue? ==> Valid(lim, start, v'))
            && (out.Continue? ==> v'.pending == if v.started.Some? && clock - v.started.value >= lim.minPendingLatency then [] else v.pending)
            && v'.processed == v.processed && v'.accepted == v.accepted && v.settled <= v'.settled
            && (Returned(out) ==> v'.pending == [])
            && (out.Continue? || Returned(out) ==> NoneForgotten(v.pending, v'))
  {
    ValidIsDurable(start, v);
    FlushKeeps(lim, start, v, replies);
  }

  // ---------- The drain loop ----------

  /** A queue entry: a message, or the sentinel a graceful stop enqueues. */
  datatype Item = Message(delivery: Delivery) | Sentinel(flush: FlushReplies)

  /**
   One turn of the drain loop: what the queue held, whether cancel was set, the idle tick, and what
   the timed wait returned.
   */
  datatype Round = Round(drained: seq<Item>, cancel: bool, idleClock: real, idleFlush: FlushReplies, waited: Option<Item>)

  /** A run so far: the state, how it was left (`Continue`: it is still running), and what was dequeued. */
  datatype Run = Run(v: View, out: Outcome, dequeued: seq<Item>)

  function ItemStep(lim: Limits, v: View, item: Item): (View, Outcome) {
    match item
    case Message(d) => Processed(lim, v, d)
    case Sentinel(flush) =>
      // A stop or an error of the last flush is swallowed.
      var (v', out) := Flushed(v, flush);
      (v', if out.Died? then Died else Drained)
  }

  function AfterItem(lim: Limits, r: Run, item: Item): Run {
    if !r.out.Continue? then r
    else
      var (v', out) := ItemStep(lim, r.v, item);
      Run(v', out, r.dequeued + [item])
  }

  function AfterItems(lim: Limits, r: Run, items: seq<Item>): Run {
    if items == [] then r else AfterItem(lim, AfterItems(lim, r, items[..|items| - 1]), items[|items| - 1])
  }

  /** What follows an empty queue: the cancel check, then the idle tick. */
  function AfterTick(lim: Limits, r: Run, round: Round): Run {
    if !r.out.Continue? then r
    else if round.cancel then r.(v := NackAll(r.v), out := Cancelled)
    else
      var (v', out) := Idled(lim, r.v, round.idleClock, round.idleFlush);
      r.(v := v', out := out)
  }

  function AfterRound(lim: Limits, r: Run, round: Round): Run {
    var r' := AfterTick(lim, AfterItems(lim, r, round.drained), round);
    if round.waited.Some? then AfterItem(lim, r', round.waited.value) else r'
  }

  function AfterRounds(lim: Limits, r: Run, rounds: seq<Round>): Run {
    if rounds == [] then r else AfterRound(lim, AfterRounds(lim, r, rounds[..|rounds| - 1]), rounds[|rounds| - 1])
  }

  class Bufferer {
    const processor: BatchProcessor
    ghost var dequeued: seq<Item>
    ghost var surfaced: bool  // on_fatal was called

    constructor (processor: BatchProcessor)
      ensures this.processor == processor && dequeued == [] && !surfaced
    {
      this.processor, this.dequeued, this.surfaced := processor, [], false;
    }

    /** The run so far, given how the last call ended. */
    ghost function RunNow(out: Outcome): Run
      reads this, processor, processor.driver
    {
      Run(processor.Snapshot(), out, dequeued)
    }

    /** One queue entry; anything but Continue leaves the loop. */
    method Handle(item: Item) returns (out: Outcome)
      requires processor.Synced()
      modifies this, processor, processor.driver
      ensures processor.Synced() && RunNow(out) == AfterItem(processor.limits, old(RunNow(Continue)), item)
      ensures surfaced == (old(surfaced) || out.Fatal?)
    {
      dequeued := dequeued + [item];
      match item
      case Sentinel(flush) =>
        out := processor.Flush(flush);
        out := if out.Died? then Died else Drained;
      case Message(d) =>
        out := processor.ProcessMessage(d);
        if out.Fatal? {
          surfaced := true;
        }
    }

    /** Hand over a list of entries in order, up to the one that leaves the loop. */
    method Drain(items: seq<Item>) returns (out: Outcome)
      requires processor.Synced()
      modifies this, processor, processor.driver
      ensures processor.Synced() && RunNow(out) == AfterItems(processor.limits, old(RunNow(Continue)), items)
      ensures surfaced == (old(surfaced) || out.Fatal?)
    {
      ghost var r := RunNow(Continue);
      for j := 0 to |items|
        invariant processor.Synced() && surfaced == old(surfaced)
        invariant RunNow(Continue) == AfterItems(processor.limits, r, items[..j])
      {
        assert items[..j + 1][..j] == items[..j];
        out := Handle(items[j]);
        if !out.Continue? {
          LeftIsLeft(processor.limits, r, items, j + 1);
          return;
        }
      }
      assert items[..|items|] == items;
      out := Continue;
    }

    /** What follows an empty queue: the cancel check, then the idle tick. */
    method Tick(round: Round) returns (out: Outcome)
      requires processor.Synced()
      modifies this`surfaced, processor, processor.driver
      ensures processor.Synced() && RunNow(out) == AfterTick(processor.limits, old(RunNow(Continue)), round)
      ensures surfaced == (old(surfaced) || out.Fatal?)
    {
      if round.cancel {
        processor.NackEverything();
        return Cancelled;
      }
      out := processor.OnIdle(round.idleClock, round.idleFlush);
      if out.Fatal? {
        surfaced := true;
      }
    }

    /** One turn of the loop. */
    method Turn(round: Round) returns (out: Outcome)
      requires processor.Synced()
      modifies this, processor, processor.driver
      ensures processor.Synced() && RunNow(out) == AfterRound(processor.limits, old(RunNow(Continue)), round)
      ensures surfaced == (old(surfaced) || out.Fatal?)
    {
      out := Drain(round.drained);
      if !out.Continue? {
        return;
      }
      out := Tick(round);
      if out.Continue? && round.waited.Some? {
        out := Handle(round.waited.value);
      }
    }

    /** The drain loop over the turns the event loop grants; `Continue` means it is still running. */
    method Loop(rounds: seq<Round>) returns (out: Outcome)
      requires processor.Synced()
      modifies this, processor, processor.driver
      ensures processor.Synced() && RunNow(out) == AfterRounds(processor.limits, old(RunNow(Continue)), rounds)
      ensures surfaced == (old(surfaced) || out.Fatal?)
    {
      ghost var r := RunNow(Continue);
      for i := 0 to |rounds|
        invariant processor.Synced() && surfaced == old(surfaced)
        invariant RunNow(Continue) == AfterRounds(processor.limits, r, rounds[..i])
      {
        assert rounds[..i + 1][..i] == rounds[..i];
        out := Turn(rounds[i]);
        if !out.Continue? {
          LoopIsLeft(processor.limits, r, rounds, i + 1);
          return;
        }
      }
      assert rounds[..|rounds|] == rounds;
      out := Continue;
    }
  }

  /** A run that was left takes no more entries. */
  lemma {:induction false} LeftIsLeft(lim: Limits, r: Run, items: seq<Item>, n: nat)
    requires n <= |items| && !AfterItems(lim, r, items[..n]).out.Continue?
    ensures AfterItems(lim, r, items) == AfterItems(lim, r, items[..n])
    decreases |items| - n
  {
    if n == |items| {
      assert items[..n] == items;
    } else {
      assert items[..n + 1][..n] == items[..n];
      LeftIsLeft(lim, r, items, n + 1);
    }
  }

  lemma {:induction false} StaysLeft(lim: Limits, r: Run, items: seq<Item>)
    requires !r.out.Continue?
    ensures AfterItems(lim, r, items) == r
  {
    if items == [] {
    } else {
      StaysLeft(lim, r, items[..|items| - 1]);
    }
  }

  lemma {:induction false} LoopIsLeft(lim: Limits, r: Run, rounds: seq<Round>, n: nat)
    requires n <= |rounds| && !AfterRounds(lim, r, rounds[..n]).out.Continue?
    ensures AfterRounds(lim, r, rounds) == AfterRounds(lim, r, rounds[..n])
    decreases |rounds| - n
  {
    if n == |rounds| {
      assert rounds[..n] == rounds;
    } else {
      assert rounds[..n + 1][..n] == rounds[..n];
      StaysLeft(lim, AfterRounds(lim, r, rounds[..n]), rounds[n].drained);
      LoopIsLeft(lim, r, rounds, n + 1);
    }
  }

  // ---------- What every run keeps ----------

  /** The messages in a list of queue entries. */
  function Messages(items: seq<Item>): seq<Delivery> {
    if items == [] then []
    else
      var last := items[|items| - 1];
      Messages(items[..|items| - 1]) + if last.Message? then [last.delivery] else []
  }

  /** The messages that should_skip lets through, in delivery order. */
  function Kept(ds: seq<Delivery>): seq<Msg> {
    if ds == [] then [] else Kept(ds[..|ds| - 1]) + KeptOne(ds[|ds| - 1])
  }

  /** Every message with readable metadata has had ack or nak called, or is still pending. */
  ghost predicate AllTracked(ds: seq<Delivery>, v: View) {
    forall i :: 0 <= i < |ds| && ds[i].consumerSeq.Some? ==> ds[i].msg in v.settled || ds[i].msg in v.pending
  }

  /** A run still going: it kept exactly the non-skipped messages, accepted every message, and forgot none. */
  ghost predicate Going(lim: Limits, start: int, r: Run) {
    && Valid(lim, start, r.v)
    && r.v.processed == Kept(Messages(r.dequeued))
    && |r.v.accepted| == |Messages(r.dequeued)|
    && AllTracked(Messages(r.dequeued), r.v)
  }

  /** A run that was left: only whole prefixes were committed and acked, and a return settled everything. */
  ghost predicate Ended(start: int, r: Run) {
    && Durable(start, r.v)
    && r.v.processed <= Kept(Messages(r.dequeued))
    && (Returned(r.out) ==> r.v.pending == [] && AllTracked(Messages(r.dequeued), r.v))
  }

  ghost predicate Sound(lim: Limits, start: int, r: Run) {
    if r.out.Continue? then Going(lim, start, r) else Ended(start, r)
  }

  /** Tracking survives when every message that leaves the pending list is settled. */
  lemma TrackedFurther(ds: seq<Delivery>, v: View, v': View)
    requires AllTracked(ds, v) && v.settled <= v'.settled && NoneForgotten(v.pending, v')
    ensures AllTracked(ds, v')
  {
  }

  lemma OneMore(items: seq<Item>, item: Item)
    ensures Messages(items + [item]) == Messages(items) + if item.Message? then [item.delivery] else []
    ensures Kept(Messages(items + [item])) == Kept(Messages(items)) + if item.Message? then KeptOne(item.delivery) else []
  {
    assert (items + [item])[..|items|] == items;
    var ds := Messages(items);
    if item.Message? {
      assert (ds + [item.delivery])[..|ds|] == ds;
    } else {
      assert ds + [] == ds && Kept(ds) + [] == Kept(ds);
    }
  }

  lemma ItemKeepsSound(lim: Limits, start: int, r: Run, item: Item)
    requires Sound(lim, start, r)
    ensures Sound(lim, start, AfterItem(lim, r, item))
  {
    if r.out.Continue? {
      OneMore(r.dequeued, item);
      match item
      case Message(d) =>
        MessageKeeps(lim, start, r.v, d);
        MessageIsOrdered(lim, r.v, d);
        MessageIsSound(lim, start, r, d);
      case Sentinel(flush) =>
        FlushKeeps(lim, start, r.v, flush);
        SentinelIsSound(lim, start, r, flush);
    }
  }

  lemma MessageIsSound(lim: Limits, start: int, r: Run, d: Delivery)
    requires r.out.Continue? && Going(lim, start, r)
    requires var (v', out) := Processed(lim, r.v, d);
             && HandledWell(lim, start, r.v, d, v', out)
             && (out.Continue? ==> |v'.accepted| == |r.v.accepted| + 1)
    ensures Sound(lim, start, AfterItem(lim, r, Message(d)))
  {
    OneMore(r.dequeued, Message(d));
    var (v', out) := Processed(lim, r.v, d);
    if out.Continue? || Returned(out) {
      TrackedFurther(Messages(r.dequeued), r.v, v');
      assert d.msg in [d.msg];
    }
  }

  lemma SentinelIsSound(lim: Limits, start: int, r: Run, flush: FlushReplies)
    requires r.out.Continue? && Going(lim, start, r)
    requires var (v', out) := Flushed(r.v, flush); FlushedWell(lim, start, r.v, v', out)
    ensures Sound(lim, start, AfterItem(lim, r, Sentinel(flush)))
  {
    OneMore(r.dequeued, Sentinel(flush));
    var (v', out) := Flushed(r.v, flush);
    if !out.Died? {
      TrackedFurther(Messages(r.dequeued), r.v, v');
    }
  }

  lemma {:induction false} ItemsKeepSound(lim: Limits, start: int, r: Run, items: seq<Item>)
    requires Sound(lim, start, r)
    ensures Sound(lim, start, AfterItems(lim, r, items))
  {
    if items == [] {
    } else {
      ItemsKeepSound(lim, start, r, items[..|items| - 1]);
      ItemKeepsSound(lim, start, AfterItems(lim, r, items[..|items| - 1]), items[|items| - 1]);
    }
  }

  lemma TickKeepsSound(lim: Limits, start: int, r: Run, round: Round)
    requires Sound(lim, start, r)
    ensures Sound(lim, start, AfterTick(lim, r, round))
  {
    if r.out.Continue? {
      ValidIsDurable(start, r.v);
      IdleKeeps(lim, start, r.v, round.idleClock, round.idleFlush);
      var r' := AfterTick(lim, r, round);
      if r'.out.Continue? || Returned(r'.out) {
        TrackedFurther(Messages(r.dequeued), r.v, r'.v);
      }
    }
  }

  lemma RoundKeepsSound(lim: Limits, start: int, r: Run, round: Round)
    requires Sound(lim, start, r)
    ensures Sound(lim, start, AfterRound(lim, r, round))
  {
    ItemsKeepSound(lim, start, r, round.drained);
    var r1 := AfterItems(lim, r, round.drained);
    TickKeepsSound(lim, start, r1, round);
    if round.waited.Some? {
      ItemKeepsSound(lim, start, AfterTick(lim, r1, round), round.waited.value);
    }
  }

  lemma {:induction false} RoundsKeepSound(lim: Limits, start: int, r: Run, rounds: seq<Round>)
    requires Sound(lim, start, r)
    ensures Sound(lim, start, AfterRounds(lim, r, rounds))
  {
    if rounds == [] {
    } else {
      RoundsKeepSound(lim, start, r, rounds[..|rounds| - 1]);
      RoundKeepsSound(lim, start, AfterRounds(lim, r, rounds[..|rounds| - 1]), rounds[|rounds| - 1]);
    }
  }

  function FreshRun(sequence: int): Run {
    Run(Fresh(sequence), Continue, [])
  }

  /**
   Over any turns and any replies: acked implies committed, the committed SQL is the in-order SQL of a
   prefix of the kept messages, accepted sequences are contiguous; while the loop runs, pending and
   buffer match and the gauge counts what left; and when it has returned nothing is pending and every
   dequeued message with readable metadata has had ack or nak called.
   */
  lemma RunIsSound(lim: Limits, sequence: int, rounds: seq<Round>)
    requires 1 <= lim.max
    ensures Sound(lim, sequence, AfterRounds(lim, FreshRun(sequence), rounds))
  {
    RoundsKeepSound(lim, sequence, FreshRun(sequence), rounds);
  }

  // ---------- How a run is stopped ----------

  /**
   A cancelled turn first handles what the queue holds; then it naks what is pending, and neither commits nor
   acks nor dequeues anything more, however old the batch is.
   */
  lemma CancelledRun(lim: Limits, r: Run, round: Round)
    requires AfterItems(lim, r, round.drained).out.Continue? && round.cancel
    ensures var drained, r' := AfterItems(lim, r, round.drained), AfterRound(lim, r, round);
            && r'.out.Cancelled? && r'.v.pending == [] && (forall m :: m in drained.v.pending ==> m in r'.v.settled)
            && r'.v.committed == drained.v.committed && r'.v.acked == drained.v.acked && r'.dequeued == r.dequeued + round.drained
  {
    Dequeues(lim, r, round.drained);
  }

  /** A run that goes on has dequeued everything it was handed. */
  lemma {:induction false} Dequeues(lim: Limits, r: Run, items: seq<Item>)
    requires AfterItems(lim, r, items).out.Continue?
    ensures AfterItems(lim, r, items).dequeued == r.dequeued + items
  {
    if items == [] {
    } else {
      var front := items[..|items| - 1];
      Dequeues(lim, r, front);
      assert r.dequeued + items == (r.dequeued + front) + [items[|items| - 1]];
    }
  }

  /** The sentinel ends the run with a last flush: if its transaction and acks go well, everything pending is committed and acked. */
  lemma DrainedRun(lim: Limits, start: int, r: Run, acks: seq<AckReply>)
    requires r.out.Continue? && Valid(lim, start, r.v) && forall i :: 0 <= i < |acks| ==> acks[i].Acked?
    ensures var r' := AfterItem(lim, r, Sentinel(FlushReplies(Committed, acks)));
            && r'.out.Drained? && r'.v.pending == [] && r'.v.buffer == []
            && r'.v.committed == r.v.committed + r.v.buffer && r'.v.acked == r.v.acked + r.v.pending
  {
    FlushEndsAs(r.v, FlushReplies(Committed, acks));
    AcksAreExact(r.v, acks, |r.v.pending|);
    FlushKeeps(lim, start, r.v, FlushReplies(Committed, acks));
  }

  // ---------- Which messages a run keeps ----------

  /** Not stamped before its table's loaded cutoff, and not rejected by the validator. */
  predicate Wanted(d: Delivery) {
    !d.validation.Rejected? && (d.cutoffsLoaded && d.cutoff.CutoffAt? ==> d.timestamp * 1000 >= d.cutoff.micros)
  }

  function WantedOf(ds: seq<Delivery>): seq<Msg> {
    if ds == [] then []
    else WantedOf(ds[..|ds| - 1]) + if Wanted(ds[|ds| - 1]) then [ds[|ds| - 1].msg] else []
  }

  /** A run still going has buffered exactly the wanted messages, in order, and settled the others. */
  ghost predicate Sifted(r: Run) {
    r.out.Continue? ==>
      var ds := Messages(r.dequeued);
      r.v.processed == WantedOf(ds) && forall i :: 0 <= i < |ds| && !Wanted(ds[i]) ==> ds[i].msg in r.v.settled
  }

  lemma MessageGrows(lim: Limits, start: int, v: View, d: Delivery)
    requires Valid(lim, start, v) && Processed(lim, v, d).1.Continue?
    ensures var v' := Processed(lim, v, d).0;
            && v.settled <= v'.settled && (!Wanted(d) ==> d.msg in v'.settled)
            && v'.processed == v.processed + if Wanted(d) then [d.msg] else []
  {
    MessageIsOrdered(lim, v, d);
    MessageKeeps(lim, start, v, d);
    NoRejectContinues(lim, v, d);
    MessageIsKeptOrSkipped(lim, v, d);
  }

  lemma NoRejectContinues(lim: Limits, v: View, d: Delivery)
    requires Processed(lim, v, d).1.Continue?
    ensures d.consumerSeq == Some(v.sequence + 1) && d.decodes
  {
    if !(d.consumerSeq == Some(v.sequence + 1) && d.decodes) {
      RejectedIs(lim, v, d);
    }
  }

  lemma ItemSifts(lim: Limits, start: int, r: Run, item: Item)
    requires Sound(lim, start, r) && Sifted(r)
    ensures Sifted(AfterItem(lim, r, item))
  {
    if r.out.Continue? && item.Message? && Processed(lim, r.v, item.delivery).1.Continue? {
      MessageGrows(lim, start, r.v, item.delivery);
      OneMore(r.dequeued, item);
      SiftedFurther(Messages(r.dequeued), item.delivery, r.v, Processed(lim, r.v, item.delivery).0);
    }
  }

  lemma SiftedFurther(ds: seq<Delivery>, d: Delivery, v: View, v': View)
    requires v.processed == WantedOf(ds) && forall i :: 0 <= i < |ds| && !Wanted(ds[i]) ==> ds[i].msg in v.settled
    requires v.settled <= v'.settled && (!Wanted(d) ==> d.msg in v'.settled) && v'.processed == v.processed + if Wanted(d) then [d.msg] else []
    ensures v'.processed == WantedOf(ds + [d]) && forall i :: 0 <= i < |ds + [d]| && !Wanted((ds + [d])[i]) ==> (ds + [d])[i].msg in v'.settled
  {
    assert (ds + [d])[..|ds|] == ds;
  }

  lemma {:induction false} ItemsSift(lim: Limits, start: int, r: Run, items: seq<Item>)
    requires Sound(lim, start, r) && Sifted(r)
    ensures Sifted(AfterItems(lim, r, items))
  {
    if items == [] {
    } else {
      var front := items[..|items| - 1];
      ItemsSift(lim, start, r, front);
      ItemsKeepSound(lim, start, r, front);
      ItemSifts(lim, start, AfterItems(lim, r, front), items[|items| - 1]);
    }
  }

  lemma TickSifts(lim: Limits, start: int, r: Run, round: Round)
    requires Sound(lim, start, r) && Sifted(r)
    ensures Sifted(AfterTick(lim, r, round))
  {
    if r.out.Continue? {
      IdleKeeps(lim, start, r.v, round.idleClock, round.idleFlush);
    }
  }

  lemma {:induction false} RoundsSift(lim: Limits, start: int, r: Run, rounds: seq<Round>)
    requires Sound(lim, start, r) && Sifted(r)
    ensures Sifted(AfterRounds(lim, r, rounds))
  {
    if rounds == [] {
    } else {
      var front, round := rounds[..|rounds| - 1], rounds[|rounds| - 1];
      RoundsSift(lim, start, r, front);
      RoundsKeepSound(lim, start, r, front);
      var r0 := AfterRounds(lim, r, front);
      var r1 := AfterItems(lim, r0, round.drained);
      ItemsSift(lim, start, r0, round.drained);
      ItemsKeepSound(lim, start, r0, round.drained);
      TickSifts(lim, start, r1, round);
      TickKeepsSound(lim, start, r1, round);
      if round.waited.Some? {
        ItemSifts(lim, start, AfterTick(lim, r1, round), round.waited.value);
      }
    }
  }

  /**
   Which changes reach the destination: while the loop runs, the messages buffered so far are exactly
   those dequeued that are not stamped before their table's cutoff and not rejected, in order, and every
   other one has had its own ack called.
   */
  lemma RunKeepsWanted(lim: Limits, sequence: int, rounds: seq<Round>)
    requires 1 <= lim.max
    ensures Sifted(AfterRounds(lim, FreshRun(sequence), rounds))
  {
    RoundsSift(lim, sequence, FreshRun(sequence), rounds);
  }

  // ---------- When an exception escapes a run ----------

  /** The last entry dequeued is a decodable message on which should_skip raises. */
  predicate LastRaises(items: seq<Item>) {
    items != [] && var last := items[|items| - 1]; last.Message? && last.delivery.decodes && SkipRaises(last.delivery)
  }

  /** An escaping exception and its cause, as far as the run has got. */
  ghost predicate EscapeExplained(r: Run) {
    && (r.out.EscapedException? <==> LastRaises(r.dequeued) && |r.v.accepted| == |Messages(r.dequeued)|)
    && (r.out.EscapedException? ==> r.v.pending != [] && r.v.pending[|r.v.pending| - 1] == r.dequeued[|r.dequeued| - 1].delivery.msg)
  }

  lemma ItemExplains(lim: Limits, start: int, r: Run, item: Item)
    requires Sound(lim, start, r) && EscapeExplained(r)
    ensures EscapeExplained(AfterItem(lim, r, item))
  {
    if r.out.Continue? {
      OneMore(r.dequeued, item);
      if item.Message? {
        MessageEscapesIff(lim, r.v, item.delivery);
        MessageIsOrdered(lim, r.v, item.delivery);
      }
    }
  }

  lemma {:induction false} ItemsExplain(lim: Limits, start: int, r: Run, items: seq<Item>)
    requires Sound(lim, start, r) && EscapeExplained(r)
    ensures EscapeExplained(AfterItems(lim, r, items))
  {
    if items == [] {
    } else {
      var front := items[..|items| - 1];
      ItemsExplain(lim, start, r, front);
      ItemsKeepSound(lim, start, r, front);
      ItemExplains(lim, start, AfterItems(lim, r, front), items[|items| - 1]);
    }
  }

  lemma TickExplains(lim: Limits, start: int, r: Run, round: Round)
    requires Sound(lim, start, r) && EscapeExplained(r)
    ensures EscapeExplained(AfterTick(lim, r, round))
  {
    if r.out.Continue? {
      IdleKeeps(lim, start, r.v, round.idleClock, round.idleFlush);
    }
  }

  lemma {:induction false} RoundsExplain(lim: Limits, start: int, r: Run, rounds: seq<Round>)
    requires Sound(lim, start, r) && EscapeExplained(r)
    ensures EscapeExplained(AfterRounds(lim, r, rounds))
  {
    if rounds == [] {
    } else {
      var front, round := rounds[..|rounds| - 1], rounds[|rounds| - 1];
      RoundsExplain(lim, start, r, front);
      RoundsKeepSound(lim, start, r, front);
      var r0 := AfterRounds(lim, r, front);
      var r1 := AfterItems(lim, r0, round.drained);
      ItemsExplain(lim, start, r0, round.drained);
      ItemsKeepSound(lim, start, r0, round.drained);
      TickExplains(lim, start, r1, round);
      TickKeepsSound(lim, start, r1, round);
      if round.waited.Some? {
        ItemExplains(lim, start, AfterTick(lim, r1, round), round.waited.value);
      }
    }
  }

  /**
   The loop ends by an escaping exception if and only if the last message it dequeued was in sequence
   and decodable, and should_skip raises on it. That message is then still pending, with everything that
   was pending before it.
   */
  lemma RunEscapesIff(lim: Limits, sequence: int, rounds: seq<Round>)
    requires 1 <= lim.max
    ensures EscapeExplained(AfterRounds(lim, FreshRun(sequence), rounds))
  {
    RoundsExplain(lim, sequence, FreshRun(sequence), rounds);
  }
}
