/** The inductive invariant of the recovery protocol. */
module ProtocolInvariant {
  import opened Protocol

  /** The statuses a row may have gone through: at most NEW, RUNNING, ERROR, RUNNING, ERROR, FAILED. */
  predicate LegalTrail(t: Trail)
  {
    && |t| <= 6
    && t[0] == NEW
    && (|t| > 1 ==> t[1] == RUNNING)
    && (|t| > 2 ==> (t[2] == FINISHED || t[2] == IGNORED || t[2] == ERROR))
    && (|t| > 3 ==> t[2] == ERROR && (t[3] == RUNNING || t[3] == FAILED))
    && (|t| > 4 ==> t[3] == RUNNING && (t[4] == FINISHED || t[4] == IGNORED || t[4] == ERROR))
    && (|t| > 5 ==> t[4] == ERROR && t[5] == FAILED)
  }

  /** A status write that keeps a trail legal, by the number of values held before it. */
  predicate LegalWrite(t: Trail, status: Status)
  {
    match t[|t| - 1]
    case NEW => status == RUNNING
    case RUNNING => status == FINISHED || status == IGNORED || status == ERROR
    case ERROR => status == FAILED || (status == RUNNING && |t| == 3)
    case _ => false
  }

  lemma LegalTrailGrows(t: Trail, status: Status)
    requires LegalTrail(t)
    ensures LegalTrail(t + [status]) <==> LegalWrite(t, status)
  {
    var t' := t + [status];
    assert t'[|t|] == status;
    assert forall i | 0 <= i < |t| :: t'[i] == t[i];
  }

  /** The note the periodic task is at. */
  predicate AtNote(p: Periodic, n: nat)
  {
    p.phase != Idle && p.idx < |p.snapshot| && p.snapshot[p.idx].note == n
  }

  /** The thread at work on row n, if any, is the one that holds the lock of its host. */
  predicate WorkedOn(s: System, n: nat)
    requires n < |s.rows|
  {
    var h := s.rows[n].host;
    h in s.locks && s.locks[h] in s.threads && s.threads[s.locks[h]].note == n && AtWork(s.threads[s.locks[h]].pc)
  }

  predicate AtWork(pc: Pc) { pc.Handling? || pc.Saving? }

  /** The periodic task's call of _process_notification is about to return normally. */
  predicate PeriodicReturning(s: System)
  {
    s.periodic.phase == Processing && PERIODIC in s.threads &&
    s.threads[PERIODIC].pc.Leaving? && !s.threads[PERIODIC].pc.failed
  }

  predicate RowOk(s: System, n: nat)
    requires n < |s.rows|
  {
    var row := s.rows[n];
    && LegalTrail(row.trail)
    && (row.purged ==> Terminal(row.Status()))
    && (row.Status() == RUNNING ==> n in s.raised || WorkedOn(s, n))
    && (n in s.raised ==> row.Status() == RUNNING)
    && (|row.trail| == 5 && row.Status() == ERROR ==>
          AtNote(s.periodic, n) &&
          (s.periodic.phase == Reread || s.periodic.phase == MarkFailed || PeriodicReturning(s)))
  }

  predicate ThreadOk(s: System, t: nat)
    requires t in s.threads
  {
    var th := s.threads[t];
    && th.note < |s.rows|
    && (t != PERIODIC ==> th.copy == NEW)
    && (th.copy == NEW || th.copy == ERROR)
    && var row := s.rows[th.note];
       && (!th.pc.Waiting? ==> row.host in s.locks && s.locks[row.host] == t)
       && (th.copy == ERROR && (th.pc.Waiting? || th.pc.Holding? || th.pc.Passed?) ==>
             row.Status() == ERROR && |row.trail| == 3)
       && (th.copy == NEW && th.pc.Passed? ==> row.Status() == NEW)
       && (AtWork(th.pc) ==>
             row.Status() == RUNNING && th.note !in s.raised && |row.trail| == if th.copy == NEW then 2 else 4)
       && (th.pc.Saving? ==> (th.pc.outcome == FINISHED || th.pc.outcome == IGNORED || th.pc.outcome == ERROR))
  }

  predicate LockOk(s: System, h: nat)
    requires h in s.locks
  {
    var t := s.locks[h];
    t in s.threads && !s.threads[t].pc.Waiting? && s.threads[t].note < |s.rows| && s.rows[s.threads[t].note].host == h
  }

  /** Row n needs no more work: it ended, or its handler raised and it stays RUNNING. */
  predicate Settled(s: System, n: nat)
  {
    n < |s.rows| && (Terminal(s.rows[n].Status()) || (s.rows[n].Status() == RUNNING && n in s.raised))
  }

  predicate SettledOrError(s: System, n: nat)
  {
    n < |s.rows| && (Settled(s, n) || s.rows[n].Status() == ERROR)
  }

  /** Entry i of the snapshot, seen from position idx of the round. */
  predicate EntryOk(s: System, i: nat)
    requires i < |s.periodic.snapshot|
  {
    var p, e := s.periodic, s.periodic.snapshot[i];
    && e.note < |s.rows|
    && (e.status == NEW || e.status == ERROR)
    && (e.status == ERROR && (i < p.idx || (i == p.idx && p.phase != Turn)) ==> i in p.due)
    && (i in p.due ==> i < p.idx || (i == p.idx && p.phase != Turn))
    && (e.status == ERROR && (p.idx < i || (p.idx == i && p.phase == Turn)) ==>
          s.rows[e.note].Status() == ERROR && |s.rows[e.note].trail| == 3)
    && (i in p.due && i < p.idx ==> Settled(s, e.note))
    && (i in p.due && i == p.idx && (p.phase == Reread || PeriodicReturning(s)) ==>
          SettledOrError(s, e.note))
  }

  predicate PeriodicOk(s: System)
  {
    var p := s.periodic;
    && (PERIODIC in s.threads <==> p.phase == Processing)
    && (p.phase != Idle ==> p.idx <= |p.snapshot| && (p.phase != Turn ==> p.idx < |p.snapshot|))
    && (p.phase == Processing ==>
          p.idx in p.due &&
          s.threads[PERIODIC].note == p.snapshot[p.idx].note && s.threads[PERIODIC].copy == p.snapshot[p.idx].status)
    && (p.phase == MarkFailed ==>
          p.snapshot[p.idx].note < |s.rows| && s.rows[p.snapshot[p.idx].note].Status() == ERROR)
  }

  ghost predicate RowsInv(s: System)
  {
    (forall n | 0 <= n < |s.rows| :: RowOk(s, n)) && (forall n | n in s.raised :: n < |s.rows|)
  }

  ghost predicate ThreadsInv(s: System) { forall t | t in s.threads :: ThreadOk(s, t) }

  ghost predicate LocksInv(s: System) { forall h | h in s.locks :: LockOk(s, h) }

  ghost predicate SnapshotInv(s: System)
  {
    s.periodic.phase != Idle ==>
      && (forall i | 0 <= i < |s.periodic.snapshot| :: EntryOk(s, i))
      && (forall i, j | 0 <= i < j < |s.periodic.snapshot| :: s.periodic.snapshot[i].note != s.periodic.snapshot[j].note)
  }

  ghost predicate Inv(s: System)
  {
    RowsInv(s) && ThreadsInv(s) && LocksInv(s) && PeriodicOk(s) && SnapshotInv(s)
  }

  /** Thread t, which holds the lock of its row's host from here on, moves to another place of
      _process_notification; of the rows it may change only its own. */
  predicate MoveOf(s: System, s': System, t: nat)
  {
    && Stands(s, t) && Stands(s', t)
    && var n := s.threads[t].note;
       var h := s.rows[n].host;
       && s'.threads == s.threads[t := s.threads[t].(pc := s'.threads[t].pc)]
       && |s'.rows| == |s.rows| && s'.rows == s.rows[n := s'.rows[n]] && s'.rows[n].host == h
       && s'.periodic == s.periodic
       && s.raised <= s'.raised && s'.raised <= s.raised + {n}
       && (if s.threads[t].pc.Waiting? then h !in s.locks && s'.locks == s.locks[h := t] else s'.locks == s.locks)
       && (s'.rows[n] != s.rows[n] ==> !Settled(s, n) && (s.rows[n].Status() == ERROR ==> t == PERIODIC))
  }

  /** What is left to show of a move: the thread and its row. */
  predicate MoveOk(s: System, s': System, t: nat)
  {
    && MoveOf(s, s', t)
    && ThreadOk(s', t)
    && !s'.threads[t].pc.Waiting?
    && RowOk(s', s'.threads[t].note)
    && (t == PERIODIC && s'.threads[t].pc == Leaving(false) ==> SettledOrError(s', s'.threads[t].note))
  }

  lemma MoveKeepsThreads(s: System, s': System, t: nat)
    requires ThreadsInv(s) && MoveOk(s, s', t)
    ensures ThreadsInv(s')
  {
    assert ThreadOk(s, t);
    forall u | u in s'.threads ensures ThreadOk(s', u) { assert ThreadOk(s, u); }
  }

  lemma MoveKeepsLocks(s: System, s': System, t: nat)
    requires LocksInv(s) && MoveOk(s, s', t)
    ensures LocksInv(s')
  {
    forall h | h in s'.locks ensures LockOk(s', h) {
      if h in s.locks { assert LockOk(s, h); }
    }
  }

  lemma MoveKeepsRows(s: System, s': System, t: nat)
    requires RowsInv(s) && PeriodicOk(s) && MoveOk(s, s', t)
    ensures RowsInv(s')
  {
    forall n | 0 <= n < |s'.rows| ensures RowOk(s', n) {
      assert RowOk(s, n);
    }
  }

  lemma MoveKeepsSnapshot(s: System, s': System, t: nat)
    requires ThreadsInv(s) && PeriodicOk(s) && SnapshotInv(s) && MoveOk(s, s', t)
    ensures SnapshotInv(s')
  {
    assert ThreadOk(s, t);
    if s.periodic.phase != Idle {
      forall i | 0 <= i < |s.periodic.snapshot| ensures EntryOk(s', i) {
        assert EntryOk(s, i);
        if s.periodic.phase == Processing { assert ThreadOk(s, PERIODIC); }
      }
    }
  }

  lemma MoveKeeps(s: System, s': System, t: nat)
    requires Inv(s) && MoveOk(s, s', t)
    ensures Inv(s')
  {
    MoveKeepsThreads(s, s', t);
    MoveKeepsLocks(s, s', t);
    MoveKeepsRows(s, s', t);
    MoveKeepsSnapshot(s, s', t);
  }

  lemma CheckRowMoves(s: System, t: nat)
    requires At(s, t, Holding) && ThreadOk(s, t) && RowOk(s, s.threads[t].note)
    ensures MoveOk(s, Checked(s, t), t)
  {
  }

  lemma AcquireMoves(s: System, t: nat)
    requires CanAcquire(s, t) && ThreadsInv(s) && RowsInv(s)
    ensures MoveOk(s, Acquired(s, t), t)
  {
    assert ThreadOk(s, t) && RowOk(s, s.threads[t].note);
  }

  lemma StartRunMoves(s: System, t: nat)
    requires At(s, t, Passed) && ThreadsInv(s) && RowsInv(s)
    ensures MoveOk(s, Started(s, t), t)
  {
    assert ThreadOk(s, t) && RowOk(s, s.threads[t].note);
  }

  lemma MarkHostMoves(s: System, t: nat)
    requires CanMarkHost(s, t) && ThreadsInv(s) && RowsInv(s)
    ensures MoveOk(s, HostMarked(s, t), t)
  {
    assert ThreadOk(s, t) && RowOk(s, s.threads[t].note);
  }

  lemma ReturnMoves(s: System, t: nat, outcome: Status)
    requires CanReturn(s, t, outcome) && ThreadsInv(s) && RowsInv(s)
    ensures MoveOk(s, SetPc(s, t, Saving(outcome)), t)
  {
    assert ThreadOk(s, t) && RowOk(s, s.threads[t].note);
  }

  lemma RaiseMoves(s: System, t: nat)
    requires CanRaise(s, t) && ThreadsInv(s) && RowsInv(s)
    ensures MoveOk(s, Raised(s, t), t)
  {
    assert ThreadOk(s, t) && RowOk(s, s.threads[t].note);
  }

  lemma SaveMoves(s: System, t: nat)
    requires CanSave(s, t) && ThreadsInv(s) && RowsInv(s) && PeriodicOk(s)
    ensures MoveOk(s, Saved(s, t), t)
  {
    assert ThreadOk(s, t) && RowOk(s, s.threads[t].note);
    LegalTrailGrows(s.rows[s.threads[t].note].trail, s.threads[t].pc.outcome);
  }

  /** s' extends s by steps that touch neither threads, locks nor trails. */
  predicate Quiet(s: System, s': System)
  {
    && s'.threads == s.threads && s'.locks == s.locks && s'.raised == s.raised
    && |s.rows| <= |s'.rows|
    && forall n | 0 <= n < |s.rows| :: SameTrail(s.rows[n], s'.rows[n])
  }

  predicate SameTrail(row: Row, row': Row) { row'.host == row.host && row'.trail == row.trail }

  lemma QuietKeepsThreads(s: System, s': System)
    requires ThreadsInv(s) && LocksInv(s) && Quiet(s, s')
    ensures ThreadsInv(s') && LocksInv(s')
  {
    forall t | t in s'.threads ensures ThreadOk(s', t) {
      assert ThreadOk(s, t) && SameTrail(s.rows[s.threads[t].note], s'.rows[s.threads[t].note]);
    }
    forall h | h in s'.locks ensures LockOk(s', h) {
      assert LockOk(s, h) && SameTrail(s.rows[s.threads[s.locks[h]].note], s'.rows[s.threads[s.locks[h]].note]);
    }
  }

  lemma QuietKeepsSnapshot(s: System, s': System)
    requires SnapshotInv(s) && PeriodicOk(s) && Quiet(s, s') && s'.periodic == s.periodic
    ensures SnapshotInv(s') && PeriodicOk(s')
  {
    if s.periodic.phase != Idle {
      forall i | 0 <= i < |s.periodic.snapshot| ensures EntryOk(s', i) {
        assert EntryOk(s, i) && SameTrail(s.rows[s.periodic.snapshot[i].note], s'.rows[s.periodic.snapshot[i].note]);
      }
    }
  }

  /** API transactions on hosts and segments touch nothing the invariant speaks of. */
  lemma HostsKeep(s: System, s': System)
    requires Inv(s) && s' == s.(hosts := s'.hosts, segments := s'.segments)
    ensures Inv(s')
  {
    QuietKeepsThreads(s, s');
    QuietKeepsSnapshot(s, s');
    forall n | 0 <= n < |s'.rows| ensures RowOk(s', n) { assert RowOk(s, n); }
  }

  lemma CreateNotificationKeeps(s: System, row: Row)
    requires Inv(s) && row.trail == [NEW] && !row.purged
    ensures Inv(s.(rows := s.rows + [row]))
  {
    var s' := s.(rows := s.rows + [row]);
    QuietKeepsThreads(s, s');
    QuietKeepsSnapshot(s, s');
    forall n | 0 <= n < |s'.rows| ensures RowOk(s', n) { if n < |s.rows| { assert RowOk(s, n); } }
  }

  lemma PurgeKeeps(s: System, notes: set<nat>)
    requires Inv(s) && forall n | n in notes :: Live(s, n) && Terminal(s.rows[n].Status())
    ensures Inv(Purged(s, notes))
  {
    var s' := Purged(s, notes);
    QuietKeepsThreads(s, s');
    QuietKeepsSnapshot(s, s');
    forall n | 0 <= n < |s'.rows| ensures RowOk(s', n) { assert RowOk(s, n); }
  }

  lemma ReleaseKeepsThreads(s: System, t: nat)
    requires ThreadsInv(s) && LocksInv(s) && CanRelease(s, t)
    ensures ThreadsInv(Released(s, t)) && LocksInv(Released(s, t))
  {
    var s' := Released(s, t);
    assert ThreadOk(s, t);
    forall u | u in s'.threads ensures ThreadOk(s', u) { assert ThreadOk(s, u); }
    forall h | h in s'.locks ensures LockOk(s', h) { assert LockOk(s, h); }
  }

  lemma ReleaseKeepsRows(s: System, t: nat)
    requires RowsInv(s) && ThreadsInv(s) && PeriodicOk(s) && CanRelease(s, t)
    ensures RowsInv(Released(s, t))
  {
    var s' := Released(s, t);
    assert ThreadOk(s, t);
    forall n | 0 <= n < |s'.rows| ensures RowOk(s', n) { assert RowOk(s, n); }
  }

  lemma ReleaseKeeps(s: System, t: nat)
    requires Inv(s) && CanRelease(s, t)
    ensures Inv(Released(s, t))
  {
    var s' := Released(s, t);
    ReleaseKeepsThreads(s, t);
    ReleaseKeepsRows(s, t);
    if s'.periodic.phase != Idle {
      forall i | 0 <= i < |s.periodic.snapshot| ensures EntryOk(s', i) { assert EntryOk(s, i); }
    }
  }

  lemma DeliverKeeps(s: System, t: nat, n: nat)
    requires Inv(s) && CanDeliver(s, t, n)
    ensures Inv(Delivered(s, t, n))
  {
    var s' := Delivered(s, t, n);
    forall u | u in s'.threads ensures ThreadOk(s', u) { if u != t { assert ThreadOk(s, u); } }
    forall h | h in s'.locks ensures LockOk(s', h) { assert LockOk(s, h); }
    forall m | 0 <= m < |s'.rows| ensures RowOk(s', m) { assert RowOk(s, m); }
    if s'.periodic.phase != Idle {
      forall i | 0 <= i < |s.periodic.snapshot| ensures EntryOk(s', i) { assert EntryOk(s, i); }
    }
  }

  lemma BeginRoundKeeps(s: System, snapshot: seq<Entry>)
    requires Inv(s) && s.periodic.phase == Idle && IsSnapshot(s, snapshot)
    ensures Inv(RoundBegun(s, snapshot))
  {
    var s' := RoundBegun(s, snapshot);
    QuietKeepsThreads(s, s');
    forall n | 0 <= n < |s'.rows| ensures RowOk(s', n) { assert RowOk(s, n); }
    forall i | 0 <= i < |snapshot| ensures EntryOk(s', i) { assert RowOk(s, snapshot[i].note); }
  }

  lemma TakeTurnKeepsRows(s: System, tooOld: bool)
    requires RowsInv(s) && LocksInv(s) && PeriodicOk(s) && InRound(s, Turn)
    ensures RowsInv(TurnTaken(s, tooOld)) && LocksInv(TurnTaken(s, tooOld))
  {
    var s' := TurnTaken(s, tooOld);
    forall h | h in s'.locks ensures LockOk(s', h) { assert LockOk(s, h); }
    forall n | 0 <= n < |s'.rows| ensures RowOk(s', n) { assert RowOk(s, n); }
  }

  lemma TakeTurnKeepsThreads(s: System, tooOld: bool)
    requires ThreadsInv(s) && InRound(s, Turn) && EntryOk(s, s.periodic.idx)
    ensures ThreadsInv(TurnTaken(s, tooOld))
  {
    var s' := TurnTaken(s, tooOld);
    forall u | u in s'.threads ensures ThreadOk(s', u) { if u in s.threads { assert ThreadOk(s, u); } }
  }

  lemma TakeTurnKeeps(s: System, tooOld: bool)
    requires Inv(s) && InRound(s, Turn)
    ensures Inv(TurnTaken(s, tooOld))
  {
    var s' := TurnTaken(s, tooOld);
    assert EntryOk(s, s.periodic.idx);
    TakeTurnKeepsRows(s, tooOld);
    TakeTurnKeepsThreads(s, tooOld);
    forall i | 0 <= i < |s.periodic.snapshot| ensures EntryOk(s', i) { assert EntryOk(s, i); }
  }

  lemma RereadKeeps(s: System)
    requires Inv(s) && InRound(s, Reread)
    ensures Inv(RowReread(s))
  {
    var s' := RowReread(s);
    assert EntryOk(s, s.periodic.idx);
    assert RowOk(s, s.periodic.snapshot[s.periodic.idx].note);
    QuietKeepsThreads(s, s');
    forall n | 0 <= n < |s'.rows| ensures RowOk(s', n) { assert RowOk(s, n); }
    if s'.periodic.phase != Idle {
      forall i | 0 <= i < |s.periodic.snapshot| ensures EntryOk(s', i) { assert EntryOk(s, i); }
    }
  }

  lemma WriteFailedKeepsThreads(s: System)
    requires ThreadsInv(s) && LocksInv(s) && PeriodicOk(s) && InRound(s, MarkFailed)
    ensures ThreadsInv(FailedWritten(s)) && LocksInv(FailedWritten(s))
  {
    var s' := FailedWritten(s);
    forall u | u in s'.threads ensures ThreadOk(s', u) { assert ThreadOk(s, u); }
    forall h | h in s'.locks ensures LockOk(s', h) { assert LockOk(s, h); }
  }

  lemma WriteFailedKeepsRows(s: System)
    requires RowsInv(s) && PeriodicOk(s) && InRound(s, MarkFailed)
    ensures RowsInv(FailedWritten(s))
  {
    var s' := FailedWritten(s);
    var n := s.periodic.snapshot[s.periodic.idx].note;
    assert RowOk(s, n);
    LegalTrailGrows(s.rows[n].trail, FAILED);
    forall m | 0 <= m < |s'.rows| ensures RowOk(s', m) { assert RowOk(s, m); }
  }

  lemma WriteFailedKeeps(s: System)
    requires Inv(s) && InRound(s, MarkFailed)
    ensures Inv(FailedWritten(s))
  {
    var s' := FailedWritten(s);
    WriteFailedKeepsThreads(s);
    WriteFailedKeepsRows(s);
    forall i | 0 <= i < |s.periodic.snapshot| ensures EntryOk(s', i) { assert EntryOk(s, i); }
  }

  lemma EndRoundKeeps(s: System)
    requires Inv(s) && RoundOver(s)
    ensures Inv(s.(periodic := s.periodic.(phase := Idle)))
  {
    var s' := s.(periodic := s.periodic.(phase := Idle));
    QuietKeepsThreads(s, s');
    forall n | 0 <= n < |s'.rows| ensures RowOk(s', n) { assert RowOk(s, n); }
  }

  lemma ApiStepKeeps(s: System, a: Action, s': System)
    requires Inv(s) && Next(s, a, s') && IsApi(a)
    ensures Inv(s')
  {
    match a {
      case CreateNotification(host, kind, payload, generated) =>
        CreateNotificationKeeps(s, Row(host, kind, payload, generated, [NEW], false));
      case Purge(notes) => PurgeKeeps(s, notes);
      case _ => HostsKeep(s, s');
    }
  }

  lemma RoundStepKeeps(s: System, a: Action, s': System)
    requires Inv(s) && Next(s, a, s') && IsRound(a)
    ensures Inv(s')
  {
    match a {
      case BeginRound(snapshot) => BeginRoundKeeps(s, snapshot);
      case TakeTurn(tooOld) => TakeTurnKeeps(s, tooOld);
      case RereadRow => RereadKeeps(s);
      case WriteFailed => WriteFailedKeeps(s);
      case EndRound => EndRoundKeeps(s);
    }
  }

  lemma ThreadStepKeeps(s: System, a: Action, s': System)
    requires Inv(s) && Next(s, a, s') && !IsApi(a) && !IsRound(a)
    ensures Inv(s')
  {
    match a {
      case Deliver(t, n) => DeliverKeeps(s, t, n);
      case Release(t) => ReleaseKeeps(s, t);
      case Acquire(t) => AcquireMoves(s, t); MoveKeeps(s, s', t);
      case CheckRow(t) => assert ThreadOk(s, t) && RowOk(s, s.threads[t].note); CheckRowMoves(s, t); MoveKeeps(s, s', t);
      case StartRun(t) => StartRunMoves(s, t); MoveKeeps(s, s', t);
      case MarkHost(t) => MarkHostMoves(s, t); MoveKeeps(s, s', t);
      case Return(t, outcome) => ReturnMoves(s, t, outcome); MoveKeeps(s, s', t);
      case Raise(t) => RaiseMoves(s, t); MoveKeeps(s, s', t);
      case SaveOutcome(t) => SaveMoves(s, t); MoveKeeps(s, s', t);
    }
  }

  /** Every step of the system keeps the invariant. */
  lemma StepKeeps(s: System, a: Action, s': System)
    requires Inv(s) && Next(s, a, s')
    ensures Inv(s')
  {
    if IsApi(a) {
      ApiStepKeeps(s, a, s');
    } else if IsRound(a) {
      RoundStepKeeps(s, a, s');
    } else {
      ThreadStepKeeps(s, a, s');
    }
  }

  /** Every state of every run satisfies the invariant. */
  lemma {:induction false} RunKeeps(states: seq<System>, actions: seq<Action>, i: nat)
    requires IsRun(states, actions) && i < |states|
    ensures Inv(states[i])
  {
    if i == 0 {
    } else {
      RunKeeps(states, actions, i - 1);
      StepKeeps(states[i - 1], actions[i - 1], states[i]);
    }
  }
}
