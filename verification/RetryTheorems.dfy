/** Which notifications the periodic task retries before it gives them up as FAILED. */
module RetryTheorems {
  import opened Options
  import opened Protocol
  import opened ProtocolInvariant
  import opened RecoveryTheorems

  /** Entry i of the snapshot: one listed as NEW has had no retry while the round is not past it; one
      listed as ERROR whose turn leaves it in ERROR has had its retry. */
  predicate RetryOk(s: System, i: nat)
    requires i < |s.periodic.snapshot|
  {
    var p, e := s.periodic, s.periodic.snapshot[i];
    && e.note < |s.rows|
    && (e.status == NEW && p.idx <= i ==> |s.rows[e.note].trail| <= 3)
    && (e.status == ERROR && i == p.idx && AfterTurn(s) && s.rows[e.note].Status() == ERROR ==> |s.rows[e.note].trail| == 5)
  }

  /** The round is past its call of _process_notification for the current entry. */
  predicate AfterTurn(s: System)
  {
    s.periodic.phase == Reread || s.periodic.phase == MarkFailed || PeriodicReturning(s)
  }

  ghost predicate RetryInv(s: System)
  {
    s.periodic.phase != Idle ==> forall i | 0 <= i < |s.periodic.snapshot| :: RetryOk(s, i)
  }

  lemma BeginRoundRetry(s: System, snapshot: seq<Entry>)
    requires RowsInv(s) && IsSnapshot(s, snapshot)
    ensures RetryInv(RoundBegun(s, snapshot))
  {
    var s' := RoundBegun(s, snapshot);
    forall i | 0 <= i < |snapshot| ensures RetryOk(s', i) { assert RowOk(s, snapshot[i].note); }
  }

  /** How a step of the round itself moves it: on to a later phase of the turn, or to the next turn, with
      no row written but that of the turn it leaves. */
  lemma RoundMoves(s: System, a: Action, s': System)
    requires PeriodicOk(s) && Next(s, a, s') && IsRound(a) && !a.BeginRound? && s'.periodic.phase != Idle
    ensures s.periodic.phase != Idle && s'.periodic.snapshot == s.periodic.snapshot && |s'.rows| == |s.rows|
    ensures s.periodic.idx <= s'.periodic.idx && s.periodic.idx < |s.periodic.snapshot|
    ensures AfterTurn(s') ==> s'.periodic.idx == s.periodic.idx &&
                              (AfterTurn(s) || s.periodic.snapshot[s.periodic.idx].status != ERROR)
    ensures forall n | 0 <= n < |s.rows| && s'.rows[n] != s.rows[n] ::
              s.periodic.idx < s'.periodic.idx && n == s.periodic.snapshot[s.periodic.idx].note
  {
  }

  lemma RoundStepRetry(s: System, a: Action, s': System)
    requires SnapshotInv(s) && PeriodicOk(s) && RetryInv(s) && Next(s, a, s') && IsRound(a) && !a.BeginRound?
    ensures RetryInv(s')
  {
    hide Next, EntryOk, AfterTurn;
    if s'.periodic.phase != Idle {
      RoundMoves(s, a, s');
      forall i | 0 <= i < |s'.periodic.snapshot| ensures RetryOk(s', i) {
        assert RetryOk(s, i);
      }
    }
  }

  lemma ApiStepRetry(s: System, a: Action, s': System)
    requires RetryInv(s) && Next(s, a, s') && IsApi(a)
    ensures RetryInv(s')
  {
    hide Next;
    ApiKeepsRound(s, a, s');
    if s'.periodic.phase != Idle {
      forall i | 0 <= i < |s'.periodic.snapshot| ensures RetryOk(s', i) {
        assert RetryOk(s, i);
        ApiWritesNoStatus(s, a, s', s.periodic.snapshot[i].note);
      }
    }
  }

  lemma ApiKeepsRound(s: System, a: Action, s': System)
    requires Next(s, a, s') && IsApi(a)
    ensures s'.periodic == s.periodic && s'.threads == s.threads
  {
  }

  /** A thread's step leaves the round alone but when the periodic task's own call returns. */
  lemma ThreadKeepsRound(s: System, a: Action, s': System)
    requires Next(s, a, s') && !IsApi(a) && !IsRound(a) && a != Release(PERIODIC)
    ensures s'.periodic == s.periodic
    ensures PeriodicReturning(s') ==>
              PeriodicReturning(s) ||
              (s.periodic.phase == Processing && PERIODIC in s.threads &&
               (a == SaveOutcome(PERIODIC) || (a == CheckRow(PERIODIC) && s.threads[PERIODIC].copy == NEW)))
  {
  }

  /** A thread that handles a NEW copy writes the second and third value of a trail, the retry of the
      periodic task the fourth and fifth. */
  lemma ThreadWrites(s: System, a: Action, s': System, n: nat)
    requires ThreadsInv(s) && RowsInv(s) && Next(s, a, s') && (a.StartRun? || a.SaveOutcome?)
    requires n < |s.rows| && n < |s'.rows| && Target(s, a) == Some(n)
    ensures Stands(s, a.thread) && s.threads[a.thread].note == n
    ensures |s'.rows[n].trail| == (if a.StartRun? then 2 else 3) + if s.threads[a.thread].copy == NEW then 0 else 2
    ensures a.StartRun? ==> s'.rows[n].Status() == RUNNING
    ensures a.SaveOutcome? ==> s.rows[n].Status() == RUNNING && n !in s.raised
    ensures s.threads[a.thread].copy == ERROR ==> a.thread == PERIODIC
  {
    assert ThreadOk(s, a.thread) && RowOk(s, n);
  }

  lemma TargetIsWriter(s: System, a: Action, s': System, n: nat)
    requires Next(s, a, s') && !IsApi(a) && !IsRound(a) && Target(s, a) == Some(n)
    ensures a.StartRun? || a.SaveOutcome?
  {
  }

  lemma ThreadStepRetry(s: System, a: Action, s': System)
    requires Inv(s) && RetryInv(s) && Next(s, a, s') && !IsApi(a) && !IsRound(a) && a != Release(PERIODIC)
    ensures RetryInv(s')
  {
    hide Next;
    ThreadKeepsRound(s, a, s');
    if s'.periodic.phase != Idle {
      forall i | 0 <= i < |s'.periodic.snapshot| ensures RetryOk(s', i) {
        EntryRetry(s, a, s', i);
      }
    }
  }

  lemma EntryRetry(s: System, a: Action, s': System, i: nat)
    requires Inv(s) && RetryInv(s) && Next(s, a, s') && !IsApi(a) && !IsRound(a) && a != Release(PERIODIC)
    requires s.periodic.phase != Idle && s'.periodic == s.periodic && i < |s.periodic.snapshot|
    ensures RetryOk(s', i)
  {
    hide Next, LegalTrail, LegalWrite;
    var n := s.periodic.snapshot[i].note;
    assert RetryOk(s, i) && EntryOk(s, i);
    ThreadKeepsRound(s, a, s');
    WritesAreLegal(s, a, s', n);
    if Target(s, a) == Some(n) {
      TargetIsWriter(s, a, s', n);
      ThreadWrites(s, a, s', n);
      WriterOfEntry(s, a, i);
    }
  }

  /** The periodic task's own thread writes only the row of the current entry, others only with NEW
      copies, and not while that entry is past its turn. */
  lemma WriterOfEntry(s: System, a: Action, i: nat)
    requires Inv(s) && s.periodic.phase != Idle && i < |s.periodic.snapshot| && EntryOk(s, i)
    requires (a.StartRun? || a.SaveOutcome?) && Stands(s, a.thread) && s.threads[a.thread].note == s.periodic.snapshot[i].note
    ensures a.thread == PERIODIC ==> i == s.periodic.idx && s.threads[PERIODIC].copy == s.periodic.snapshot[i].status
    ensures a.thread != PERIODIC ==> s.threads[a.thread].copy == NEW
  {
    assert ThreadOk(s, a.thread) && RowOk(s, s.threads[a.thread].note);
  }

  lemma ReleaseRetry(s: System, s': System)
    requires RetryInv(s) && PeriodicOk(s) && Next(s, Release(PERIODIC), s')
    ensures RetryInv(s')
  {
    if s'.periodic.phase != Idle {
      forall i | 0 <= i < |s'.periodic.snapshot| ensures RetryOk(s', i) { assert RetryOk(s, i); }
    }
  }

  lemma StepKeepsRetry(s: System, a: Action, s': System)
    requires Inv(s) && RetryInv(s) && Next(s, a, s')
    ensures RetryInv(s')
  {
    if a.BeginRound? {
      BeginRoundRetry(s, a.snapshot);
    } else {
      hide Next, RetryInv, Inv;
      if IsApi(a) {
        ApiStepRetry(s, a, s');
      } else if IsRound(a) {
        RoundOfInv(s);
        RoundStepRetry(s, a, s');
      } else if a == Release(PERIODIC) {
        RoundOfInv(s);
        ReleaseRetry(s, s');
      } else {
        ThreadStepRetry(s, a, s');
      }
    }
  }

  lemma {:induction false} RunKeepsRetry(states: seq<System>, actions: seq<Action>, i: nat)
    requires IsRun(states, actions) && i < |states|
    ensures RetryInv(states[i])
  {
    hide Next, Inv;
    if i == 0 {
    } else {
      RunKeepsRetry(states, actions, i - 1);
      RunKeeps(states, actions, i - 1);
      StepKeepsRetry(states[i - 1], actions[i - 1], states[i]);
    }
  }

  /** A notification that the periodic task gives up as FAILED has had a second run of its workflow if
      and only if the round had listed it as ERROR; one listed as NEW gets none. */
  lemma FailedAfterRetryIffListedAsError(states: seq<System>, actions: seq<Action>, i: nat)
    requires IsRun(states, actions) && i < |actions| && actions[i] == WriteFailed
    ensures InRound(states[i], MarkFailed)
    ensures var e := states[i].periodic.snapshot[states[i].periodic.idx];
            && e.note < |states[i + 1].rows| && states[i + 1].rows[e.note].Status() == FAILED
            && Starts(states, actions, i, e.note, NEW) == 1
            && (Starts(states, actions, i, e.note, ERROR) == 1 <==> e.status == ERROR)
  {
    var s := states[i];
    assert Next(s, WriteFailed, states[i + 1]);
    RunKeeps(states, actions, i);
    RunKeepsRetry(states, actions, i);
    var e := s.periodic.snapshot[s.periodic.idx];
    assert RetryOk(s, s.periodic.idx) && EntryOk(s, s.periodic.idx) && RowOk(s, e.note);
    RecoveryStartsAtMostTwice(states, actions, i, e.note);
  }

  // ----- An ERROR that is never retried -----

  /** The states of a run in which the periodic task lists a notification as NEW, a worker then runs its
      workflow, which fails, and the round, at its turn, finds it in ERROR. */
  function Case(step: nat): System
  {
    var trail: Trail := if step < 8 then [NEW] else if step < 10 then [NEW, RUNNING]
                        else if step < 14 then [NEW, RUNNING, ERROR] else [NEW, RUNNING, ERROR, FAILED];
    var pc := if step == 5 then Waiting else if step == 6 then Holding else if step == 7 then Passed
              else if step == 8 then Handling(false) else if step == 9 then Saving(ERROR) else Leaving(false);
    System(if step == 0 then {} else {1},
           if step < 2 then map[] else map[7 := Host("node", 1, false, false)],
           if step < 3 then [] else [Row(7, VM, Payload(OTHER, "vm"), 0, trail, false)],
           if step < 6 || step > 10 then map[] else map[7 := 1],
           if step < 5 || step > 10 then map[] else map[1 := Thread(0, NEW, pc)],
           if step < 4 then Periodic(Idle, [], 0, {})
           else if step < 12 then Periodic(Turn, [Entry(0, NEW)], 0, {})
           else if step == 12 then Periodic(Reread, [Entry(0, NEW)], 0, {})
           else if step == 13 then Periodic(MarkFailed, [Entry(0, NEW)], 0, {})
           else Periodic(Turn, [Entry(0, NEW)], 1, {}),
           {}, 180)
  }

  const CASE_ACTIONS := [
    CreateSegment(1), CreateHost(1, 7, "node", false, false), CreateNotification(7, VM, Payload(OTHER, "vm"), 0),
    BeginRound([Entry(0, NEW)]), Deliver(1, 0), Acquire(1), CheckRow(1), StartRun(1), Return(1, ERROR), SaveOutcome(1),
    Release(1), TakeTurn(false), RereadRow, WriteFailed]

  lemma CaseSegment()
    ensures Init(Case(0))
    ensures Next(Case(0), CreateSegment(1), Case(1))
  {
  }

  lemma CaseHost()
    ensures Next(Case(1), CreateHost(1, 7, "node", false, false), Case(2))
  {
  }

  lemma CaseNotification()
    ensures Next(Case(2), CreateNotification(7, VM, Payload(OTHER, "vm"), 0), Case(3))
  {
  }

  lemma CaseListed()
    ensures Next(Case(3), BeginRound([Entry(0, NEW)]), Case(4))
  {
    assert Entry(0, NEW) in [Entry(0, NEW)];
  }

  lemma CaseDelivered()
    ensures Next(Case(4), Deliver(1, 0), Case(5))
  {
  }

  lemma CaseAcquired()
    ensures Next(Case(5), Acquire(1), Case(6))
  {
  }

  lemma CaseChecked()
    ensures Next(Case(6), CheckRow(1), Case(7))
  {
  }

  lemma CaseStarted()
    ensures Next(Case(7), StartRun(1), Case(8))
  {
    assert [NEW] + [RUNNING] == [NEW, RUNNING];
  }

  lemma CaseReturned()
    ensures Next(Case(8), Return(1, ERROR), Case(9))
  {
  }

  lemma CaseSaved()
    ensures Next(Case(9), SaveOutcome(1), Case(10))
  {
    assert [NEW, RUNNING] + [ERROR] == [NEW, RUNNING, ERROR];
  }

  lemma CaseReleased()
    ensures Next(Case(10), Release(1), Case(11))
  {
  }

  lemma CaseTurn()
    ensures Next(Case(11), TakeTurn(false), Case(12))
  {
  }

  lemma CaseReread()
    ensures Next(Case(12), RereadRow, Case(13))
  {
  }

  lemma CaseGivenUp()
    ensures Next(Case(13), WriteFailed, Case(14))
  {
    assert [NEW, RUNNING, ERROR] + [FAILED] == [NEW, RUNNING, ERROR, FAILED];
  }

  lemma CaseStep(i: nat)
    requires i < 14
    ensures Next(Case(i), CASE_ACTIONS[i], Case(i + 1))
  {
    hide Next, Case;
    match i {
      case 0 => CaseSegment();
      case 1 => CaseHost();
      case 2 => CaseNotification();
      case 3 => CaseListed();
      case 4 => CaseDelivered();
      case 5 => CaseAcquired();
      case 6 => CaseChecked();
      case 7 => CaseStarted();
      case 8 => CaseReturned();
      case 9 => CaseSaved();
      case 10 => CaseReleased();
      case 11 => CaseTurn();
      case 12 => CaseReread();
      case _ => CaseGivenUp();
    }
  }

  /** That run shows that a notification can go from its first ERROR to FAILED without any retry. */
  lemma FailedWithoutRetry() returns (states: seq<System>, actions: seq<Action>)
    ensures IsRun(states, actions) && |actions| == 14 && actions[13] == WriteFailed
    ensures |states[14].rows| == 1 && states[14].rows[0].trail == [NEW, RUNNING, ERROR, FAILED]
    ensures Starts(states, actions, 13, 0, ERROR) == 0
  {
    hide Next, Case, Init, Starts, CASE_ACTIONS;
    states := seq(15, (i: nat) => Case(i));
    actions := CASE_ACTIONS;
    CaseLength();
    CaseSegment();
    forall i | 0 <= i < 14 ensures Next(states[i], actions[i], states[i + 1]) { CaseStep(i); }
    CaseEnds();
    RecoveryStartsAtMostTwice(states, actions, 13, 0);
  }

  lemma CaseLength()
    ensures |CASE_ACTIONS| == 14 && CASE_ACTIONS[13] == WriteFailed
  {
  }

  lemma CaseEnds()
    ensures Case(13).rows == [Row(7, VM, Payload(OTHER, "vm"), 0, [NEW, RUNNING, ERROR], false)]
    ensures Case(14).rows == [Row(7, VM, Payload(OTHER, "vm"), 0, [NEW, RUNNING, ERROR, FAILED], false)]
  {
  }
}
