/** What holds of every notification in every run of the recovery protocol. */
module RecoveryTheorems {
  import opened Options
  import opened Protocol
  import opened ProtocolInvariant

  // ----- Single status writes -----

  predicate SameData(row: Row, row': Row)
  {
    row'.host == row.host && row'.kind == row.kind && row'.payload == row.payload && row'.generated == row.generated
  }

  /** What a step may do to a row: its data never changes, its status changes by one legal write. */
  predicate RowStep(row: Row, row': Row)
  {
    && SameData(row, row')
    && (row'.trail == row.trail ||
        (row'.trail == row.trail + [row'.Status()] && LegalWrite(row.trail, row'.Status())))
  }

  /** The notification whose status a step writes, if any. */
  function Target(s: System, a: Action): Option<nat>
  {
    match a
    case StartRun(t) => if t in s.threads then Some(s.threads[t].note) else None
    case SaveOutcome(t) => if t in s.threads then Some(s.threads[t].note) else None
    case WriteFailed => if InRound(s, MarkFailed) then Some(s.periodic.snapshot[s.periodic.idx].note) else None
    case _ => None
  }

  /** Row n is the same in both states, but may have been purged. */
  predicate SameRow(s: System, s': System, n: nat)
  {
    n < |s.rows| && n < |s'.rows| && SameData(s.rows[n], s'.rows[n]) && s'.rows[n].trail == s.rows[n].trail
  }

  lemma ApiWritesNoStatus(s: System, a: Action, s': System, n: nat)
    requires Next(s, a, s') && n < |s.rows| && IsApi(a)
    ensures SameRow(s, s', n)
  {
  }

  lemma RoundWritesTarget(s: System, a: Action, s': System, n: nat)
    requires Next(s, a, s') && n < |s.rows| && IsRound(a) && Target(s, a) != Some(n)
    ensures SameRow(s, s', n)
  {
  }

  lemma ThreadWritesTarget(s: System, a: Action, s': System, n: nat)
    requires Next(s, a, s') && n < |s.rows| && !IsApi(a) && !IsRound(a) && Target(s, a) != Some(n)
    ensures SameRow(s, s', n)
  {
  }

  lemma OnlyTargetWritten(s: System, a: Action, s': System, n: nat)
    requires Next(s, a, s') && n < |s.rows| && Target(s, a) != Some(n)
    ensures SameRow(s, s', n)
  {
    hide Next, Target;
    if IsApi(a) {
      ApiWritesNoStatus(s, a, s', n);
    } else if IsRound(a) {
      RoundWritesTarget(s, a, s', n);
    } else {
      ThreadWritesTarget(s, a, s', n);
    }
  }

  lemma TargetWrittenLegally(s: System, a: Action, s': System, n: nat)
    requires RowsInv(s) && ThreadsInv(s) && PeriodicOk(s)
    requires Next(s, a, s') && n < |s.rows| && Target(s, a) == Some(n)
    ensures n < |s'.rows| && SameData(s.rows[n], s'.rows[n])
    ensures s'.rows[n].trail == s.rows[n].trail + [s'.rows[n].Status()]
    ensures LegalWrite(s.rows[n].trail, s'.rows[n].Status())
  {
    assert RowOk(s, n);
    match a {
      case StartRun(t) => assert ThreadOk(s, t);
      case SaveOutcome(t) => assert ThreadOk(s, t);
      case WriteFailed =>
    }
  }

  /** The status writes of the whole system, in every interleaving, are NEW to RUNNING, RUNNING to
      FINISHED, IGNORED or ERROR, ERROR to RUNNING once, and ERROR to FAILED; none leaves a
      terminal status. */
  lemma WritesAreLegal(s: System, a: Action, s': System, n: nat)
    requires Inv(s) && Next(s, a, s') && n < |s.rows|
    ensures n < |s'.rows| && RowStep(s.rows[n], s'.rows[n])
    ensures Terminal(s.rows[n].Status()) ==> s'.rows[n].trail == s.rows[n].trail
    ensures s'.rows[n].trail != s.rows[n].trail <==> Target(s, a) == Some(n)
    ensures s'.rows[n].trail != s.rows[n].trail ==>
              var (from, to) := (s.rows[n].Status(), s'.rows[n].Status());
              || (from == NEW && to == RUNNING)
              || (from == RUNNING && (to == FINISHED || to == IGNORED || to == ERROR))
              || (from == ERROR && (to == RUNNING || to == FAILED))
  {
    if Target(s, a) == Some(n) {
      TargetWrittenLegally(s, a, s', n);
    } else {
      OnlyTargetWritten(s, a, s', n);
    }
  }

  // ----- Whole runs -----

  /** A row, once created, keeps its data and only extends its trail. */
  lemma {:induction false} TrailsOnlyGrow(states: seq<System>, actions: seq<Action>, i: nat, j: nat, n: nat)
    requires IsRun(states, actions) && i <= j < |states| && n < |states[i].rows|
    ensures n < |states[j].rows| && SameData(states[i].rows[n], states[j].rows[n])
    ensures states[i].rows[n].trail <= states[j].rows[n].trail
    ensures Terminal(states[i].rows[n].Status()) ==> states[j].rows[n].trail == states[i].rows[n].trail
    decreases j - i
  {
    hide Next, Inv;
    if i == j {
    } else {
      TrailsOnlyGrow(states, actions, i, j - 1, n);
      RunKeeps(states, actions, j - 1);
      WritesAreLegal(states[j - 1], actions[j - 1], states[j], n);
    }
  }

  /** How often, among the first k steps, a thread holding a copy with the given status started the
      recovery workflow of notification n. */
  ghost function Starts(states: seq<System>, actions: seq<Action>, k: nat, n: nat, copy: Status): nat
    requires k <= |actions| && |states| == |actions| + 1
  {
    if k == 0 then 0
    else Starts(states, actions, k - 1, n, copy) + if IsStart(states[k - 1], actions[k - 1], n, copy) then 1 else 0
  }

  predicate IsStart(s: System, a: Action, n: nat, copy: Status)
  {
    a.StartRun? && a.thread in s.threads && s.threads[a.thread].note == n && s.threads[a.thread].copy == copy
  }

  /** The trail of n in s, empty before n exists. */
  function History(s: System, n: nat): seq<Status> { if n < |s.rows| then s.rows[n].trail else [] }

  lemma StartRunStep(s: System, a: Action, s': System)
    requires ThreadsInv(s) && RowsInv(s) && Next(s, a, s') && a.StartRun?
    ensures At(s, a.thread, Passed)
    ensures var n := s.threads[a.thread].note;
            |s.rows[n].trail| == (if s.threads[a.thread].copy == NEW then 1 else 3)
    ensures s.threads[a.thread].copy == NEW || s.threads[a.thread].copy == ERROR
  {
    assert ThreadOk(s, a.thread) && RowOk(s, s.threads[a.thread].note);
  }

  lemma CreateStep(s: System, a: Action, s': System, n: nat)
    requires Next(s, a, s') && |s.rows| <= n < |s'.rows|
    ensures a.CreateNotification? && CanCreateNotification(s, a.host, a.kind, a.payload, a.generated)
    ensures n == |s.rows| && s' == s.(rows := s.rows + [Row(a.host, a.kind, a.payload, a.generated, [NEW], false)])
  {
  }

  lemma RunningIsWrittenByStart(s: System, a: Action, s': System, n: nat)
    requires ThreadsInv(s) && Next(s, a, s') && n < |s.rows| && n < |s'.rows| && Target(s, a) == Some(n)
    ensures s'.rows[n].Status() == RUNNING <==> a.StartRun?
  {
    if a.SaveOutcome? { assert ThreadOk(s, a.thread); }
  }

  /** The second and the fourth value of a trail are written by starts, and only by them. */
  lemma StartExtendsHistory(s: System, a: Action, s': System, n: nat)
    requires Inv(s) && Next(s, a, s')
    ensures IsStart(s, a, n, NEW) <==> |History(s, n)| == 1 && |History(s', n)| == 2
    ensures IsStart(s, a, n, ERROR) <==> |History(s, n)| == 3 && |History(s', n)| == 4 && History(s', n)[3] == RUNNING
    ensures History(s, n) <= History(s', n)
    ensures |History(s', n)| <= |History(s, n)| + 1
  {
    hide Next, LegalTrail, LegalWrite;
    if a.StartRun? { StartRunStep(s, a, s'); }
    if n < |s.rows| {
      WritesAreLegal(s, a, s', n);
      assert RowOk(s, n);
      if Target(s, a) == Some(n) {
        RunningIsWrittenByStart(s, a, s', n);
        LegalWriteLength(s.rows[n].trail, s'.rows[n].Status());
      }
    } else if n < |s'.rows| {
      CreateStep(s, a, s', n);
    }
  }

  /** The first write is always RUNNING. */
  lemma LegalWriteLength(t: Trail, status: Status)
    requires LegalTrail(t) && LegalWrite(t, status)
    ensures |t| == 1 ==> status == RUNNING
  {
  }

  /** In every interleaving of API calls, repeated and delayed deliveries and periodic rounds, the
      recovery workflow of a notification starts at most once from a NEW copy and at most once as
      the retry of an ERROR, and its status is written at most five times after its creation. */
  lemma {:induction false} RecoveryStartsAtMostTwice(states: seq<System>, actions: seq<Action>, k: nat, n: nat)
    requires IsRun(states, actions) && k <= |actions|
    ensures Starts(states, actions, k, n, NEW) <= 1 && Starts(states, actions, k, n, ERROR) <= 1
    ensures |History(states[k], n)| <= 6
    ensures Starts(states, actions, k, n, NEW) == if |History(states[k], n)| > 1 then 1 else 0
    ensures Starts(states, actions, k, n, ERROR) ==
              if |History(states[k], n)| > 3 && History(states[k], n)[3] == RUNNING then 1 else 0
  {
    hide Next;
    RunKeeps(states, actions, k);
    assert n < |states[k].rows| ==> RowOk(states[k], n);
    if k > 0 {
      RecoveryStartsAtMostTwice(states, actions, k - 1, n);
      RunKeeps(states, actions, k - 1);
      StartExtendsHistory(states[k - 1], actions[k - 1], states[k], n);
    } else {
      assert states[0].rows == [];
    }
  }

  // ----- The FAILED write outside the lock -----

  /** When the periodic task writes FAILED, which it does without the host lock, the row it read is
      still in ERROR, and no thread is processing that notification or has passed its check. */
  lemma FailedWriteIsSafe(s: System, t: nat)
    requires Inv(s) && InRound(s, MarkFailed)
    ensures var n := s.periodic.snapshot[s.periodic.idx].note;
            && s.rows[n].Status() == ERROR && !s.rows[n].purged
            && (t in s.threads && s.threads[t].note == n ==> !AtWork(s.threads[t].pc) && !s.threads[t].pc.Passed?)
  {
    assert RowOk(s, s.periodic.snapshot[s.periodic.idx].note);
    if t in s.threads { assert ThreadOk(s, t); }
  }

  /** Two threads never process the same notification, nor two of the same host, at once. */
  lemma OneWorkerPerHost(s: System, t: nat, u: nat)
    requires Inv(s) && Stands(s, t) && Stands(s, u)
    requires !s.threads[t].pc.Waiting? && !s.threads[u].pc.Waiting?
    requires s.rows[s.threads[t].note].host == s.rows[s.threads[u].note].host
    ensures t == u
  {
    assert ThreadOk(s, t) && ThreadOk(s, u);
  }

  // ----- A periodic round settles what it was due to process -----

  /** When a round has given every entry its turn, each notification the snapshot listed as ERROR,
      and each one that became due, is FINISHED, IGNORED or FAILED, except those whose own handler
      raised, which stay RUNNING. */
  lemma RoundSettles(s: System, i: nat)
    requires Inv(s) && RoundOver(s) && i < |s.periodic.snapshot|
    requires s.periodic.snapshot[i].status == ERROR || i in s.periodic.due
    ensures var n := s.periodic.snapshot[i].note;
            n < |s.rows| && IsSettled(s.rows[n].Status(), n in s.raised)
  {
    assert EntryOk(s, i);
  }

  predicate IsSettled(status: Status, raised: bool)
  {
    status == FINISHED || status == IGNORED || status == FAILED || (status == RUNNING && raised)
  }

  /** At its turn an entry is processed, by a call with the copy that the snapshot holds, exactly if it
      is listed as ERROR, or as NEW and too old. */
  lemma TurnCalls(s: System, tooOld: bool, s': System)
    requires PeriodicOk(s) && Next(s, TakeTurn(tooOld), s')
    ensures var p, e := s.periodic, s.periodic.snapshot[s.periodic.idx];
            && (PERIODIC in s'.threads <==> e.status == ERROR || (e.status == NEW && tooOld))
            && (PERIODIC in s'.threads ==>
                  s'.threads[PERIODIC] == Thread(e.note, e.status, Waiting) && s'.periodic.phase == Processing)
            && (PERIODIC !in s'.threads ==> s'.periodic == p.(phase := Reread))
            && s'.periodic.snapshot == p.snapshot && s'.periodic.idx == p.idx
            && (p.idx in s'.periodic.due <==> p.idx in p.due || e.status == ERROR || (e.status == NEW && tooOld))
  {
  }

  lemma DueStays(s: System, a: Action, s': System)
    requires Next(s, a, s') && !a.BeginRound?
    ensures s'.periodic.snapshot == s.periodic.snapshot && s.periodic.due <= s'.periodic.due
  {
  }

  lemma {:induction false} DueToTheEnd(states: seq<System>, actions: seq<Action>, i: nat, j: nat, k: nat)
    requires IsRun(states, actions) && i <= j < |states| && k in states[i].periodic.due
    requires forall l | i <= l < j :: !actions[l].BeginRound?
    ensures k in states[j].periodic.due && states[j].periodic.snapshot == states[i].periodic.snapshot
    decreases j
  {
    hide Next;
    if i == j {
    } else {
      DueToTheEnd(states, actions, i, j - 1, k);
      DueStays(states[j - 1], actions[j - 1], states[j]);
    }
  }

  /** Over any run: an entry that its turn finds listed as ERROR, or as NEW and too old, is FINISHED,
      IGNORED or FAILED when all turns of that round have been taken, or RUNNING because its own handler
      raised; whatever API and workers have done in between. */
  lemma TurnsSettle(states: seq<System>, actions: seq<Action>, i: nat, j: nat)
    requires IsRun(states, actions) && i < j < |states| && actions[i].TakeTurn? && RoundOver(states[j])
    requires forall l | i < l < j :: !actions[l].BeginRound?
    requires InRound(states[i], Turn)
    ensures var e := states[i].periodic.snapshot[states[i].periodic.idx];
            e.status == ERROR || (e.status == NEW && actions[i].tooOld) ==>
              e.note < |states[j].rows| && IsSettled(states[j].rows[e.note].Status(), e.note in states[j].raised)
  {
    hide Inv;
    var idx, e := states[i].periodic.idx, states[i].periodic.snapshot[states[i].periodic.idx];
    RunKeeps(states, actions, i);
    RunKeeps(states, actions, j);
    RoundOfInv(states[i]);
    assert Next(states[i], TakeTurn(actions[i].tooOld), states[i + 1]);
    TurnCalls(states[i], actions[i].tooOld, states[i + 1]);
    hide Next;
    if e.status == ERROR || (e.status == NEW && actions[i].tooOld) {
      DueToTheEnd(states, actions, i + 1, j, idx);
      RoundSettles(states[j], idx);
    }
  }

  lemma RoundOfInv(s: System)
    requires Inv(s)
    ensures PeriodicOk(s) && SnapshotInv(s)
  {
  }

  /** What the check under the lock decides, and that it decides nothing else: the thread goes on exactly
      if the row is there and, for a NEW copy, still NEW; it fails exactly if the row is gone. */
  lemma CheckDecides(s: System, t: nat, s': System)
    requires Next(s, CheckRow(t), s')
    ensures var row := s.rows[s.threads[t].note];
            && t in s'.threads && s' == s.(threads := s.threads[t := s'.threads[t]])
            && s'.threads[t].note == s.threads[t].note && s'.threads[t].copy == s.threads[t].copy
            && (s'.threads[t].pc == Passed <==> !row.purged && (s.threads[t].copy == NEW ==> row.Status() == NEW))
            && (s'.threads[t].pc == Leaving(true) <==> row.purged)
            && (s'.threads[t].pc == Passed || s'.threads[t].pc.Leaving?)
  {
  }

  // ----- The system goes quiet -----

  /** The writes still open to the rows: five for a new row, none once the trail is full. */
  ghost function Potential(rows: seq<Row>): nat
  {
    if rows == [] then 0
    else Potential(rows[..|rows| - 1]) + Room(rows[|rows| - 1])
  }

  function Room(row: Row): nat { if |row.trail| > 6 then 0 else 6 - |row.trail| }

  lemma {:induction false} PotentialOfUpdate(rows: seq<Row>, n: nat, row: Row)
    requires n < |rows|
    ensures Potential(rows[n := row]) == Potential(rows) - Room(rows[n]) + Room(row)
  {
    var last := |rows| - 1;
    if n == last {
      assert rows[n := row][..last] == rows[..last];
    } else {
      assert rows[n := row][..last] == rows[..last][n := row];
      PotentialOfUpdate(rows[..last], n, row);
    }
  }

  lemma {:induction false} PotentialOfSameTrails(rows: seq<Row>, rows': seq<Row>)
    requires |rows| == |rows'| && forall n | 0 <= n < |rows| :: rows[n].trail == rows'[n].trail
    ensures Potential(rows) == Potential(rows')
  {
    if rows == [] {
    } else {
      var last := |rows| - 1;
      PotentialOfSameTrails(rows[..last], rows'[..last]);
    }
  }

  lemma {:induction false} PotentialBound(rows: seq<Row>)
    ensures Potential(rows) <= 5 * |rows|
  {
    if rows == [] {
    } else {
      PotentialBound(rows[..|rows| - 1]);
    }
  }

  /** Every status write uses up potential, and only the creation of a notification adds any. */
  lemma StepUsesPotential(s: System, a: Action, s': System)
    requires Inv(s) && Next(s, a, s') && !a.CreateNotification?
    ensures |s'.rows| == |s.rows|
    ensures Potential(s'.rows) + (if Target(s, a).Some? then 1 else 0) == Potential(s.rows)
  {
    hide Next;
    SameRowCount(s, a, s');
    var target := Target(s, a);
    forall n | 0 <= n < |s.rows| && target != Some(n) ensures s.rows[n].trail == s'.rows[n].trail {
      WritesAreLegal(s, a, s', n);
    }
    if target.Some? {
      var n := target.value;
      TargetExists(s, a, s');
      WritesAreLegal(s, a, s', n);
      StepKeeps(s, a, s');
      assert RowOk(s', n) && RowOk(s, n);
      PotentialOfUpdate(s.rows, n, s'.rows[n]);
      PotentialOfSameTrails(s.rows[n := s'.rows[n]], s'.rows);
    } else {
      PotentialOfSameTrails(s.rows, s'.rows);
    }
  }

  lemma SameRowCount(s: System, a: Action, s': System)
    requires Next(s, a, s') && !a.CreateNotification?
    ensures |s'.rows| == |s.rows|
  {
  }

  lemma TargetExists(s: System, a: Action, s': System)
    requires Next(s, a, s') && Target(s, a).Some?
    ensures Target(s, a).value < |s.rows|
  {
  }

  /** The status writes taken from state i up to state j. */
  ghost function Writes(states: seq<System>, actions: seq<Action>, i: nat, j: nat): nat
    requires i <= j <= |actions| && |states| == |actions| + 1
    decreases j - i
  {
    if i == j then 0
    else Writes(states, actions, i, j - 1) + if Target(states[j - 1], actions[j - 1]).Some? then 1 else 0
  }

  /** With no new notifications the system goes quiet: however long the run goes on, and whatever
      is delivered, purged or retried, at most five status writes per notification remain. */
  lemma {:induction false} SystemGoesQuiet(states: seq<System>, actions: seq<Action>, i: nat, j: nat)
    requires IsRun(states, actions) && i <= j <= |actions|
    requires forall k | i <= k < j :: !actions[k].CreateNotification?
    ensures Writes(states, actions, i, j) + Potential(states[j].rows) == Potential(states[i].rows)
    ensures Writes(states, actions, i, j) <= 5 * |states[i].rows|
    decreases j - i
  {
    hide Next, Inv;
    PotentialBound(states[i].rows);
    if i == j {
    } else {
      SystemGoesQuiet(states, actions, i, j - 1);
      RunKeeps(states, actions, j - 1);
      StepUsesPotential(states[j - 1], actions[j - 1], states[j]);
    }
  }
}
