/** What API transactions and engine steps together keep of hosts and segments: unfinished
    notifications keep their host and segment alive and, once their handler has put the host on
    maintenance, keep it there. */
module HostTheorems {
  import opened Options
  import opened Protocol
  import opened ProtocolInvariant
  import opened RecoveryTheorems

  // ----- Unfinished notifications name live hosts -----

  ghost predicate HostsHaveSegments(s: System) { forall h | h in s.hosts :: s.hosts[h].segment in s.segments }

  predicate HasHost(s: System, n: nat)
    requires n < |s.rows|
  {
    Unfinished(s.rows[n].Status()) ==> s.rows[n].host in s.hosts
  }

  ghost predicate LiveInv(s: System) { HostsHaveSegments(s) && forall n | 0 <= n < |s.rows| :: HasHost(s, n) }

  lemma GuardedHostStays(s: System, n: nat, segment: nat)
    requires n < |s.rows| && RowOk(s, n) && HasHost(s, n) && Unfinished(s.rows[n].Status())
    requires !UnderRecovery(s, segment)
    ensures s.rows[n].host in s.hosts && s.hosts[s.rows[n].host].segment != segment
  {
    if s.hosts[s.rows[n].host].segment == segment { assert Busies(s, segment, n); }
  }

  /** The API's guards and the engine's writes keep the host of every unfinished notification. */
  lemma LiveStepKeeps(s: System, a: Action, s': System)
    requires Inv(s) && LiveInv(s) && Next(s, a, s')
    ensures LiveInv(s')
  {
    hide Next, Inv;
    HostSegmentsKept(s, a, s');
    forall n | 0 <= n < |s'.rows| ensures HasHost(s', n) {
      if n < |s.rows| {
        assert HasHost(s, n);
        RowOfInv(s, n);
        WritesAreLegal(s, a, s', n);
        if Unfinished(s.rows[n].Status()) { LiveHostKept(s, a, s', n); }
      } else {
        NewRowHasHost(s, a, s', n);
      }
    }
  }

  /** Actions that change hosts or segments. */
  predicate TouchesHosts(a: Action)
  {
    a.CreateSegment? || a.DeleteSegment? || a.CreateHost? || a.UpdateHost? || a.DeleteHost? || a.MarkHost?
  }

  lemma HostsUntouched(s: System, a: Action, s': System)
    requires Next(s, a, s') && !TouchesHosts(a)
    ensures s'.hosts == s.hosts && s'.segments == s.segments
  {
  }

  lemma HostSegmentsKept(s: System, a: Action, s': System)
    requires HostsHaveSegments(s) && Next(s, a, s')
    ensures HostsHaveSegments(s')
  {
    hide Next;
    if TouchesHosts(a) {
      TouchedHostsHaveSegments(s, a, s');
    } else {
      HostsUntouched(s, a, s');
    }
  }

  lemma TouchedHostsHaveSegments(s: System, a: Action, s': System)
    requires HostsHaveSegments(s) && Next(s, a, s') && TouchesHosts(a)
    ensures HostsHaveSegments(s')
  {
    hide UnderRecovery, NameTaken;
  }

  lemma NewRowHasHost(s: System, a: Action, s': System, n: nat)
    requires Next(s, a, s') && |s.rows| <= n < |s'.rows|
    ensures HasHost(s', n)
  {
    hide Next;
    CreateStep(s, a, s', n);
  }

  lemma LiveHostKept(s: System, a: Action, s': System, n: nat)
    requires n < |s.rows| && RowOk(s, n) && HasHost(s, n) && Unfinished(s.rows[n].Status()) && Next(s, a, s')
    ensures s.rows[n].host in s'.hosts
    ensures !a.UpdateHost? && s.hosts[s.rows[n].host].onMaintenance ==> s'.hosts[s.rows[n].host].onMaintenance
  {
    hide Next, RowOk;
    if TouchesHosts(a) {
      forall segment | !UnderRecovery(s, segment) ensures s.hosts[s.rows[n].host].segment != segment {
        GuardedHostStays(s, n, segment);
      }
      TouchedHostKept(s, a, s', s.rows[n].host);
    } else {
      HostsUntouched(s, a, s');
    }
  }

  /** A host in a segment under recovery is not deleted, nor taken off maintenance but by an update. */
  lemma TouchedHostKept(s: System, a: Action, s': System, host: nat)
    requires Next(s, a, s') && TouchesHosts(a) && host in s.hosts
    requires forall segment | !UnderRecovery(s, segment) :: s.hosts[host].segment != segment
    ensures host in s'.hosts
    ensures !a.UpdateHost? && s.hosts[host].onMaintenance ==> s'.hosts[host].onMaintenance
  {
    hide UnderRecovery, NameTaken;
  }

  lemma {:induction false} RunKeepsLive(states: seq<System>, actions: seq<Action>, i: nat)
    requires IsRun(states, actions) && i < |states|
    ensures LiveInv(states[i])
  {
    hide Next, Inv;
    if i == 0 {
    } else {
      RunKeepsLive(states, actions, i - 1);
      RunKeeps(states, actions, i - 1);
      LiveStepKeeps(states[i - 1], actions[i - 1], states[i]);
    }
  }

  /** In every state of every run, each NEW, RUNNING or ERROR notification names a live host in a
      live segment; so a handler's lookup of the host of the row it works on never fails. */
  lemma HostLookupsNeverFail(states: seq<System>, actions: seq<Action>, i: nat, n: nat)
    requires IsRun(states, actions) && i < |states| && n < |states[i].rows|
    ensures var s := states[i];
            && (s.rows[n].Status() == NEW || s.rows[n].Status() == RUNNING || s.rows[n].Status() == ERROR ==>
                  !s.rows[n].purged && s.rows[n].host in s.hosts && s.hosts[s.rows[n].host].segment in s.segments)
            && (forall t | At(s, t, Handling(false)) ::
                  var row := s.rows[s.threads[t].note];
                  row.kind != VM && row.payload.event == STOPPED <==> CanMarkHost(s, t))
  {
    hide Next;
    var s := states[i];
    RunKeeps(states, actions, i);
    RunKeepsLive(states, actions, i);
    assert RowOk(s, n) && HasHost(s, n);
    forall t | At(s, t, Handling(false))
      ensures var row := s.rows[s.threads[t].note]; row.kind != VM && row.payload.event == STOPPED <==> CanMarkHost(s, t)
    {
      assert ThreadOk(s, t) && HasHost(s, s.threads[t].note);
    }
  }

  // ----- Names of hosts -----

  ghost predicate UniqueNames(s: System)
  {
    forall h, g | h in s.hosts && g in s.hosts && s.hosts[h].name == s.hosts[g].name :: h == g
  }

  lemma NamesStep(s: System, a: Action, s': System)
    requires UniqueNames(s) && Next(s, a, s')
    ensures UniqueNames(s')
  {
    hide Next;
    if TouchesHosts(a) {
      TouchedNames(s, a, s');
    } else {
      HostsUntouched(s, a, s');
    }
  }

  lemma TouchedNames(s: System, a: Action, s': System)
    requires UniqueNames(s) && Next(s, a, s') && TouchesHosts(a)
    ensures UniqueNames(s')
  {
    hide UnderRecovery;
  }

  /** In every state of every run no two hosts have the same name. */
  lemma {:induction false} NamesAreUnique(states: seq<System>, actions: seq<Action>, i: nat)
    requires IsRun(states, actions) && i < |states|
    ensures UniqueNames(states[i])
  {
    hide Next;
    if i == 0 {
    } else {
      NamesAreUnique(states, actions, i - 1);
      NamesStep(states[i - 1], actions[i - 1], states[i]);
    }
  }

  // ----- A host under recovery stays on maintenance -----

  /** update_host was called with the segment the host is in. */
  predicate OwnSegment(s: System, a: Action)
  {
    a.UpdateHost? && a.host in s.hosts ==> s.hosts[a.host].segment == a.segment
  }

  predicate UnderWork(status: Status) { status == RUNNING || status == ERROR }

  /** The update takes the host off maintenance. */
  predicate TakesOff(a: Action, host: nat) { a.UpdateHost? && a.host == host && a.data.onMaintenance == Some(false) }

  /** The step puts the host on maintenance: an update, or a handler. */
  predicate PutsOn(s: System, a: Action, host: nat)
  {
    || (a.UpdateHost? && a.host == host && a.data.onMaintenance == Some(true))
    || (a.MarkHost? && Stands(s, a.thread) && s.rows[s.threads[a.thread].note].host == host)
  }

  lemma FlagStep(s: System, a: Action, s': System, host: nat)
    requires Next(s, a, s') && TouchesHosts(a) && host in s.hosts && host in s'.hosts
    ensures s'.hosts[host].onMaintenance == ((s.hosts[host].onMaintenance && !TakesOff(a, host)) || PutsOn(s, a, host))
  {
    hide UnderRecovery, NameTaken;
  }

  lemma UpdateStep(s: System, a: Action, s': System, n: nat)
    requires n < |s.rows| && HasHost(s, n) && !s.rows[n].purged && Unfinished(s.rows[n].Status())
    requires a.UpdateHost? && Next(s, a, s') && a.host == s.rows[n].host
    ensures a.segment != s.hosts[a.host].segment && !UnderRecovery(s, a.segment)
  {
    if s.hosts[a.host].segment == a.segment { assert Busies(s, a.segment, n); }
  }

  /** While a notification is RUNNING or ERROR its host stays, and its maintenance flag changes exactly
      as updates and handlers say: it is lost in a step if and only if the step is an update of that host
      that clears it; and an update of the host gets through only if it names another segment, which is
      not under recovery. */
  lemma MaintenanceStep(s: System, a: Action, s': System, n: nat)
    requires Inv(s) && LiveInv(s) && Next(s, a, s')
    requires n < |s.rows| && UnderWork(s.rows[n].Status())
    ensures var host := s.rows[n].host;
            && host in s.hosts && host in s'.hosts
            && s'.hosts[host].onMaintenance == ((s.hosts[host].onMaintenance && !TakesOff(a, host)) || PutsOn(s, a, host))
            && (s.hosts[host].onMaintenance ==> (!s'.hosts[host].onMaintenance <==> TakesOff(a, host)))
            && (TakesOff(a, host) ==> a.segment != s.hosts[host].segment && !UnderRecovery(s, a.segment))
  {
    hide Next, Inv, LiveInv, RowOk;
    var host := s.rows[n].host;
    LiveHostOfRow(s, n);
    LiveHostKept(s, a, s', n);
    if TouchesHosts(a) {
      FlagStep(s, a, s', host);
      if a.UpdateHost? && a.host == host { UpdateStep(s, a, s', n); }
    } else {
      HostsUntouched(s, a, s');
    }
  }

  lemma LiveHostOfRow(s: System, n: nat)
    requires Inv(s) && LiveInv(s) && n < |s.rows|
    ensures RowOk(s, n) && HasHost(s, n)
    ensures Unfinished(s.rows[n].Status()) ==> !s.rows[n].purged
  {
    assert RowOk(s, n);
  }

  lemma MarkHostStep(s: System, t: nat, s': System)
    requires ThreadsInv(s) && Next(s, MarkHost(t), s')
    ensures Stands(s, t) && s'.rows == s.rows && s.rows[s.threads[t].note].Status() == RUNNING
    ensures var h := s.rows[s.threads[t].note].host; h in s'.hosts && s'.hosts[h].onMaintenance
    ensures |s.rows[s.threads[t].note].trail| >= 2
  {
    assert ThreadOk(s, t);
  }

  /** Which handlers put a host on maintenance, and what they change: a STOPPED notification of a host or a
      process does, for its own source host; a reserved host stays reserved only if a process has failed;
      nothing else changes. */
  lemma HostIsMarked(s: System, t: nat, s': System)
    requires Next(s, MarkHost(t), s')
    ensures var row := s.rows[s.threads[t].note]; var host := s.hosts[row.host];
      && row.kind != VM && row.payload.event == STOPPED
      && s'.rows == s.rows && s'.segments == s.segments
      && s'.hosts == s.hosts[row.host := Host(host.name, host.segment, host.reserved && row.kind == PROCESS, true)]
  {
  }

  /** What handlers return: for a host or a process FINISHED if it has started, IGNORED for an unknown
      event, and for one that has stopped FINISHED or ERROR, not before the host is on maintenance; for
      an instance FINISHED, IGNORED or ERROR. */
  lemma HandlerReturns(s: System, t: nat, outcome: Status, s': System)
    requires Next(s, Return(t, outcome), s')
    ensures var row := s.rows[s.threads[t].note];
      && (row.kind == VM ==> outcome == FINISHED || outcome == IGNORED || outcome == ERROR)
      && (row.kind != VM && row.payload.event == STARTED ==> outcome == FINISHED)
      && (row.kind != VM && row.payload.event == OTHER ==> outcome == IGNORED)
      && (row.kind != VM && row.payload.event == STOPPED ==>
            (outcome == FINISHED || outcome == ERROR) && s.threads[t].pc == Handling(true))
      && s' == s.(threads := s.threads[t := s.threads[t].(pc := Saving(outcome))])
  {
  }

  /** Every update between two points of a run that takes the host off maintenance is followed by a step
      that puts it on again. */
  ghost predicate OffIsUndone(states: seq<System>, actions: seq<Action>, from: nat, to: nat, host: nat)
    requires to <= |actions| <= |states|
  {
    forall k | from <= k < to && TakesOff(actions[k], host) ::
      exists l | k < l < to :: PutsOn(states[l], actions[l], host)
  }

  lemma OffIsUndoneGrows(states: seq<System>, actions: seq<Action>, from: nat, to: nat, host: nat)
    requires from <= to < |actions| <= |states|
    ensures OffIsUndone(states, actions, from, to + 1, host) <==>
              (OffIsUndone(states, actions, from, to, host) && !TakesOff(actions[to], host)) ||
              PutsOn(states[to], actions[to], host)
  {
    if OffIsUndone(states, actions, from, to + 1, host) && !PutsOn(states[to], actions[to], host) {
      forall k | from <= k < to && TakesOff(actions[k], host)
        ensures exists l | k < l < to :: PutsOn(states[l], actions[l], host)
      {
        var l :| k < l < to + 1 && PutsOn(states[l], actions[l], host);
      }
    }
  }

  /** From the step in which a handler has put the host of its STOPPED notification on maintenance, for
      as long as that notification is RUNNING or ERROR: the host is on maintenance if and only if every
      update that took it off was followed by a step that put it on again. Each such update has named
      another segment. */
  lemma {:induction false} OnMaintenanceIff(states: seq<System>, actions: seq<Action>, i: nat, j: nat, t: nat)
    requires IsRun(states, actions) && i < j < |states| && actions[i] == MarkHost(t)
    ensures Stands(states[i], t) && states[i].threads[t].note < |states[j].rows|
    ensures var row := states[j].rows[states[i].threads[t].note];
            && SameData(states[i].rows[states[i].threads[t].note], row) && |row.trail| >= 2
            && (UnderWork(row.Status()) ==>
                  && row.host in states[j].hosts
                  && (states[j].hosts[row.host].onMaintenance <==> OffIsUndone(states, actions, i + 1, j, row.host))
                  && (forall k | i < k < j && TakesOff(actions[k], row.host) ::
                        row.host in states[k].hosts && actions[k].segment != states[k].hosts[row.host].segment))
    decreases j
  {
    hide Next, Inv, LiveInv, OffIsUndone;
    RunKeeps(states, actions, i);
    ThreadsOfInv(states[i]);
    MarkHostStep(states[i], t, states[i + 1]);
    var n := states[i].threads[t].note;
    if j == i + 1 {
      NothingToUndo(states, actions, j, states[i].rows[n].host);
    } else {
      var s, s' := states[j - 1], states[j];
      OnMaintenanceIff(states, actions, i, j - 1, t);
      RunKeeps(states, actions, j - 1);
      RunKeepsLive(states, actions, j - 1);
      WritesAreLegal(s, actions[j - 1], s', n);
      RowOfInv(s, n);
      if UnderWork(s'.rows[n].Status()) {
        MaintenanceStep(s, actions[j - 1], s', n);
        OffIsUndoneGrows(states, actions, i + 1, j - 1, s.rows[n].host);
      }
    }
  }

  lemma NothingToUndo(states: seq<System>, actions: seq<Action>, at: nat, host: nat)
    requires at <= |actions| <= |states|
    ensures OffIsUndone(states, actions, at, at, host)
  {
  }

  /** So if update_host is called with each host's own segment, the flag stays set, and every further
      notification from the host is refused, for as long as this one is RUNNING or ERROR. */
  lemma MaintenanceStays(states: seq<System>, actions: seq<Action>, i: nat, j: nat, t: nat)
    requires IsRun(states, actions) && i < j < |states| && actions[i] == MarkHost(t)
    requires forall k | i < k < j :: OwnSegment(states[k], actions[k])
    ensures Stands(states[i], t) && states[i].threads[t].note < |states[j].rows|
    ensures var row := states[j].rows[states[i].threads[t].note];
            UnderWork(row.Status()) ==>
               && row.host in states[j].hosts && states[j].hosts[row.host].onMaintenance
               && forall kind, payload, generated ::
                    !CanCreateNotification(states[j], row.host, kind, payload, generated)
  {
    hide Next, Inv, LiveInv;
    OnMaintenanceIff(states, actions, i, j, t);
    var row := states[j].rows[states[i].threads[t].note];
    assert UnderWork(row.Status()) ==>
        forall k | i + 1 <= k < j :: OwnSegment(states[k], actions[k]) && !TakesOff(actions[k], row.host);
  }

  lemma ThreadsOfInv(s: System)
    requires Inv(s)
    ensures ThreadsInv(s)
  {
  }

  lemma RowOfInv(s: System, n: nat)
    requires Inv(s) && n < |s.rows|
    ensures RowOk(s, n)
  {
  }

  /** The guard of update_host looks at the segment it was given, not at the host's: an update of a
      host with an unfinished notification goes through if and only if that segment exists and is
      not itself under recovery (and the new name is free), so never with the host's own segment. */
  lemma UpdateGuardIsOfGivenSegment(s: System, n: nat, segment: nat, data: HostData)
    requires Inv(s) && LiveInv(s) && n < |s.rows| && Unfinished(s.rows[n].Status())
    ensures var host := s.rows[n].host;
            && host in s.hosts
            && !CanUpdateHost(s, s.hosts[host].segment, host, data)
            && (CanUpdateHost(s, segment, host, data) <==>
                  segment in s.segments && !UnderRecovery(s, segment) &&
                  (data.name == None || !NameTaken(s, data.name.value, Some(host))))
  {
    assert RowOk(s, n) && HasHost(s, n);
    assert Busies(s, s.hosts[s.rows[n].host].segment, n);
  }

  /** The states of a run with one host in segment 1 and an empty segment 2: a STOPPED notification
      is delivered, its handler puts the host on maintenance, and an update_host that names segment
      2 takes it off again. */
  function Case(step: nat): System
  {
    var onMaintenance := step == 9;
    var trail: Trail := if step >= 8 then [NEW, RUNNING] else [NEW];
    var pc := if step == 5 then Waiting else if step == 6 then Holding else if step == 7 then Passed
              else Handling(step >= 9);
    System(if step == 0 then {} else if step == 1 then {1} else {1, 2},
           if step < 3 then map[] else map[7 := Host("node", 1, false, onMaintenance)],
           if step < 4 then [] else [Row(7, COMPUTE_HOST, Payload(STOPPED, "node"), 0, trail, false)],
           if step < 6 then map[] else map[7 := 1],
           if step < 5 then map[] else map[1 := Thread(0, NEW, pc)],
           Periodic(Idle, [], 0, {}), {}, 180)
  }

  const OFF_MAINTENANCE := HostData(None, None, Some(false))

  lemma CaseSetUp()
    ensures Next(Case(0), CreateSegment(1), Case(1)) && Next(Case(1), CreateSegment(2), Case(2))
    ensures Next(Case(2), CreateHost(1, 7, "node", false, false), Case(3))
  {
  }

  lemma CaseNotified()
    ensures Next(Case(3), CreateNotification(7, COMPUTE_HOST, Payload(STOPPED, "node"), 0), Case(4))
    ensures Next(Case(4), Deliver(1, 0), Case(5))
  {
  }

  lemma CaseStarted()
    ensures Next(Case(5), Acquire(1), Case(6)) && Next(Case(6), CheckRow(1), Case(7))
  {
  }

  lemma CaseRunning()
    ensures Next(Case(7), StartRun(1), Case(8))
  {
    assert [NEW] + [RUNNING] == [NEW, RUNNING];
  }

  lemma CaseMarked()
    ensures Next(Case(8), MarkHost(1), Case(9))
  {
  }

  lemma CaseUpdated()
    ensures Next(Case(9), UpdateHost(2, 7, OFF_MAINTENANCE), Case(10))
  {
  }

  lemma CaseEnds()
    ensures Init(Case(0))
    ensures var s := Case(10);
            && |s.rows| == 1 && s.rows[0].Status() == RUNNING && At(s, 1, Handling(true))
            && s.rows[0].host in s.hosts && !s.hosts[s.rows[0].host].onMaintenance
            && CanCreateNotification(s, s.rows[0].host, VM, Payload(OTHER, "vm"), 0)
  {
  }

  /** That run shows that update_host, given another segment's uuid, can take a host off maintenance
      while its failure is being handled; the API then accepts more notifications from the host. */
  lemma WrongSegmentClearsMaintenance() returns (states: seq<System>, actions: seq<Action>)
    ensures IsRun(states, actions)
    ensures var s := states[|actions|];
            && |s.rows| == 1 && s.rows[0].Status() == RUNNING && At(s, 1, Handling(true))
            && s.rows[0].host in s.hosts && !s.hosts[s.rows[0].host].onMaintenance
            && CanCreateNotification(s, s.rows[0].host, VM, Payload(OTHER, "vm"), 0)
  {
    hide Next, Case, Init, CanCreateNotification;
    states := [Case(0), Case(1), Case(2), Case(3), Case(4), Case(5), Case(6), Case(7), Case(8), Case(9), Case(10)];
    actions := [CreateSegment(1), CreateSegment(2), CreateHost(1, 7, "node", false, false),
                CreateNotification(7, COMPUTE_HOST, Payload(STOPPED, "node"), 0), Deliver(1, 0), Acquire(1),
                CheckRow(1), StartRun(1), MarkHost(1), UpdateHost(2, 7, OFF_MAINTENANCE)];
    CaseSetUp();
    CaseNotified();
    CaseStarted();
    CaseRunning();
    CaseMarked();
    CaseUpdated();
    CaseEnds();
  }

  // ----- Duplicates -----

  /** Row l came after row e with the same host, type and payload, while e was still unprocessed or
      in its first run: then e was generated more than the interval before l. */
  predicate Apart(s: System, e: nat, l: nat)
    requires e < l < |s.rows|
  {
    s.rows[e].SameKey(s.rows[l]) && |s.rows[e].trail| <= 2 ==> s.rows[e].generated < s.rows[l].generated - s.interval
  }

  lemma ApartStep(s: System, a: Action, s': System, e: nat, l: nat)
    requires RowsInv(s) && Next(s, a, s') && e < l < |s.rows| && l < |s'.rows| && Apart(s, e, l)
    requires RowStep(s.rows[e], s'.rows[e]) && RowStep(s.rows[l], s'.rows[l])
    ensures Apart(s', e, l)
  {
    hide Next;
    IntervalIsFixed(s, a, s');
    assert RowOk(s, e);
  }

  lemma IntervalIsFixed(s: System, a: Action, s': System)
    requires Next(s, a, s')
    ensures s'.interval == s.interval
  {
  }

  lemma NewRowApart(s: System, a: Action, s': System, e: nat, l: nat)
    requires RowsInv(s) && Next(s, a, s') && e < l && |s.rows| <= l < |s'.rows|
    ensures Apart(s', e, l)
  {
    hide Next;
    CreateStep(s, a, s', l);
    assert RowOk(s, e);
    assert !Duplicates(s, e, a.host, a.kind, a.payload, a.generated);
  }

  /** In every state of every run, of two notifications with equal host, type and payload, an
      earlier one that is NEW or RUNNING and has never been in ERROR was generated more than the
      detection interval before the later one. */
  lemma {:induction false} DuplicatesAreApart(states: seq<System>, actions: seq<Action>, i: nat, e: nat, l: nat)
    requires IsRun(states, actions) && i < |states| && e < l < |states[i].rows|
    requires var (first, second) := (states[i].rows[e], states[i].rows[l]);
      && first.host == second.host && first.kind == second.kind && first.payload == second.payload
      && (first.Status() == NEW || first.Status() == RUNNING) && ERROR !in first.trail
    ensures states[i].rows[e].generated < states[i].rows[l].generated - states[i].interval
  {
    hide Next, Inv;
    RunKeeps(states, actions, i);
    RowOfInv(states[i], e);
    ApartInRun(states, actions, i, e, l);
  }

  lemma {:induction false} ApartInRun(states: seq<System>, actions: seq<Action>, i: nat, e: nat, l: nat)
    requires IsRun(states, actions) && i < |states| && e < l < |states[i].rows|
    ensures Apart(states[i], e, l)
  {
    hide Next, Inv;
    if i == 0 {
    } else {
      var s, s' := states[i - 1], states[i];
      RunKeeps(states, actions, i - 1);
      RowsOfInv(s);
      if l < |s.rows| {
        ApartInRun(states, actions, i - 1, e, l);
        WritesAreLegal(s, actions[i - 1], s', e);
        WritesAreLegal(s, actions[i - 1], s', l);
        ApartStep(s, actions[i - 1], s', e, l);
      } else {
        NewRowApart(s, actions[i - 1], s', e, l);
      }
    }
  }

  lemma RowsOfInv(s: System)
    requires Inv(s)
    ensures RowsInv(s)
  {
  }
}
