/** The API calls and the engine's two entry points as sequential code over one shared system. Every
    write is a step of the protocol, and between two steps the scheduler may let any other threads
    run, so each execution of a method here is part of a run of the protocol. */
module Masakari {
  import opened HostRecovery
  import opened Options
  import opened Outcomes
  import opened Protocol
  import opened ProtocolInvariant
  import opened RecoveryTheorems
  import opened HostTheorems

  /** Steps other threads take at one point where a thread may be preempted, with their results. */
  type Burst = seq<(Action, System)>

  /** What happens in a handler that has work to do: its workflow ends somehow, or a call that the
      handler itself makes raises, after the host has been put on maintenance if the handler does so. */
  datatype Work = Ran(outcome: Outcome) | Broke

  /** The three handlers, for the row's type: the status the notification exits with. validEvent is
      the outcome of is_valid_event. */
  function Handle(row: Row, validEvent: bool, work: Work): (handled: Handled)
    ensures handled.Returns? ==> Possible(row, row.StopsHost(), handled.status)
  {
    match row.kind
    case VM =>
      if !validEvent then Returns(IGNORED)
      else (match work
            case Broke => Raises
            case Ran(o) => InstanceHandler(o))
    case _ =>
      match row.payload.event
      case STARTED => Returns(FINISHED)
      case STOPPED =>
        (match work
         case Broke => Raises
         case Ran(o) => if row.kind == COMPUTE_HOST then StoppedHandler(HostDriver(o)) else StoppedHandler(o))
      case OTHER => Returns(IGNORED)
  }

  /** The handler for hosts never raises what its workflows end with, the other two
      raise what their workflow raises if it is no MasakariException; and any handler raises if
      a call that it makes itself does, once it has work to do. */
  lemma HandlersRaise(row: Row, validEvent: bool, work: Work)
    ensures Handle(row, validEvent, work).Raises? <==>
              (if row.kind == VM then validEvent else row.payload.event == STOPPED) &&
              (work == Broke || (work == Ran(OtherError) && row.kind != COMPUTE_HOST))
  {
    if work.Ran? { HostOutcomesBecomeStatuses(work.outcome); }
  }

  /** The status a notification exits with, by its workflow's outcome. An instance: FINISHED exactly for a
      valid event and a workflow that is completed or skipped, IGNORED exactly for an invalid event or
      an ignored recovery, ERROR for any other MasakariException. A host or a process: FINISHED if it
      has started, IGNORED for an unknown event, and if it has stopped, FINISHED exactly for a workflow
      that is completed or skipped, else ERROR. */
  lemma ExitStatuses(row: Row, validEvent: bool, o: Outcome)
    requires Handle(row, validEvent, Ran(o)).Returns?
    ensures var status := Handle(row, validEvent, Ran(o)).status;
      && (row.kind == VM ==>
            && (status == FINISHED <==> validEvent && (o == Completed || o == Skipped))
            && (status == IGNORED <==> !validEvent || o == Ignored)
            && (status == ERROR <==> validEvent && o != Completed && o != Skipped && o != Ignored))
      && (row.kind != VM && row.payload.event == STOPPED ==>
            && (status == FINISHED <==> o == Completed || o == Skipped)
            && (status == ERROR <==> o != Completed && o != Skipped))
      && (row.kind != VM && row.payload.event == STARTED ==> status == FINISHED)
      && (row.kind != VM && row.payload.event == OTHER ==> status == IGNORED)
  {
    HostOutcomesBecomeStatuses(o);
  }

  /** However the workflows for a failed host end, its notification exits with a status: FINISHED if they
      ended well, else ERROR. */
  lemma HostFailuresAreHandled(row: Row, validEvent: bool, o: Outcome)
    requires row.kind == COMPUTE_HOST
    ensures Handle(row, validEvent, Ran(o)).Returns?
    ensures row.payload.event == STOPPED ==>
              Handle(row, validEvent, Ran(o)) == Returns(if o == Completed || o == Skipped then FINISHED else ERROR)
  {
    HandlersRaise(row, validEvent, Ran(o));
    ExitStatuses(row, validEvent, o);
  }

  /** How a call of _process_notification ends; Blocked: the schedule ran out before it got the lock. */
  datatype Ended = Done | Failed | Blocked

  datatype Refusal = HostNotFound | SegmentNotFound | OnMaintenance | Duplicate | InUse | NameExists

  datatype Result<+T> = Success(value: T) | Failure(error: Refusal)

  /** Action a is taken by thread t. */
  predicate By(a: Action, t: nat)
  {
    match a
    case Acquire(u) => u == t
    case CheckRow(u) => u == t
    case StartRun(u) => u == t
    case MarkHost(u) => u == t
    case Return(u, _) => u == t
    case Raise(u) => u == t
    case SaveOutcome(u) => u == t
    case Release(u) => u == t
    case _ => IsRound(a) && t == PERIODIC
  }

  lemma OthersKeepThread(s: System, a: Action, s': System, t: nat)
    requires Next(s, a, s') && !By(a, t) && Stands(s, t)
    ensures Stands(s', t) && s'.threads[t] == s.threads[t]
  {
    hide Next;
    if IsApi(a) {
      ApiKeepsThreads(s, a, s');
    } else if IsRound(a) {
      RoundKeepsThread(s, a, s', t);
    } else {
      ThreadKeepsOther(s, a, s', t);
    }
  }

  lemma ApiKeepsThreads(s: System, a: Action, s': System)
    requires Next(s, a, s') && IsApi(a)
    ensures s'.threads == s.threads && |s'.rows| >= |s.rows|
  {
  }

  lemma RoundKeepsThread(s: System, a: Action, s': System, t: nat)
    requires Next(s, a, s') && IsRound(a) && t != PERIODIC && t in s.threads
    ensures t in s'.threads && s'.threads[t] == s.threads[t] && |s'.rows| == |s.rows|
  {
  }

  lemma ThreadKeepsOther(s: System, a: Action, s': System, t: nat)
    requires Next(s, a, s') && !IsApi(a) && !IsRound(a) && !By(a, t) && t in s.threads
    ensures t in s'.threads && s'.threads[t] == s.threads[t] && |s'.rows| == |s.rows|
  {
  }

  lemma OthersKeepRound(s: System, a: Action, s': System)
    requires Next(s, a, s') && !By(a, PERIODIC)
    ensures s'.periodic == s.periodic
  {
  }

  predicate RowAfter(row: Row, row': Row)
  {
    SameData(row, row') && row.trail <= row'.trail && (row.Status() != NEW ==> row'.Status() != NEW)
  }

  /** What thread t may rely on when only others have run: its own place, the data of the row it
      works on, and, for the periodic task, the round. */
  predicate Undisturbed(s: System, s': System, t: nat)
  {
    && (Stands(s, t) ==>
          Stands(s', t) && s'.threads[t] == s.threads[t] && RowAfter(s.rows[s.threads[t].note], s'.rows[s.threads[t].note]))
    && (t == PERIODIC ==> s'.periodic == s.periodic)
  }

  lemma OthersDisturbNot(s: System, a: Action, s': System, t: nat)
    requires Inv(s) && Next(s, a, s') && !By(a, t)
    ensures Undisturbed(s, s', t)
  {
    hide Next;
    if Stands(s, t) {
      OthersKeepThread(s, a, s', t);
      WritesAreLegal(s, a, s', s.threads[t].note);
    }
    if t == PERIODIC { OthersKeepRound(s, a, s'); }
  }

  /** The steps of a thread in _process_notification, by its place there. */
  lemma ThreadSteps(s: System, t: nat)
    ensures CanAcquire(s, t) ==> Next(s, Acquire(t), Acquired(s, t))
    ensures At(s, t, Holding) ==> Next(s, CheckRow(t), Checked(s, t))
    ensures At(s, t, Passed) ==> Next(s, StartRun(t), Started(s, t))
    ensures CanSave(s, t) ==> Next(s, SaveOutcome(t), Saved(s, t))
    ensures CanRelease(s, t) ==> Next(s, Release(t), Released(s, t))
  {
  }

  lemma HandlerSteps(s: System, t: nat, status: Status)
    ensures CanMarkHost(s, t) ==> Next(s, MarkHost(t), HostMarked(s, t))
    ensures CanRaise(s, t) ==> Next(s, Raise(t), Raised(s, t))
    ensures CanReturn(s, t, status) ==> Next(s, Return(t, status), SetPc(s, t, Saving(status)))
  {
  }

  lemma RoundSteps(s: System)
    ensures InRound(s, Reread) ==> Next(s, RereadRow, RowReread(s))
    ensures InRound(s, MarkFailed) ==> Next(s, WriteFailed, FailedWritten(s))
    ensures forall tooOld | InRound(s, Turn) :: Next(s, TakeTurn(tooOld), TurnTaken(s, tooOld))
    ensures RoundOver(s) ==> Next(s, EndRound, s.(periodic := s.periodic.(phase := Idle)))
  {
  }

  lemma InRoundOfInv(s: System, phase: Phase)
    requires Inv(s) && s.periodic.phase == phase && phase != Idle && s.periodic.idx < |s.periodic.snapshot|
    ensures InRound(s, phase)
  {
    assert EntryOk(s, s.periodic.idx);
  }

  /** The actions that thread t itself takes. */
  function OwnActions(actions: seq<Action>, t: nat): seq<Action>
  {
    if actions == [] then []
    else
      var own, last := OwnActions(actions[..|actions| - 1], t), actions[|actions| - 1];
      if By(last, t) then own + [last] else own
  }

  lemma OwnGrows(actions: seq<Action>, a: Action, t: nat)
    ensures OwnActions(actions + [a], t) == OwnActions(actions, t) + if By(a, t) then [a] else []
  {
    assert (actions + [a])[..|actions|] == actions;
  }

  /** What a handler does for a row, up to the save of its status. */
  function HandlerScript(t: nat, row: Row, validEvent: bool, work: Work): seq<Action>
  {
    (if row.StopsHost() then [MarkHost(t)] else []) + EndScript(t, Handle(row, validEvent, work))
  }

  function EndScript(t: nat, handled: Handled): seq<Action>
  {
    match handled
    case Raises => [Raise(t)]
    case Returns(status) => [Return(t, status), SaveOutcome(t)]
  }

  /** What a thread does for a row under the lock: it reads the row and leaves it alone, or starts and
      goes through the handler. */
  function ProcessScript(t: nat, row: Row, validEvent: bool, work: Work, started: bool): seq<Action>
  {
    [CheckRow(t)] + if started then [StartRun(t)] + HandlerScript(t, row, validEvent, work) else []
  }

  /** Whether the check lets a thread with this copy go on, by the row it has read. */
  predicate GoesOn(copy: Status, read: Row) { !read.purged && !(copy == NEW && read.Status() != NEW) }

  /** How _process_notification ends, by the row it has read at its check: it fails exactly if that row
      is gone, or if it goes on and its handler raises. */
  function EndOf(copy: Status, read: Row, validEvent: bool, work: Work): Ended
  {
    if read.purged || (GoesOn(copy, read) && Handle(read, validEvent, work).Raises?) then Failed else Done
  }

  lemma EndIsNotBlocked(copy: Status, read: Row, validEvent: bool, work: Work)
    ensures EndOf(copy, read, validEvent, work) != Blocked
  {
  }

  /** In the recorded run, from a point on, there is a step a that found row n to be as given. */
  ghost predicate Saw(states: seq<System>, actions: seq<Action>, from: nat, a: Action, n: nat, row: Row)
  {
    exists k | from <= k < |actions| :: k < |states| && actions[k] == a && n < |states[k].rows| && states[k].rows[n] == row
  }

  lemma SawStays(states: seq<System>, actions: seq<Action>, states': seq<System>, actions': seq<Action>, from: nat,
                 from': nat, a: Action, n: nat, row: Row)
    requires Saw(states, actions, from, a, n, row) && states <= states' && actions <= actions' && from' <= from
    ensures Saw(states', actions', from', a, n, row)
  {
    var k :| from <= k < |actions| && k < |states| && actions[k] == a && n < |states[k].rows| && states[k].rows[n] == row;
    assert actions'[k] == a && states'[k] == states[k];
  }

  /** The periodic task's second read finds the row in ERROR. */
  predicate FoundError(read: Row) { !read.purged && read.Status() == ERROR }

  function RereadScript(failed: bool): seq<Action> { [RereadRow] + if failed then [WriteFailed] else [] }

  /** The turn of an entry is aborted in its call of _process_notification. */
  predicate CallFails(e: Entry, tooOld: bool, checked: Row, validEvent: bool, work: Work)
  {
    IsDue(e, tooOld) && EndOf(e.status, checked, validEvent, work) == Failed
  }

  /** What the periodic task does in one turn, up to its second read, if nothing fails. */
  function CallScript(e: Entry, tooOld: bool, checked: Row, validEvent: bool, work: Work): seq<Action>
  {
    [TakeTurn(tooOld)] +
    if IsDue(e, tooOld) then
      [Acquire(PERIODIC)] + ProcessScript(PERIODIC, checked, validEvent, work, GoesOn(e.status, checked)) +
      [Release(PERIODIC)]
    else []
  }

  /** What the periodic task does in its turns, by the two rows read in each. */
  function RoundScript(list: seq<Entry>, tooOld: nat -> bool, validEvent: nat -> bool, work: nat -> Work,
                       found: seq<(Row, Row)>): seq<Action>
    requires |found| <= |list|
  {
    if found == [] then []
    else
      var i := |found| - 1;
      RoundScript(list, tooOld, validEvent, work, found[..i]) +
      CallScript(list[i], tooOld(i), found[i].0, validEvent(i), work(i)) + RereadScript(FoundError(found[i].1))
  }

  lemma NoNoteTwice(s: System, list: seq<Entry>)
    requires IsSnapshot(s, list)
    ensures forall i, j | 0 <= i < j < |list| :: list[i].note != list[j].note
  {
  }

  lemma NoTurns(list: seq<Entry>, tooOld: nat -> bool, validEvent: nat -> bool, work: nat -> Work, own: seq<Action>)
    ensures own + RoundScript(list, tooOld, validEvent, work, []) == own
  {
  }

  lemma RoundScriptUnfolds(list: seq<Entry>, tooOld: nat -> bool, validEvent: nat -> bool, work: nat -> Work,
                           found: seq<(Row, Row)>, read: (Row, Row))
    requires |found| < |list|
    ensures var i := |found|;
      RoundScript(list, tooOld, validEvent, work, found + [read]) ==
      RoundScript(list, tooOld, validEvent, work, found) +
      CallScript(list[i], tooOld(i), read.0, validEvent(i), work(i)) + RereadScript(FoundError(read.1))
  {
    hide CallScript, RereadScript, FoundError;
    var more := found + [read];
    assert more[..|more| - 1] == found && more[|more| - 1] == read;
  }

  lemma RoundScriptGrows(list: seq<Entry>, tooOld: nat -> bool, validEvent: nat -> bool, work: nat -> Work,
                         found: seq<(Row, Row)>, read: (Row, Row), own: seq<Action>)
    requires |found| < |list|
    ensures var i := |found|;
      own + RoundScript(list, tooOld, validEvent, work, found + [read]) ==
      own + RoundScript(list, tooOld, validEvent, work, found) +
      CallScript(list[i], tooOld(i), read.0, validEvent(i), work(i)) + RereadScript(FoundError(read.1))
  {
    hide RoundScript, CallScript, RereadScript, FoundError;
    RoundScriptUnfolds(list, tooOld, validEvent, work, found, read);
    Associative(own, RoundScript(list, tooOld, validEvent, work, found),
                CallScript(list[|found|], tooOld(|found|), read.0, validEvent(|found|), work(|found|)),
                RereadScript(FoundError(read.1)));
  }

  lemma Associative(a: seq<Action>, b: seq<Action>, c: seq<Action>, d: seq<Action>)
    ensures a + (b + c + d) == a + b + c + d
  {
  }

  lemma ScriptOfData(t: nat, row: Row, row': Row, validEvent: bool, work: Work)
    requires SameData(row, row')
    ensures HandlerScript(t, row, validEvent, work) == HandlerScript(t, row', validEvent, work)
    ensures Handle(row, validEvent, work) == Handle(row', validEvent, work)
  {
  }

  /** The steps of a thread under the lock, by the row it reads: it starts exactly if the row is there and,
      for a NEW copy, still NEW; then it puts the host on maintenance exactly for a STOPPED notification
      of a host or process, and returns exactly the handler's status. It fails exactly if the row is
      gone, or it has started and the handler raises. */
  lemma ProcessingSteps(t: nat, copy: Status, read: Row, validEvent: bool, work: Work)
    ensures var script := ProcessScript(t, read, validEvent, work, GoesOn(copy, read));
      var handled := Handle(read, validEvent, work);
      var starts := !read.purged && (copy == NEW ==> read.Status() == NEW);
      && (StartRun(t) in script <==> starts)
      && (MarkHost(t) in script <==> starts && read.kind != VM && read.payload.event == STOPPED)
      && (forall status :: Return(t, status) in script <==> starts && handled == Returns(status))
      && (SaveOutcome(t) in script <==> starts && handled.Returns?)
      && (Raise(t) in script <==> starts && handled.Raises?)
      && (EndOf(copy, read, validEvent, work) == Failed <==> read.purged || (starts && handled.Raises?))
      && (EndOf(copy, read, validEvent, work) == Done <==> !read.purged && !(starts && handled.Raises?))
  {
    hide Handle;
  }

  /** The steps of the periodic task in a turn, by the entry and the two rows it reads: it takes the lock
      and processes the notification exactly if the entry is listed as ERROR, or as NEW and too old; it
      writes FAILED exactly if its second read finds ERROR. */
  lemma TurnSteps(e: Entry, tooOld: bool, checked: Row, validEvent: bool, work: Work, reread: Row)
    ensures var due := e.status == ERROR || (e.status == NEW && tooOld);
      var call := CallScript(e, tooOld, checked, validEvent, work);
      && (Acquire(PERIODIC) in call <==> due) && (Release(PERIODIC) in call <==> due) && (CheckRow(PERIODIC) in call <==> due)
      && (StartRun(PERIODIC) in call <==> due && !checked.purged && (e.status == NEW ==> checked.Status() == NEW))
      && (WriteFailed in RereadScript(FoundError(reread)) <==> !reread.purged && reread.Status() == ERROR)
      && (CallFails(e, tooOld, checked, validEvent, work) <==> due && EndOf(e.status, checked, validEvent, work) == Failed)
  {
    ProcessingSteps(PERIODIC, e.status, checked, validEvent, work);
    hide EndOf, GoesOn, ProcessScript;
    assert CheckRow(PERIODIC) in ProcessScript(PERIODIC, checked, validEvent, work, GoesOn(e.status, checked)) by {
      FirstIsCheck(PERIODIC, checked, validEvent, work, GoesOn(e.status, checked));
    }
  }

  lemma FirstIsCheck(t: nat, row: Row, validEvent: bool, work: Work, started: bool)
    ensures CheckRow(t) in ProcessScript(t, row, validEvent, work, started)
  {
    assert ProcessScript(t, row, validEvent, work, started)[0] == CheckRow(t);
  }

  class Deployment {
    var sys: System
    var schedule: seq<Burst>
    ghost var states: seq<System>
    ghost var actions: seq<Action>

    /** A deployment as it is first started, and what its other threads are going to do. */
    constructor (start: System, schedule: seq<Burst>)
      requires Init(start)
      ensures Valid() && sys == start && this.schedule == schedule && states == [start] && actions == []
    {
      sys, this.schedule, states, actions := start, schedule, [start], [];
    }

    /** The system has come to its state by the recorded run. */
    ghost predicate Valid()
      reads this
    {
      IsRun(states, actions) && states[|actions|] == sys
    }

    /** What thread t has done since the run began. */
    ghost function Own(t: nat): seq<Action>
      reads this
    {
      OwnActions(actions, t)
    }

    /** One step of the protocol. */
    method Take(ghost a: Action, s': System)
      requires Valid() && Next(sys, a, s')
      modifies this
      ensures Valid() && sys == s' && schedule == old(schedule)
      ensures forall t :: Own(t) == old(Own(t)) + if By(a, t) then [a] else []
      ensures states == old(states) + [s'] && actions == old(actions) + [a]
    {
      hide Next, Init, OwnActions;
      forall t { OwnGrows(actions, a, t); }
      ghost var was := states;
      sys := s';
      states := states + [s'];
      actions := actions + [a];
      assert forall i | 0 <= i < |was| :: states[i] == was[i];
    }

    /** A point where thread t may be preempted: the other threads take the next burst of steps. */
    method Yield(t: nat)
      requires Valid()
      modifies this
      ensures Valid() && Undisturbed(old(sys), sys, t)
      ensures if old(schedule) == [] then schedule == [] else schedule == old(schedule[1..])
      ensures Own(t) == old(Own(t))
      ensures old(states) <= states && old(actions) <= actions
    {
      hide Next, Inv, OwnActions;
      if schedule == [] { return; }
      var burst := schedule[0];
      schedule := schedule[1..];
      for i := 0 to |burst|
        invariant Valid() && Undisturbed(old(sys), sys, t) && schedule == old(schedule[1..])
        invariant Own(t) == old(Own(t))
        invariant old(states) <= states && old(actions) <= actions
      {
        var (a, s') := burst[i];
        if !By(a, t) && Next(sys, a, s') {
          RunKeeps(states, actions, |actions|);
          OthersDisturbNot(sys, a, s', t);
          Take(a, s');
        }
      }
    }

    /** Puts the source host on maintenance, if the handler of the row does so. */
    method MaintainHost(t: nat)
      requires Valid() && At(sys, t, Handling(false))
      modifies this
      ensures Valid() && Stands(sys, t) && sys.threads[t].note == old(sys).threads[t].note
      ensures SameData(old(sys).rows[sys.threads[t].note], sys.rows[sys.threads[t].note])
      ensures sys.threads[t].pc == Handling(sys.rows[sys.threads[t].note].StopsHost())
      ensures Own(t) == old(Own(t)) + if sys.rows[sys.threads[t].note].StopsHost() then [MarkHost(t)] else []
      ensures t == PERIODIC ==> sys.periodic == old(sys).periodic
      ensures old(states) <= states && old(actions) <= actions
    {
      hide Next, Inv, LiveInv, Init;
      var n := sys.threads[t].note;
      if sys.rows[n].StopsHost() {
        Yield(t);
        HostLookupsNeverFail(states, actions, |actions|, n);
        HandlerSteps(sys, t, NEW);
        Take(MarkHost(t), HostMarked(sys, t));
      }
    }

    /** The handler's part of do_process_notification, up to its return or exception. */
    method RunHandler(t: nat, validEvent: bool, work: Work) returns (handled: Handled)
      requires Valid() && At(sys, t, Handling(false))
      modifies this
      ensures Valid() && Stands(sys, t) && sys.threads[t].note == old(sys).threads[t].note
      ensures handled == Handle(old(sys).rows[old(sys).threads[t].note], validEvent, work)
      ensures sys.threads[t].pc == if handled.Raises? then Leaving(true) else Saving(handled.status)
      ensures var row := old(sys).rows[old(sys).threads[t].note];
              Own(t) + (if handled.Raises? then [] else [SaveOutcome(t)]) ==
              old(Own(t)) + HandlerScript(t, row, validEvent, work)
      ensures t == PERIODIC ==> sys.periodic == old(sys).periodic
      ensures old(states) <= states && old(actions) <= actions
    {
      hide Next, Inv, Init, Valid, Own, Possible, Handle, EndScript;
      ghost var row := sys.rows[sys.threads[t].note];
      MaintainHost(t);
      Yield(t);
      ScriptOfData(t, row, sys.rows[sys.threads[t].note], validEvent, work);
      handled := Handle(sys.rows[sys.threads[t].note], validEvent, work);
      EndHandler(t, handled);
    }

    /** The handler returns or raises. */
    method EndHandler(t: nat, handled: Handled)
      requires Valid() && CanRaise(sys, t) && (handled.Returns? ==> CanReturn(sys, t, handled.status))
      modifies this
      ensures Valid() && Stands(sys, t) && sys.threads[t].note == old(sys).threads[t].note
      ensures sys.periodic == old(sys).periodic
      ensures sys.threads[t].pc == if handled.Raises? then Leaving(true) else Saving(handled.status)
      ensures Own(t) + (if handled.Raises? then [] else [SaveOutcome(t)]) == old(Own(t)) + EndScript(t, handled)
      ensures old(states) <= states && old(actions) <= actions
    {
      hide Next, Inv, Init, Valid, Own, Possible;
      HandlerSteps(sys, t, if handled.Returns? then handled.status else NEW);
      match handled {
        case Raises => Take(Raise(t), Raised(sys, t));
        case Returns(status) => Take(Return(t, status), SetPc(sys, t, Saving(status)));
      }
    }

    /** int_lock.acquire(blocking=True) of the source host's lock; false when the schedule ends while
        another thread still holds it. */
    method AcquireLock(t: nat) returns (got: bool)
      requires Valid() && At(sys, t, Waiting)
      modifies this
      ensures Valid() && At(sys, t, if got then Holding else Waiting)
      ensures sys.threads[t].note == old(sys).threads[t].note
      ensures !got ==> schedule == []
      ensures sys.threads[t].copy == old(sys).threads[t].copy
      ensures SameData(old(sys).rows[sys.threads[t].note], sys.rows[sys.threads[t].note])
      ensures Own(t) == old(Own(t)) + if got then [Acquire(t)] else []
      ensures t == PERIODIC ==> sys.periodic == old(sys).periodic
      ensures old(states) <= states && old(actions) <= actions
    {
      hide Next, Inv, Init;
      ghost var s0 := sys;
      while sys.rows[sys.threads[t].note].host in sys.locks && schedule != []
        invariant Valid() && At(sys, t, Waiting) && sys.threads[t] == s0.threads[t]
        invariant t == PERIODIC ==> sys.periodic == s0.periodic
        invariant SameData(s0.rows[sys.threads[t].note], sys.rows[sys.threads[t].note])
        invariant Own(t) == old(Own(t))
        invariant old(states) <= states && old(actions) <= actions
        decreases |schedule|
      {
        Yield(t);
      }
      got := sys.rows[sys.threads[t].note].host !in sys.locks;
      if got {
        ThreadSteps(sys, t);
        Take(Acquire(t), Acquired(sys, t));
      }
    }

    /** Reads the row from the database: go on, skip a copy that is out of date, or fail; all of it
        decided by the row as it is at that step. */
    method CheckDatabase(t: nat) returns (pc: Pc, ghost read: Row)
      requires Valid() && At(sys, t, Holding)
      modifies this
      ensures Valid() && At(sys, t, pc) && sys.threads[t].note == old(sys).threads[t].note
      ensures Saw(states, actions, |old(actions)|, CheckRow(t), sys.threads[t].note, read)
      ensures SameData(old(sys).rows[sys.threads[t].note], read)
      ensures pc == if GoesOn(old(sys).threads[t].copy, read) then Passed else Leaving(read.purged)
      ensures pc == Leaving(false) ==> sys.rows[sys.threads[t].note].Status() != NEW
      ensures SameData(old(sys).rows[sys.threads[t].note], sys.rows[sys.threads[t].note])
      ensures Own(t) == old(Own(t)) + [CheckRow(t)]
      ensures t == PERIODIC ==> sys.periodic == old(sys).periodic
      ensures old(states) <= states && old(actions) <= actions
    {
      hide Next, Inv, Init;
      Yield(t);
      ThreadSteps(sys, t);
      read := sys.rows[sys.threads[t].note];
      ghost var k := |actions|;
      Take(CheckRow(t), Checked(sys, t));
      assert actions[k] == CheckRow(t) && states[k].rows[sys.threads[t].note] == read;
      pc := sys.threads[t].pc;
    }

    /** Saves the status that the handler returned. */
    method SaveStatus(t: nat, status: Status)
      requires Valid() && At(sys, t, Saving(status)) && status != NEW
      modifies this
      ensures Valid() && At(sys, t, Leaving(false))
      ensures sys.threads[t].note == old(sys).threads[t].note
      ensures sys.rows[sys.threads[t].note].Status() == status
      ensures Own(t) == old(Own(t)) + [SaveOutcome(t)]
      ensures t == PERIODIC ==> sys.periodic == old(sys).periodic
      ensures old(states) <= states && old(actions) <= actions
    {
      hide Next, Inv, Init;
      Yield(t);
      ThreadSteps(sys, t);
      Take(SaveOutcome(t), Saved(sys, t));
    }

    /** do_process_notification: reads the row, skips a copy that is out of date, writes RUNNING,
        runs the handler and saves the status it returned. It goes on, and it fails, exactly when the
        row it has read says so. */
    method DoProcessNotification(t: nat, validEvent: bool, work: Work) returns (ended: Ended, ghost read: Row)
      requires Valid() && At(sys, t, Holding)
      modifies this
      ensures Valid() && At(sys, t, Leaving(ended == Failed)) && sys.threads[t].note == old(sys).threads[t].note
      ensures Saw(states, actions, |old(actions)|, CheckRow(t), sys.threads[t].note, read)
      ensures SameData(old(sys).rows[sys.threads[t].note], read)
      ensures ended == EndOf(old(sys).threads[t].copy, read, validEvent, work)
      ensures ended == Done ==> sys.rows[sys.threads[t].note].Status() != NEW
      ensures var handled := Handle(read, validEvent, work);
              GoesOn(old(sys).threads[t].copy, read) && handled.Returns? ==>
                sys.rows[sys.threads[t].note].Status() == handled.status
      ensures Own(t) == old(Own(t)) + ProcessScript(t, read, validEvent, work, GoesOn(old(sys).threads[t].copy, read))
      ensures t == PERIODIC ==> sys.periodic == old(sys).periodic
      ensures old(states) <= states && old(actions) <= actions
    {
      hide Next, Inv, Init, Valid, Own, HandlerScript, Handle, Saw;
      var pc;
      pc, read := CheckDatabase(t);
      ghost var states1, actions1 := states, actions;
      if pc != Passed {
        return if pc == Leaving(true) then Failed else Done, read;
      }
      StartHandler(t);
      ScriptOfData(t, read, sys.rows[sys.threads[t].note], validEvent, work);
      var handled := RunHandler(t, validEvent, work);
      assert handled.Raises? ==> Own(t) + [] == Own(t);
      if handled.Raises? {
        ended := Failed;
      } else {
        SaveStatus(t, handled.status);
        ended := Done;
      }
      SawStays(states1, actions1, states, actions, |old(actions)|, |old(actions)|, CheckRow(t), sys.threads[t].note, read);
    }

    /** Writes RUNNING. */
    method StartHandler(t: nat)
      requires Valid() && At(sys, t, Passed)
      modifies this
      ensures Valid() && At(sys, t, Handling(false)) && sys.threads[t].note == old(sys).threads[t].note
      ensures SameData(old(sys).rows[sys.threads[t].note], sys.rows[sys.threads[t].note])
      ensures t == PERIODIC ==> sys.periodic == old(sys).periodic
      ensures Own(t) == old(Own(t)) + [StartRun(t)]
      ensures old(states) <= states && old(actions) <= actions
    {
      hide Next, Inv, Init, Own;
      Yield(t);
      ThreadSteps(sys, t);
      Take(StartRun(t), Started(sys, t));
    }

    /** _process_notification for a notification object handed to thread t; Blocked when the
        schedule ends while another thread still holds the lock. */
    method ProcessNotification(t: nat, validEvent: bool, work: Work) returns (ended: Ended, ghost read: Row)
      requires Valid() && At(sys, t, Waiting)
      modifies this
      ensures Valid()
      ensures ended == Blocked ==> schedule == [] && At(sys, t, Waiting) && Own(t) == old(Own(t))
      ensures ended != Blocked ==>
                && t !in sys.threads
                && Saw(states, actions, |old(actions)|, CheckRow(t), old(sys).threads[t].note, read)
                && SameData(old(sys).rows[old(sys).threads[t].note], read)
                && ended == EndOf(old(sys).threads[t].copy, read, validEvent, work)
                && Own(t) == old(Own(t)) + [Acquire(t)] +
                             ProcessScript(t, read, validEvent, work, GoesOn(old(sys).threads[t].copy, read)) + [Release(t)]
      ensures var n := old(sys).threads[t].note;
              ended == Done ==> n < |sys.rows| && sys.rows[n].Status() != NEW
      ensures t == PERIODIC ==>
                sys.periodic == (if ended == Done then old(sys).periodic.(phase := Reread)
                                 else if ended == Failed then old(sys).periodic.(phase := Idle)
                                 else old(sys).periodic)
      ensures old(states) <= states && old(actions) <= actions
    {
      hide Next, Inv, Init, Valid, Own, ProcessScript, Handle, Saw, EndOf, GoesOn;
      read := sys.rows[sys.threads[t].note];
      ghost var n := sys.threads[t].note;
      var got := AcquireLock(t);
      if !got { return Blocked, read; }
      ghost var from := |actions|;
      ended, read := DoProcessNotification(t, validEvent, work);
      EndIsNotBlocked(old(sys).threads[t].copy, read, validEvent, work);
      ghost var states1, actions1 := states, actions;
      ReleaseLock(t);
      SawStays(states1, actions1, states, actions, from, |old(actions)|, CheckRow(t), n, read);
    }

    method ReleaseLock(t: nat)
      requires Valid() && Stands(sys, t) && sys.threads[t].pc.Leaving?
      modifies this
      ensures Valid() && t !in sys.threads
      ensures var n := old(sys).threads[t].note;
              n < |sys.rows| && (old(sys).rows[n].Status() != NEW ==> sys.rows[n].Status() != NEW)
      ensures t == PERIODIC ==>
                sys.periodic == old(sys).periodic.(phase := if old(sys).threads[t].pc.failed then Idle else Reread)
      ensures Own(t) == old(Own(t)) + [Release(t)]
      ensures old(states) <= states && old(actions) <= actions
    {
      hide Next, Inv, Init, Own;
      Yield(t);
      ThreadSteps(sys, t);
      Take(Release(t), Released(sys, t));
    }

    /** The periodic task is preempted in its loop. */
    method YieldRound(phase: Phase)
      requires Valid() && phase != Idle && sys.periodic.phase == phase && sys.periodic.idx < |sys.periodic.snapshot|
      modifies this
      ensures Valid() && InRound(sys, phase) && sys.periodic == old(sys).periodic
      ensures Own(PERIODIC) == old(Own(PERIODIC))
      ensures old(states) <= states && old(actions) <= actions
    {
      hide Next, Inv, Init, Own;
      Yield(PERIODIC);
      RunKeeps(states, actions, |actions|);
      InRoundOfInv(sys, phase);
    }

    /** The query of the periodic task: all notifications in ERROR or NEW. */
    method UnfinishedNotifications() returns (list: seq<Entry>)
      requires Valid()
      ensures IsSnapshot(sys, list)
      ensures forall e :: e in list <==>
                && e.note < |sys.rows| && !sys.rows[e.note].purged && e.status == sys.rows[e.note].Status()
                && (e.status == NEW || e.status == ERROR)
    {
      list := [];
      for n := 0 to |sys.rows|
        invariant forall i | 0 <= i < |list| ::
          && list[i].note < n && Live(sys, list[i].note) && list[i].status == sys.rows[list[i].note].Status()
          && (list[i].status == NEW || list[i].status == ERROR)
        invariant forall i, j | 0 <= i < j < |list| :: list[i].note != list[j].note
        invariant forall m | 0 <= m < n ::
          Live(sys, m) && (sys.rows[m].Status() == NEW || sys.rows[m].Status() == ERROR) ==>
          Entry(m, sys.rows[m].Status()) in list
      {
        var row := sys.rows[n];
        if !row.purged && (row.Status() == NEW || row.Status() == ERROR) {
          list := list + [Entry(n, row.Status())];
        }
      }
    }

    /** The rest of a turn, after the call of _process_notification if there was one: the row is read
        again; it fails if the row is gone, and FAILED is written exactly if it is found in ERROR. */
    method FailIfError() returns (ended: Ended, ghost read: Row)
      requires Valid() && InRound(sys, Reread)
      modifies this
      ensures Valid() && ended == if read.purged then Failed else Done
      ensures Saw(states, actions, |old(actions)|, RereadRow, old(sys).periodic.snapshot[old(sys).periodic.idx].note, read)
      ensures sys.periodic == if ended == Done then NextTurn(old(sys).periodic) else old(sys).periodic.(phase := Idle)
      ensures Own(PERIODIC) == old(Own(PERIODIC)) + RereadScript(FoundError(read))
      ensures old(states) <= states && old(actions) <= actions
    {
      hide Next, Inv, Init, Valid, Own;
      ghost var n := sys.periodic.snapshot[sys.periodic.idx].note;
      ended, read := RereadDatabase();
      ghost var states1, actions1 := states, actions;
      if sys.periodic.phase == MarkFailed {
        YieldRound(MarkFailed);
        RoundSteps(sys);
        Take(WriteFailed, FailedWritten(sys));
      }
      SawStays(states1, actions1, states, actions, |old(actions)|, |old(actions)|, RereadRow, n, read);
    }

    /** Reads the row again; the round is aborted if it is gone. */
    method RereadDatabase() returns (ended: Ended, ghost read: Row)
      requires Valid() && InRound(sys, Reread)
      modifies this
      ensures Valid() && ended == if read.purged then Failed else Done
      ensures Saw(states, actions, |old(actions)|, RereadRow, old(sys).periodic.snapshot[old(sys).periodic.idx].note, read)
      ensures sys.periodic == if read.purged then old(sys).periodic.(phase := Idle)
                              else if FoundError(read) then old(sys).periodic.(phase := MarkFailed)
                              else NextTurn(old(sys).periodic)
      ensures Own(PERIODIC) == old(Own(PERIODIC)) + [RereadRow]
      ensures old(states) <= states && old(actions) <= actions
    {
      hide Next, Inv, Init, Own;
      YieldRound(Reread);
      RoundSteps(sys);
      ghost var k, n := |actions|, sys.periodic.snapshot[sys.periodic.idx].note;
      read := sys.rows[n];
      Take(RereadRow, RowReread(sys));
      assert actions[k] == RereadRow && states[k].rows[n] == read;
      ended := if sys.periodic.phase == Idle then Failed else Done;
    }

    /** One turn of the periodic task's loop, in terms of the row read at the check of the call, if the
        entry is due, and of the row read again after it. */
    method TurnOfRound(tooOld: bool, validEvent: bool, work: Work)
      returns (ended: Ended, ghost checked: Row, ghost reread: Row)
      requires Valid() && InRound(sys, Turn)
      modifies this
      ensures Valid() && (ended == Blocked ==> schedule == []) && (ended == Failed ==> sys.periodic.phase == Idle)
      ensures var p := old(sys).periodic;
              ended == Done ==>
                sys.periodic == Periodic(Turn, p.snapshot, p.idx + 1,
                                         if IsDue(p.snapshot[p.idx], tooOld) then p.due + {p.idx} else p.due)
      ensures var e := old(sys).periodic.snapshot[old(sys).periodic.idx];
              && (IsDue(e, tooOld) && ended != Blocked ==>
                    && Saw(states, actions, |old(actions)|, CheckRow(PERIODIC), e.note, checked)
                    && SameData(old(sys).rows[e.note], checked))
              && (ended == Done || (ended == Failed && !CallFails(e, tooOld, checked, validEvent, work)) ==>
                    Saw(states, actions, |old(actions)|, RereadRow, e.note, reread))
              && (ended == Done ==> !CallFails(e, tooOld, checked, validEvent, work) && !reread.purged)
              && (ended == Failed ==> CallFails(e, tooOld, checked, validEvent, work) || reread.purged)
              && (ended == Done ==>
                    Own(PERIODIC) == old(Own(PERIODIC)) + CallScript(e, tooOld, checked, validEvent, work) +
                                     RereadScript(FoundError(reread)))
    {
      hide Next, Inv, Init, Valid, Own, CallScript, RereadScript, Saw, SameData, FoundError, EndOf;
      ghost var from, e := |actions|, sys.periodic.snapshot[sys.periodic.idx];
      reread := sys.rows[e.note];
      ended, checked := ProcessIfDue(tooOld, validEvent, work);
      if ended != Done { return; }
      ghost var states1, actions1 := states, actions;
      ended, reread := FailIfError();
      SawStays(states, actions, states, actions, |actions1|, from, RereadRow, e.note, reread);
      if IsDue(e, tooOld) { SawStays(states1, actions1, states, actions, from, from, CheckRow(PERIODIC), e.note, checked); }
    }

    /** The first part of a turn: _process_notification is called if the entry is due. */
    method ProcessIfDue(tooOld: bool, validEvent: bool, work: Work) returns (ended: Ended, ghost checked: Row)
      requires Valid() && InRound(sys, Turn)
      modifies this
      ensures Valid() && (ended == Blocked ==> schedule == []) && (ended == Failed ==> sys.periodic.phase == Idle)
      ensures var p := old(sys).periodic;
              var e := p.snapshot[p.idx];
              && (ended == Done ==>
                    InRound(sys, Reread) &&
                    sys.periodic == p.(phase := Reread, due := if IsDue(e, tooOld) then p.due + {p.idx} else p.due))
              && (ended == Failed <==> CallFails(e, tooOld, checked, validEvent, work) && ended != Blocked)
              && (IsDue(e, tooOld) && ended != Blocked ==>
                    && Saw(states, actions, |old(actions)|, CheckRow(PERIODIC), e.note, checked)
                    && SameData(old(sys).rows[e.note], checked))
              && (ended == Done ==>
                    Own(PERIODIC) == old(Own(PERIODIC)) + CallScript(e, tooOld, checked, validEvent, work))
      ensures old(states) <= states && old(actions) <= actions
    {
      hide Next, Inv, Init, Valid, Own, ProcessScript, Saw, SameData, GoesOn, EndOf;
      ghost var from, e := |actions|, sys.periodic.snapshot[sys.periodic.idx];
      checked := sys.rows[e.note];
      var due := TakeNextTurn(tooOld);
      ended := Done;
      if due {
        ghost var from1 := |actions|;
        ended, checked := ProcessNotification(PERIODIC, validEvent, work);
        if ended == Blocked { return; }
        ghost var states1, actions1 := states, actions;
        if ended == Done { YieldRound(Reread); }
        SawStays(states1, actions1, states, actions, from1, from, CheckRow(PERIODIC), e.note, checked);
      } else {
        YieldRound(Reread);
      }
    }

    /** The head of the loop: processes the entry or not. */
    method TakeNextTurn(tooOld: bool) returns (due: bool)
      requires Valid() && InRound(sys, Turn)
      modifies this
      ensures Valid() && sys == TurnTaken(old(sys), tooOld) && schedule == old(schedule)
      ensures due == IsDue(old(sys).periodic.snapshot[old(sys).periodic.idx], tooOld)
      ensures due ==> At(sys, PERIODIC, Waiting)
      ensures Own(PERIODIC) == old(Own(PERIODIC)) + [TakeTurn(tooOld)]
      ensures old(states) <= states && old(actions) <= actions
    {
      hide Next, Inv, Init, Own;
      RoundSteps(sys);
      due := IsDue(sys.periodic.snapshot[sys.periodic.idx], tooOld);
      Take(TakeTurn(tooOld), TurnTaken(sys, tooOld));
    }

    /** _process_unfinished_notifications: whatever the RPC workers and the API do meanwhile, a round
        that runs to its end leaves every notification it listed as ERROR, or listed as NEW and found
        too old at its turn, FINISHED, IGNORED or FAILED, or RUNNING if its own handler raised. */
    method ProcessUnfinishedNotifications(tooOld: nat -> bool, validEvent: nat -> bool, work: nat -> Work)
      returns (ended: Ended, list: seq<Entry>, ghost found: seq<(Row, Row)>)
      requires Valid() && sys.periodic.phase == Idle
      modifies this
      ensures Valid() && (ended == Blocked ==> schedule == [])
      ensures forall e :: e in list <==>
                && e.note < |old(sys).rows| && !old(sys).rows[e.note].purged && e.status == old(sys).rows[e.note].Status()
                && (e.status == NEW || e.status == ERROR)
      ensures forall i, j | 0 <= i < j < |list| :: list[i].note != list[j].note
      ensures ended != Blocked ==> sys.periodic.phase == Idle
      ensures ended == Done ==>
                forall i | 0 <= i < |list| && (list[i].status == ERROR || (list[i].status == NEW && tooOld(i))) ::
                  var n := list[i].note;
                  && n < |sys.rows|
                  && (sys.rows[n].Status() in {FINISHED, IGNORED, FAILED} ||
                      (sys.rows[n].Status() == RUNNING && n in sys.raised))
      ensures ended == Done ==>
                && |found| == |list|
                && Own(PERIODIC) == old(Own(PERIODIC)) + [BeginRound(list)] +
                                    RoundScript(list, tooOld, validEvent, work, found) + [EndRound]
    {
      hide Next, Inv, Init, Valid, IsSnapshot, Saw, Own, RoundScript, CallScript, RereadScript, FoundError, CallFails;
      list := UnfinishedNotifications();
      NoNoteTwice(sys, list);
      TakeBeginRound(list);
      found := [];
      ghost var own := Own(PERIODIC);
      NoTurns(list, tooOld, validEvent, work, own);
      for i := 0 to |list|
        invariant Valid()
        invariant sys.periodic.phase == Turn && sys.periodic.snapshot == list && sys.periodic.idx == i
        invariant forall j | 0 <= j < i && IsDue(list[j], tooOld(j)) :: j in sys.periodic.due
        invariant |found| == i && Own(PERIODIC) == own + RoundScript(list, tooOld, validEvent, work, found)
      {
        YieldRound(Turn);
        ghost var checked, reread;
        ended, checked, reread := TurnOfRound(tooOld(i), validEvent(i), work(i));
        if ended != Done { return; }
        RoundScriptGrows(list, tooOld, validEvent, work, found, (checked, reread), own);
        found := found + [(checked, reread)];
      }
      ended := Done;
      TakeEndRound();
    }

    method TakeBeginRound(list: seq<Entry>)
      requires Valid() && sys.periodic.phase == Idle && IsSnapshot(sys, list)
      modifies this
      ensures Valid() && sys.periodic == Periodic(Turn, list, 0, {}) && schedule == old(schedule)
      ensures Own(PERIODIC) == old(Own(PERIODIC)) + [BeginRound(list)]
    {
      Take(BeginRound(list), RoundBegun(sys, list));
    }

    /** The loop has ended; by now every entry that was due is settled. */
    method TakeEndRound()
      requires Valid() && RoundOver(sys)
      modifies this
      ensures Valid() && sys.periodic.phase == Idle && schedule == old(schedule)
      ensures Own(PERIODIC) == old(Own(PERIODIC)) + [EndRound]
      ensures forall i | i in old(sys).periodic.due && 0 <= i < |old(sys).periodic.snapshot| ::
                var n := old(sys).periodic.snapshot[i].note;
                n < |sys.rows| && IsSettled(sys.rows[n].Status(), n in sys.raised)
    {
      hide Next, Inv, Init;
      RunKeeps(states, actions, |actions|);
      forall i | i in sys.periodic.due && 0 <= i < |sys.periodic.snapshot|
        ensures var n := sys.periodic.snapshot[i].note;
                n < |sys.rows| && IsSettled(sys.rows[n].Status(), n in sys.raised)
      {
        RoundSettles(sys, i);
      }
      RoundSteps(sys);
      Take(EndRound, sys.(periodic := sys.periodic.(phase := Idle)));
    }

    // ----- API transactions -----

    /** Whether an earlier notification makes the new one a duplicate: a row of the same host, type and
        payload that is NEW or RUNNING and was generated no more than the interval before it. */
    method IsDuplicateNotification(host: nat, kind: Kind, payload: Payload, generated: int) returns (found: bool)
      ensures found <==> exists n | 0 <= n < |sys.rows| ::
                var row := sys.rows[n];
                && !row.purged && row.host == host && row.kind == kind && row.payload == payload
                && (row.Status() == NEW || row.Status() == RUNNING) && generated - row.generated <= sys.interval
      ensures found <==> IsDuplicate(sys, host, kind, payload, generated)
    {
      for n := 0 to |sys.rows|
        invariant forall m | 0 <= m < n :: !Duplicates(sys, m, host, kind, payload, generated)
        invariant forall m | 0 <= m < n ::
          var row := sys.rows[m];
          !(!row.purged && row.host == host && row.kind == kind && row.payload == payload &&
            (row.Status() == NEW || row.Status() == RUNNING) && generated - row.generated <= sys.interval)
      {
        var row := sys.rows[n];
        if !row.purged && row.host == host && row.kind == kind && (row.Status() == NEW || row.Status() == RUNNING) &&
           row.generated >= generated - sys.interval
        {
          if row.payload == payload {
            assert Duplicates(sys, n, host, kind, payload, generated);
            return true;
          }
        }
      }
      found := false;
    }

    /** create_notification, for the one host of that name if there is one: refused if the host is on
        maintenance or the notification a duplicate; otherwise one row in status NEW is appended. */
    method CreateNotificationFor(hostname: string, kind: Kind, payload: Payload, generated: int) returns (r: Result<nat>)
      requires Valid()
      modifies this
      ensures Valid() && schedule == old(schedule)
      ensures r == Failure(HostNotFound) <==> forall h | h in old(sys).hosts :: old(sys).hosts[h].name != hostname
      ensures forall h | h in old(sys).hosts && old(sys).hosts[h].name == hostname ::
                r == if old(sys).hosts[h].onMaintenance then Failure(OnMaintenance)
                     else if exists n | 0 <= n < |old(sys).rows| ::
                               var row := old(sys).rows[n];
                               && !row.purged && row.host == h && row.kind == kind && row.payload == payload
                               && (row.Status() == NEW || row.Status() == RUNNING)
                               && generated - row.generated <= old(sys).interval
                     then Failure(Duplicate) else Success(|old(sys).rows|)
      ensures r.Failure? ==> sys == old(sys)
      ensures forall h | h in old(sys).hosts && old(sys).hosts[h].name == hostname && r.Success? ::
                sys == old(sys).(rows := old(sys).rows + [Row(h, kind, payload, generated, [NEW], false)])
    {
      NamesAreUnique(states, actions, |actions|);
      hide Init;
      if h :| h in sys.hosts && sys.hosts[h].name == hostname {
        if sys.hosts[h].onMaintenance { return Failure(OnMaintenance); }
        var duplicate := IsDuplicateNotification(h, kind, payload, generated);
        if duplicate { return Failure(Duplicate); }
        r := Success(|sys.rows|);
        TakeCreate(h, kind, payload, generated);
      } else {
        r := Failure(HostNotFound);
      }
    }

    method TakeCreate(h: nat, kind: Kind, payload: Payload, generated: int)
      requires Valid() && CanCreateNotification(sys, h, kind, payload, generated)
      modifies this
      ensures Valid() && schedule == old(schedule)
      ensures sys == old(sys).(rows := old(sys).rows + [Row(h, kind, payload, generated, [NEW], false)])
    {
      Take(CreateNotification(h, kind, payload, generated),
           sys.(rows := sys.rows + [Row(h, kind, payload, generated, [NEW], false)]));
    }

    /** create_segment, with a fresh uuid. */
    method CreateSegmentOf(segment: nat)
      requires Valid() && segment !in sys.segments
      modifies this
      ensures Valid() && schedule == old(schedule)
      ensures sys == old(sys).(segments := old(sys).segments + {segment})
    {
      hide Init, IsRun;
      Take(CreateSegment(segment), sys.(segments := sys.segments + {segment}));
    }

    /** create_host, with a fresh uuid: one host is added, as given; no guard looks at notifications. */
    method CreateHostOf(segment: nat, host: nat, name: string, reserved: bool, onMaintenance: bool) returns (r: Result<()>)
      requires Valid() && host !in sys.hosts && forall n | 0 <= n < |sys.rows| :: sys.rows[n].host != host
      modifies this
      ensures Valid() && schedule == old(schedule)
      ensures r == if segment !in old(sys).segments then Failure(SegmentNotFound)
                   else if exists h | h in old(sys).hosts :: old(sys).hosts[h].name == name then Failure(NameExists)
                   else Success(())
      ensures r.Failure? ==> sys == old(sys)
      ensures r.Success? ==>
                sys == old(sys).(hosts := old(sys).hosts[host := Host(name, segment, reserved, onMaintenance)])
    {
      hide Init, IsRun;
      if segment !in sys.segments { return Failure(SegmentNotFound); }
      if NameTaken(sys, name, None) { return Failure(NameExists); }
      Take(CreateHost(segment, host, name, reserved, onMaintenance),
           HostSet(sys, host, Host(name, segment, reserved, onMaintenance)));
      r := Success(());
    }

    /** is_failover_segment_under_recovery: a host of the segment has a notification that is NEW, RUNNING
        or ERROR. */
    method IsUnderRecovery(segment: nat) returns (busy: bool)
      ensures busy <==> exists n | 0 <= n < |sys.rows| ::
                var row := sys.rows[n];
                && !row.purged && (row.Status() == NEW || row.Status() == RUNNING || row.Status() == ERROR)
                && row.host in sys.hosts && sys.hosts[row.host].segment == segment
      ensures busy <==> UnderRecovery(sys, segment)
    {
      for n := 0 to |sys.rows|
        invariant forall m | 0 <= m < n :: !Busies(sys, segment, m)
        invariant forall m | 0 <= m < n ::
          var row := sys.rows[m];
          !(!row.purged && (row.Status() == NEW || row.Status() == RUNNING || row.Status() == ERROR) &&
            row.host in sys.hosts && sys.hosts[row.host].segment == segment)
      {
        var row := sys.rows[n];
        if !row.purged && (row.Status() == NEW || row.Status() == RUNNING || row.Status() == ERROR) &&
           row.host in sys.hosts && sys.hosts[row.host].segment == segment
        {
          assert Busies(sys, segment, n);
          return true;
        }
      }
      busy := false;
    }

    /** update_host. */
    method UpdateHostOf(segment: nat, host: nat, data: HostData) returns (r: Result<()>)
      requires Valid()
      modifies this
      ensures Valid() && schedule == old(schedule)
      ensures r == if segment !in old(sys).segments then Failure(SegmentNotFound)
                   else if host !in old(sys).hosts then Failure(HostNotFound)
                   else if exists n | 0 <= n < |old(sys).rows| ::
                             var row := old(sys).rows[n];
                             && !row.purged && (row.Status() == NEW || row.Status() == RUNNING || row.Status() == ERROR)
                             && row.host in old(sys).hosts && old(sys).hosts[row.host].segment == segment
                   then Failure(InUse)
                   else if data.name.Some? && exists h | h in old(sys).hosts ::
                             old(sys).hosts[h].name == data.name.value && h != host
                   then Failure(NameExists) else Success(())
      ensures r.Failure? ==> sys == old(sys)
      ensures r.Success? ==>
                var was := old(sys).hosts[host];
                sys == old(sys).(hosts := old(sys).hosts[host := Host(
                  if data.name == None then was.name else data.name.value, was.segment,
                  if data.reserved == None then was.reserved else data.reserved.value,
                  if data.onMaintenance == None then was.onMaintenance else data.onMaintenance.value)])
    {
      hide Init, IsRun, UnderRecovery;
      if segment !in sys.segments { return Failure(SegmentNotFound); }
      if host !in sys.hosts { return Failure(HostNotFound); }
      var busy := IsUnderRecovery(segment);
      if busy { return Failure(InUse); }
      if data.name.Some? && NameTaken(sys, data.name.value, Some(host)) { return Failure(NameExists); }
      Take(UpdateHost(segment, host, data), HostSet(sys, host, Updated(sys.hosts[host], data)));
      r := Success(());
    }

    /** delete_host. */
    method DeleteHostOf(segment: nat, host: nat) returns (r: Result<()>)
      requires Valid()
      modifies this
      ensures Valid() && schedule == old(schedule)
      ensures r == if segment !in old(sys).segments then Failure(SegmentNotFound)
                   else if host !in old(sys).hosts || old(sys).hosts[host].segment != segment then Failure(HostNotFound)
                   else if exists n | 0 <= n < |old(sys).rows| ::
                             var row := old(sys).rows[n];
                             && !row.purged && (row.Status() == NEW || row.Status() == RUNNING || row.Status() == ERROR)
                             && row.host in old(sys).hosts && old(sys).hosts[row.host].segment == segment
                   then Failure(InUse) else Success(())
      ensures r.Failure? ==> sys == old(sys)
      ensures r.Success? ==> sys == old(sys).(hosts := old(sys).hosts - {host})
    {
      hide Init, IsRun, UnderRecovery;
      if segment !in sys.segments { return Failure(SegmentNotFound); }
      if host !in sys.hosts || sys.hosts[host].segment != segment { return Failure(HostNotFound); }
      var busy := IsUnderRecovery(segment);
      if busy { return Failure(InUse); }
      Take(DeleteHost(segment, host), sys.(hosts := sys.hosts - {host}));
      r := Success(());
    }

    /** delete_segment: takes its hosts with it. */
    method DeleteSegmentOf(segment: nat) returns (r: Result<()>)
      requires Valid()
      modifies this
      ensures Valid() && schedule == old(schedule)
      ensures r == if segment !in old(sys).segments then Failure(SegmentNotFound)
                   else if exists n | 0 <= n < |old(sys).rows| ::
                             var row := old(sys).rows[n];
                             && !row.purged && (row.Status() == NEW || row.Status() == RUNNING || row.Status() == ERROR)
                             && row.host in old(sys).hosts && old(sys).hosts[row.host].segment == segment
                   then Failure(InUse) else Success(())
      ensures r.Failure? ==> sys == old(sys)
      ensures r.Success? ==>
                && sys.segments == old(sys).segments - {segment} && sys.rows == old(sys).rows
                && forall h :: h in sys.hosts <==> h in old(sys).hosts && old(sys).hosts[h].segment != segment
    {
      hide Init, IsRun, UnderRecovery;
      if segment !in sys.segments { return Failure(SegmentNotFound); }
      var busy := IsUnderRecovery(segment);
      if busy { return Failure(InUse); }
      Take(DeleteSegment(segment), SegmentDeleted(sys, segment));
      r := Success(());
    }
  }
}
