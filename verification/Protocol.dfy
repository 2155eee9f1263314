/** The recovery protocol of masakari: the database rows of segments, hosts and notifications, the
    API transactions that edit them, and the engine's worker threads and periodic task, as one
    transition system. Every action below is one atomic section of the source: an API transaction,
    or the code between two points at which another thread of the engine may run. */
module Protocol {

  import opened Options

  datatype Status = NEW | RUNNING | ERROR | FAILED | IGNORED | FINISHED

  datatype Kind = COMPUTE_HOST | VM | PROCESS

  /** What a handler looks at in payload['event'], upper-cased. */
  datatype Event = STARTED | STOPPED | OTHER

  datatype Payload = Payload(event: Event, details: string)

  /** Every value a row's status column has held, oldest first; the last is the current one. */
  type Trail = t: seq<Status> | |t| > 0 witness [NEW]

  /** A row of the notifications table; its index in System.rows is its autoincrement id.
      purged rows are gone from the database and only remembered here. */
  datatype Row = Row(host: nat, kind: Kind, payload: Payload, generated: int, trail: Trail, purged: bool) {
    function Status(): Status { trail[|trail| - 1] }

    function Write(status: Status): Row { this.(trail := trail + [status]) }

    /** The handlers that look the host up and put it on maintenance. */
    predicate StopsHost() { kind != VM && payload.event == STOPPED }

    predicate SameKey(that: Row) { host == that.host && kind == that.kind && payload == that.payload }
  }

  datatype Host = Host(name: string, segment: nat, reserved: bool, onMaintenance: bool)

  datatype HostData = HostData(name: Option<string>, reserved: Option<bool>, onMaintenance: Option<bool>)

  /** Where a thread stands in _process_notification. */
  datatype Pc =
    | Waiting                   // blocked on the lock of the source host
    | Holding                   // lock held, database row not read yet
    | Passed                    // the stale-copy check did not skip
    | Handling(marked: bool)    // RUNNING written, handler at work
    | Saving(outcome: Status)   // handler returned
    | Leaving(failed: bool)     // about to release the lock, returning or raising

  /** copy is the status held by the notification object the thread was handed. */
  datatype Thread = Thread(note: nat, copy: Status, pc: Pc)

  /** Where the periodic task stands; Turn is the head of its loop. */
  datatype Phase = Idle | Turn | Processing | Reread | MarkFailed

  datatype Entry = Entry(note: nat, status: Status)

  /** due collects the positions at which the round called _process_notification. */
  datatype Periodic = Periodic(phase: Phase, snapshot: seq<Entry>, idx: nat, due: set<nat>)

  /** The thread of the periodic task; RPC deliveries run in threads with other numbers. */
  const PERIODIC: nat := 0

  /** raised: notifications whose handler raised; interval: duplicate_notification_detection_interval. */
  datatype System = System(
    segments: set<nat>, hosts: map<nat, Host>, rows: seq<Row>,
    locks: map<nat, nat>, threads: map<nat, Thread>, periodic: Periodic,
    raised: set<nat>, interval: nat)

  datatype Action =
    | CreateSegment(segment: nat)
    | DeleteSegment(segment: nat)
    | CreateHost(segment: nat, host: nat, name: string, reserved: bool, onMaintenance: bool)
    | UpdateHost(segment: nat, host: nat, data: HostData)
    | DeleteHost(segment: nat, host: nat)
    | CreateNotification(host: nat, kind: Kind, payload: Payload, generated: int)
    | Purge(notes: set<nat>)
    | Deliver(thread: nat, note: nat)
    | Acquire(thread: nat)
    | CheckRow(thread: nat)
    | StartRun(thread: nat)
    | MarkHost(thread: nat)
    | Return(thread: nat, outcome: Status)
    | Raise(thread: nat)
    | SaveOutcome(thread: nat)
    | Release(thread: nat)
    | BeginRound(snapshot: seq<Entry>)
    | TakeTurn(tooOld: bool)
    | RereadRow
    | WriteFailed
    | EndRound

  /** Transactions of the API and of the purge command. */
  predicate IsApi(a: Action)
  {
    a.CreateSegment? || a.DeleteSegment? || a.CreateHost? || a.UpdateHost? || a.DeleteHost? ||
    a.CreateNotification? || a.Purge?
  }

  /** Steps of the periodic task outside _process_notification. */
  predicate IsRound(a: Action)
  {
    a.BeginRound? || a.TakeTurn? || a.RereadRow? || a.WriteFailed? || a.EndRound?
  }

  predicate Terminal(status: Status) { status == FINISHED || status == IGNORED || status == FAILED }

  predicate Unfinished(status: Status) { status == NEW || status == RUNNING || status == ERROR }

  predicate Live(s: System, n: nat) { n < |s.rows| && !s.rows[n].purged }

  /** Row n keeps segment busy: it is unfinished and its source host is live in the segment. */
  predicate Busies(s: System, segment: nat, n: nat)
  {
    Live(s, n) && Unfinished(s.rows[n].Status()) &&
    s.rows[n].host in s.hosts && s.hosts[s.rows[n].host].segment == segment
  }

  predicate UnderRecovery(s: System, segment: nat)
  {
    exists n | 0 <= n < |s.rows| :: Busies(s, segment, n)
  }

  predicate NameTaken(s: System, name: string, except: Option<nat>)
  {
    exists h | h in s.hosts :: s.hosts[h].name == name && except != Some(h)
  }

  /** Row n makes a new notification a duplicate: same host, type and payload, NEW or RUNNING, and
      generated within the interval before the new one, or later. */
  predicate Duplicates(s: System, n: nat, host: nat, kind: Kind, payload: Payload, generated: int)
  {
    && Live(s, n)
    && s.rows[n].host == host && s.rows[n].kind == kind && s.rows[n].payload == payload
    && (s.rows[n].Status() == NEW || s.rows[n].Status() == RUNNING)
    && s.rows[n].generated >= generated - s.interval
  }

  predicate IsDuplicate(s: System, host: nat, kind: Kind, payload: Payload, generated: int)
  {
    exists n | 0 <= n < |s.rows| :: Duplicates(s, n, host, kind, payload, generated)
  }

  /** What a handler may return for a row; any handler may also raise. */
  predicate Possible(row: Row, marked: bool, outcome: Status)
  {
    match row.kind
    case VM => (outcome == FINISHED || outcome == IGNORED || outcome == ERROR)
    case _ =>
      match row.payload.event
      case STARTED => outcome == FINISHED
      case STOPPED => marked && (outcome == FINISHED || outcome == ERROR)
      case OTHER => outcome == IGNORED
  }

  /** The rows of the query filtered on ERROR and NEW. */
  predicate IsSnapshot(s: System, snapshot: seq<Entry>)
  {
    && (forall i | 0 <= i < |snapshot| ::
          Live(s, snapshot[i].note) && snapshot[i].status == s.rows[snapshot[i].note].Status() &&
          (snapshot[i].status == NEW || snapshot[i].status == ERROR))
    && (forall i, j | 0 <= i < j < |snapshot| :: snapshot[i].note != snapshot[j].note)
    && (forall n | 0 <= n < |s.rows| :: Live(s, n) && (s.rows[n].Status() == NEW || s.rows[n].Status() == ERROR) ==>
          Entry(n, s.rows[n].Status()) in snapshot)
  }

  /** Thread t is in _process_notification, called with a row that exists or existed. */
  predicate Stands(s: System, t: nat) { t in s.threads && s.threads[t].note < |s.rows| }

  predicate At(s: System, t: nat, pc: Pc) { Stands(s, t) && s.threads[t].pc == pc }

  predicate CanAcquire(s: System, t: nat) { At(s, t, Waiting) && s.rows[s.threads[t].note].host !in s.locks }

  predicate CanMarkHost(s: System, t: nat)
  {
    && At(s, t, Handling(false))
    && s.rows[s.threads[t].note].StopsHost() && s.rows[s.threads[t].note].host in s.hosts
  }

  predicate CanReturn(s: System, t: nat, outcome: Status)
  {
    Stands(s, t) && s.threads[t].pc.Handling? && Possible(s.rows[s.threads[t].note], s.threads[t].pc.marked, outcome)
  }

  predicate CanRaise(s: System, t: nat) { Stands(s, t) && s.threads[t].pc.Handling? }

  predicate CanSave(s: System, t: nat) { Stands(s, t) && s.threads[t].pc.Saving? }

  predicate CanRelease(s: System, t: nat) { Stands(s, t) && s.threads[t].pc.Leaving? }

  /** The round is in the given phase at a position of its snapshot. */
  predicate InRound(s: System, phase: Phase)
  {
    s.periodic.phase == phase && s.periodic.idx < |s.periodic.snapshot| &&
    s.periodic.snapshot[s.periodic.idx].note < |s.rows|
  }

  predicate CanCreateHost(s: System, segment: nat, host: nat, name: string)
  {
    segment in s.segments && host !in s.hosts && !NameTaken(s, name, None) &&
    forall n | 0 <= n < |s.rows| :: s.rows[n].host != host
  }

  predicate CanUpdateHost(s: System, segment: nat, host: nat, data: HostData)
  {
    segment in s.segments && host in s.hosts && !UnderRecovery(s, segment) &&
    (data.name.Some? ==> !NameTaken(s, data.name.value, Some(host)))
  }

  predicate CanCreateNotification(s: System, host: nat, kind: Kind, payload: Payload, generated: int)
  {
    host in s.hosts && !s.hosts[host].onMaintenance && !IsDuplicate(s, host, kind, payload, generated)
  }

  function SetPc(s: System, t: nat, pc: Pc): System
    requires t in s.threads
  {
    s.(threads := s.threads[t := s.threads[t].(pc := pc)])
  }

  /** notification.update(status) and save(): only the status column changes. */
  function WriteStatus(s: System, n: nat, status: Status): System
    requires n < |s.rows|
  {
    s.(rows := s.rows[n := s.rows[n].Write(status)])
  }

  function Updated(host: Host, data: HostData): Host {
    Host(if data.name.Some? then data.name.value else host.name,
         host.segment,
         if data.reserved.Some? then data.reserved.value else host.reserved,
         if data.onMaintenance.Some? then data.onMaintenance.value else host.onMaintenance)
  }

  /** host_obj.update(update_data) and save(); the handler for hosts also takes a reserved host off the
      reserved ones, the handler for processes does not. */
  function OnMaintenance(host: Host, kind: Kind): Host
  {
    host.(onMaintenance := true, reserved := host.reserved && kind != COMPUTE_HOST)
  }

  /** After the turn at the current position: on to the next one. */
  function NextTurn(p: Periodic): Periodic { p.(phase := Turn, idx := p.idx + 1) }

  /** Whether the round processes an entry at its turn; tooOld is the outcome of is_older_than. */
  predicate IsDue(e: Entry, tooOld: bool) { e.status == ERROR || (e.status == NEW && tooOld) }

  function Acquired(s: System, t: nat): System
    requires CanAcquire(s, t)
  {
    SetPc(s, t, Holding).(locks := s.locks[s.rows[s.threads[t].note].host := t])
  }

  /** do_process_notification after the row has been read. */
  function Checked(s: System, t: nat): System
    requires At(s, t, Holding)
  {
    var th, row := s.threads[t], s.rows[s.threads[t].note];
    if row.purged then SetPc(s, t, Leaving(true))                       // NotificationNotFound
    else if th.copy == NEW && row.Status() != NEW then SetPc(s, t, Leaving(false))
    else SetPc(s, t, Passed)
  }

  function Started(s: System, t: nat): System
    requires At(s, t, Passed)
  {
    WriteStatus(SetPc(s, t, Handling(false)), s.threads[t].note, RUNNING)
  }

  function HostMarked(s: System, t: nat): System
    requires CanMarkHost(s, t)
  {
    var row := s.rows[s.threads[t].note];
    SetPc(s, t, Handling(true)).(hosts := s.hosts[row.host := OnMaintenance(s.hosts[row.host], row.kind)])
  }

  function Raised(s: System, t: nat): System
    requires CanRaise(s, t)
  {
    SetPc(s, t, Leaving(true)).(raised := s.raised + {s.threads[t].note})
  }

  function Saved(s: System, t: nat): System
    requires CanSave(s, t)
  {
    WriteStatus(SetPc(s, t, Leaving(false)), s.threads[t].note, s.threads[t].pc.outcome)
  }

  /** The lock is released, the thread returns or raises; the periodic task goes on after a call
      that returned and is aborted by one that raised. */
  function Released(s: System, t: nat): System
    requires CanRelease(s, t)
  {
    var s' := s.(locks := s.locks - {s.rows[s.threads[t].note].host}, threads := s.threads - {t});
    if t != PERIODIC then s'
    else s'.(periodic := s.periodic.(phase := if s.threads[t].pc.failed then Idle else Reread))
  }

  function TurnTaken(s: System, tooOld: bool): System
    requires InRound(s, Turn)
  {
    var e := s.periodic.snapshot[s.periodic.idx];
    if IsDue(e, tooOld) then
      s.(threads := s.threads[PERIODIC := Thread(e.note, e.status, Waiting)],
         periodic := s.periodic.(phase := Processing, due := s.periodic.due + {s.periodic.idx}))
    else s.(periodic := s.periodic.(phase := Reread))
  }

  function RowReread(s: System): System
    requires InRound(s, Reread)
  {
    var row := s.rows[s.periodic.snapshot[s.periodic.idx].note];
    s.(periodic :=
      if row.purged then s.periodic.(phase := Idle)                     // NotificationNotFound
      else if row.Status() == ERROR then s.periodic.(phase := MarkFailed)
      else NextTurn(s.periodic))
  }

  function FailedWritten(s: System): System
    requires InRound(s, MarkFailed)
  {
    WriteStatus(s, s.periodic.snapshot[s.periodic.idx].note, FAILED).(periodic := NextTurn(s.periodic))
  }

  /** Every position of the snapshot has had its turn. */
  predicate RoundOver(s: System) { s.periodic.phase == Turn && s.periodic.idx == |s.periodic.snapshot| }

  function RoundBegun(s: System, snapshot: seq<Entry>): System { s.(periodic := Periodic(Turn, snapshot, 0, {})) }

  /** An RPC delivery of the NEW copy that create_notification sent; deliveries may repeat. */
  predicate CanDeliver(s: System, t: nat, n: nat) { t != PERIODIC && t !in s.threads && n < |s.rows| }

  function Delivered(s: System, t: nat, n: nat): System { s.(threads := s.threads[t := Thread(n, NEW, Waiting)]) }

  function HostSet(s: System, host: nat, to: Host): System { s.(hosts := s.hosts[host := to]) }

  function Purged(s: System, notes: set<nat>): System
  {
    s.(rows := seq(|s.rows|, n requires 0 <= n < |s.rows| => if n in notes then s.rows[n].(purged := true) else s.rows[n]))
  }

  function SegmentDeleted(s: System, segment: nat): System
  {
    s.(segments := s.segments - {segment},
       hosts := map h | h in s.hosts && s.hosts[h].segment != segment :: s.hosts[h])
  }

  /** One step of the system, taken by action a. */
  predicate Next(s: System, a: Action, s': System)
  {
    match a
    case CreateSegment(segment) =>
      segment !in s.segments && s' == s.(segments := s.segments + {segment})
    case DeleteSegment(segment) =>
      segment in s.segments && !UnderRecovery(s, segment) && s' == SegmentDeleted(s, segment)
    case CreateHost(segment, host, name, reserved, onMaintenance) =>
      CanCreateHost(s, segment, host, name) && s' == HostSet(s, host, Host(name, segment, reserved, onMaintenance))
    case UpdateHost(segment, host, data) =>
      CanUpdateHost(s, segment, host, data) && s' == HostSet(s, host, Updated(s.hosts[host], data))
    case DeleteHost(segment, host) =>
      segment in s.segments && host in s.hosts && s.hosts[host].segment == segment && !UnderRecovery(s, segment) &&
      s' == s.(hosts := s.hosts - {host})
    case CreateNotification(host, kind, payload, generated) =>
      CanCreateNotification(s, host, kind, payload, generated) &&
      s' == s.(rows := s.rows + [Row(host, kind, payload, generated, [NEW], false)])
    case Purge(notes) =>
      (forall n | n in notes :: Live(s, n) && Terminal(s.rows[n].Status())) && s' == Purged(s, notes)
    case Deliver(t, n) => CanDeliver(s, t, n) && s' == Delivered(s, t, n)
    case Acquire(t) => CanAcquire(s, t) && s' == Acquired(s, t)
    case CheckRow(t) => At(s, t, Holding) && s' == Checked(s, t)
    case StartRun(t) => At(s, t, Passed) && s' == Started(s, t)
    case MarkHost(t) => CanMarkHost(s, t) && s' == HostMarked(s, t)
    case Return(t, outcome) => CanReturn(s, t, outcome) && s' == SetPc(s, t, Saving(outcome))
    case Raise(t) => CanRaise(s, t) && s' == Raised(s, t)
    case SaveOutcome(t) => CanSave(s, t) && s' == Saved(s, t)
    case Release(t) => CanRelease(s, t) && s' == Released(s, t)
    case BeginRound(snapshot) => s.periodic.phase == Idle && IsSnapshot(s, snapshot) && s' == RoundBegun(s, snapshot)
    case TakeTurn(tooOld) => InRound(s, Turn) && s' == TurnTaken(s, tooOld)
    case RereadRow => InRound(s, Reread) && s' == RowReread(s)
    case WriteFailed => InRound(s, MarkFailed) && s' == FailedWritten(s)
    case EndRound => RoundOver(s) && s' == s.(periodic := s.periodic.(phase := Idle))
  }

  ghost predicate Init(s: System)
  {
    && s.segments == {} && s.hosts == map[] && s.rows == [] && s.locks == map[] && s.threads == map[]
    && s.periodic.phase == Idle && s.raised == {}
  }

  /** states is a run that takes the given actions. */
  ghost predicate IsRun(states: seq<System>, actions: seq<Action>)
  {
    && |states| == |actions| + 1
    && Init(states[0])
    && forall i | 0 <= i < |actions| :: Next(states[i], actions[i], states[i + 1])
  }
}
