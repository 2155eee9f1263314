/** Evacuations of several failed hosts at once, each trying the reserved hosts of its segment under
    their non-blocking locks: a transition system over the hosts' rows and the lock table. The API's
    edits of hosts take part in it, under the guards that the API has. */
module ReservedHosts {

  import opened Options
  import Protocol

  type Host = Protocol.Host
  type HostData = Protocol.HostData

  /** A reserved host as the failed host's handler has read it: the lock is taken by this name. */
  datatype Candidate = Candidate(host: nat, name: string)

  /** Where the recovery of one failed host stands: its row has been put on maintenance; it has a list
      of candidates and is about to try the next one; it holds that one's lock (cleared: and has set
      its reserved flag to False); it is over. */
  datatype Phase = Marked | Choosing | Evacuating(cleared: bool) | Over

  datatype Job = Job(host: nat, phase: Phase, candidates: seq<Candidate>, next: nat)

  /** What happens on reserved hosts, in order. */
  datatype Event =
    | Acquired(job: nat, c: Candidate)
    | Cleared(job: nat, c: Candidate)
    | Sent(job: nat, instance: nat, c: Candidate)
    | Released(job: nat, c: Candidate)

  datatype State = State(hosts: map<nat, Host>, locks: map<string, nat>, jobs: map<nat, Job>, log: seq<Event>)

  /** Edit is update_host, with the segment it was given; Mark is the handler of a failed process. */
  datatype Action =
    | Begin(job: nat, host: nat)
    | Select(job: nat, candidates: seq<Candidate>)
    | TryLock(job: nat)
    | Clear(job: nat)
    | Send(job: nat, instance: nat)
    | Finish(job: nat, success: bool)
    | GiveUp(job: nat)
    | Mark(host: nat)
    | Edit(segment: nat, host: nat, data: HostData)
    | Create(host: nat, row: Host)
    | Delete(host: nat)

  predicate Active(s: State, j: nat) { j in s.jobs && s.jobs[j].phase != Over }

  /** The failure of host h is being handled. */
  predicate Handled(s: State, h: nat) { exists j | j in s.jobs :: s.jobs[j].phase != Over && s.jobs[j].host == h }

  /** What the API sees of that: the segment has a host with an unfinished notification. */
  predicate UnderRecovery(s: State, segment: nat)
  {
    exists j | j in s.jobs ::
      s.jobs[j].phase != Over && s.jobs[j].host in s.hosts && s.hosts[s.jobs[j].host].segment == segment
  }

  predicate NameTaken(s: State, name: string, except: Option<nat>)
  {
    exists h | h in s.hosts :: s.hosts[h].name == name && except != Some(h)
  }

  /** A candidate for the host's failure: in its segment, reserved and not on maintenance. */
  predicate Eligible(s: State, host: nat, h: nat)
  {
    host in s.hosts && h in s.hosts && s.hosts[h].segment == s.hosts[host].segment &&
    s.hosts[h].reserved && !s.hosts[h].onMaintenance
  }

  predicate HasTarget(job: Job) { job.phase.Evacuating? && job.next < |job.candidates| }

  function Target(job: Job): Candidate requires HasTarget(job) { job.candidates[job.next] }

  predicate Holds(s: State, j: nat) { j in s.jobs && HasTarget(s.jobs[j]) }

  predicate InPhase(s: State, j: nat, phase: Phase) { j in s.jobs && s.jobs[j].phase == phase }

  function SetJob(s: State, j: nat, job: Job): State { s.(jobs := s.jobs[j := job]) }

  function SetHost(s: State, h: nat, row: Host): State { s.(hosts := s.hosts[h := row]) }

  /** The handler puts the failed host on maintenance and takes it off the reserved ones. */
  function Begun(s: State, j: nat, h: nat): State
    requires h in s.hosts
  {
    SetHost(SetJob(s, j, Job(h, Marked, [], 0)), h, Protocol.OnMaintenance(s.hosts[h], Protocol.COMPUTE_HOST))
  }

  ghost predicate CanSelect(s: State, j: nat, candidates: seq<Candidate>)
  {
    && InPhase(s, j, Marked) && s.jobs[j].host in s.hosts
    && (forall c :: c in candidates <==> Eligible(s, s.jobs[j].host, c.host) && c.name == s.hosts[c.host].name)
    && (forall k, l | 0 <= k < l < |candidates| :: candidates[k] != candidates[l])
  }

  predicate CanTry(s: State, j: nat) { InPhase(s, j, Choosing) && s.jobs[j].next < |s.jobs[j].candidates| }

  /** int_lock.acquire(blocking=False): the lock, or on to the next candidate. */
  function Tried(s: State, j: nat): State
    requires CanTry(s, j)
  {
    var job := s.jobs[j];
    var c := job.candidates[job.next];
    if c.name in s.locks then SetJob(s, j, job.(next := job.next + 1))
    else SetJob(s, j, job.(phase := Evacuating(false))).(locks := s.locks[c.name := j], log := s.log + [Acquired(j, c)])
  }

  predicate CanClear(s: State, j: nat)
  {
    InPhase(s, j, Evacuating(false)) && Holds(s, j) && Target(s.jobs[j]).host in s.hosts
  }

  /** reserved_host.reserved = False; reserved_host.save(). */
  function Unreserved(s: State, j: nat): State
    requires CanClear(s, j)
  {
    var c := Target(s.jobs[j]);
    SetHost(SetJob(s, j, s.jobs[j].(phase := Evacuating(true))), c.host, s.hosts[c.host].(reserved := false)).(
      log := s.log + [Cleared(j, c)])
  }

  /** The attempt ends and the lock is released; after a failure the next candidate is tried. */
  function Finished(s: State, j: nat, success: bool): State
    requires Holds(s, j)
  {
    var job, c := s.jobs[j], Target(s.jobs[j]);
    SetJob(s, j, if success then job.(phase := Over) else job.(phase := Choosing, next := job.next + 1)).(
      locks := s.locks - {c.name}, log := s.log + [Released(j, c)])
  }

  /** update_host looks at the segment it was given, whichever host it is asked to update. */
  predicate CanEdit(s: State, segment: nat, h: nat, data: HostData)
  {
    h in s.hosts && !UnderRecovery(s, segment) && (data.name.Some? ==> !NameTaken(s, data.name.value, Some(h)))
  }

  ghost predicate Next(s: State, a: Action, s': State)
  {
    match a
    case Begin(j, h) => h in s.hosts && j !in s.jobs && !Handled(s, h) && s' == Begun(s, j, h)
    case Select(j, candidates) =>
      CanSelect(s, j, candidates) && s' == SetJob(s, j, s.jobs[j].(phase := Choosing, candidates := candidates))
    case TryLock(j) => CanTry(s, j) && s' == Tried(s, j)
    case Clear(j) => CanClear(s, j) && s' == Unreserved(s, j)
    case Send(j, i) =>
      InPhase(s, j, Evacuating(true)) && Holds(s, j) && s' == s.(log := s.log + [Sent(j, i, Target(s.jobs[j]))])
    case Finish(j, success) => Holds(s, j) && s' == Finished(s, j, success)
    case GiveUp(j) =>
      InPhase(s, j, Choosing) && s.jobs[j].next == |s.jobs[j].candidates| &&
      s' == SetJob(s, j, s.jobs[j].(phase := Over))
    case Mark(h) =>
      h in s.hosts && !Handled(s, h) && s' == SetHost(s, h, Protocol.OnMaintenance(s.hosts[h], Protocol.PROCESS))
    case Edit(segment, h, data) => CanEdit(s, segment, h, data) && s' == SetHost(s, h, Protocol.Updated(s.hosts[h], data))
    case Create(h, row) =>
      h !in s.hosts && !NameTaken(s, row.name, None) && (forall j | j in s.jobs :: s.jobs[j].host != h) &&
      s' == SetHost(s, h, row)
    case Delete(h) =>
      h in s.hosts && !UnderRecovery(s, s.hosts[h].segment) && s' == s.(hosts := s.hosts - {h})
  }

  /** states is a run that starts with any hosts and no recovery under way. */
  ghost predicate IsRun(states: seq<State>, actions: seq<Action>)
  {
    && |states| == |actions| + 1
    && states[0].locks == map[] && states[0].jobs == map[] && states[0].log == []
    && forall i | 0 <= i < |actions| :: Next(states[i], actions[i], states[i + 1])
  }

  // ----- What the log of a run looks like -----

  datatype Use = Free | Locked(job: nat, host: nat, cleared: bool)

  /** Who holds the lock of that name at the end of a log, for which host, and whether its reserved flag
      was cleared for that use. */
  function UseOf(log: seq<Event>, name: string): Use
  {
    if log == [] then Free else UseAfter(UseOf(log[..|log| - 1], name), log[|log| - 1], name)
  }

  function UseAfter(before: Use, e: Event, name: string): Use
  {
    if e.c.name != name then before
    else
      match e
      case Acquired(j, c) => Locked(j, c.host, false)
      case Cleared(j, c) => Locked(j, c.host, true)
      case Released(_, _) => Free
      case Sent(_, _, _) => before
  }

  /** What must hold before an event: a lock is acquired only if nobody holds it; the flag is cleared and
      the lock released only by its holder; instances are sent only by its holder, to the host it is
      held for, and only after the holder has cleared the flag. */
  predicate Proper(log: seq<Event>, e: Event)
  {
    match e
    case Acquired(_, c) => UseOf(log, c.name) == Free
    case Cleared(j, c) => UseOf(log, c.name) == Locked(j, c.host, false)
    case Sent(j, _, c) => UseOf(log, c.name) == Locked(j, c.host, true)
    case Released(j, c) => UseOf(log, c.name) == Locked(j, c.host, true) || UseOf(log, c.name) == Locked(j, c.host, false)
  }

  ghost predicate ProperLog(log: seq<Event>) { forall k | 0 <= k < |log| :: Proper(log[..k], log[k]) }

  /** The lock table and the jobs agree with the log. */
  predicate LockOk(s: State, name: string)
  {
    match UseOf(s.log, name)
    case Free => name !in s.locks
    case Locked(j, host, cleared) =>
      && name in s.locks && s.locks[name] == j && Holds(s, j)
      && Target(s.jobs[j]) == Candidate(host, name) && s.jobs[j].phase.cleared == cleared
  }

  /** A recovery that is not over keeps its failed host and its candidates, all of them in one segment. */
  predicate JobOk(s: State, j: nat)
    requires j in s.jobs
  {
    var job := s.jobs[j];
    && job.next <= |job.candidates|
    && (job.phase.Evacuating? ==>
          && job.next < |job.candidates|
          && UseOf(s.log, job.candidates[job.next].name) == Locked(j, job.candidates[job.next].host, job.phase.cleared))
    && (job.phase == Marked ==> job.candidates == [] && job.next == 0)
    && (job.phase != Over ==>
          && job.host in s.hosts
          && forall c | c in job.candidates :: c.host in s.hosts && s.hosts[c.host].segment == s.hosts[job.host].segment)
  }

  ghost predicate LocksInv(s: State) { forall name :: LockOk(s, name) }

  ghost predicate JobsInv(s: State) { forall j | j in s.jobs :: JobOk(s, j) }

  ghost predicate Inv(s: State)
  {
    && LocksInv(s) && JobsInv(s)
    && (forall j, k | j in s.jobs && k in s.jobs && j != k && s.jobs[j].host == s.jobs[k].host ::
          s.jobs[j].phase == Over || s.jobs[k].phase == Over)
  }

  lemma UseGrows(log: seq<Event>, e: Event, name: string)
    ensures UseOf(log + [e], name) == UseAfter(UseOf(log, name), e, name)
  {
    assert (log + [e])[..|log|] == log;
  }

  lemma BeginKeeps(s: State, j: nat, h: nat)
    requires Inv(s) && h in s.hosts && j !in s.jobs && !Handled(s, h)
    ensures Inv(Begun(s, j, h))
  {
    var s' := Begun(s, j, h);
    forall name ensures LockOk(s', name) { assert LockOk(s, name); }
    forall k | k in s'.jobs ensures JobOk(s', k) { if k in s.jobs { assert JobOk(s, k); } }
  }

  /** Hosts are edited or created; segments of hosts never change. */
  lemma SetHostKeeps(s: State, h: nat, row: Host)
    requires Inv(s) && (h in s.hosts ==> row.segment == s.hosts[h].segment)
    ensures Inv(SetHost(s, h, row))
  {
    var s' := SetHost(s, h, row);
    forall name ensures LockOk(s', name) { assert LockOk(s, name); }
    forall k | k in s'.jobs ensures JobOk(s', k) { assert JobOk(s, k); }
  }

  lemma DeleteKeeps(s: State, h: nat)
    requires Inv(s) && h in s.hosts && !UnderRecovery(s, s.hosts[h].segment)
    ensures Inv(s.(hosts := s.hosts - {h}))
  {
    var s' := s.(hosts := s.hosts - {h});
    forall name ensures LockOk(s', name) { assert LockOk(s, name); }
    forall k | k in s'.jobs ensures JobOk(s', k) { assert JobOk(s, k); }
  }

  /** A job that holds no lock moves to another place where it holds none. */
  lemma MoveKeeps(s: State, j: nat, job: Job)
    requires Inv(s) && Active(s, j) && !s.jobs[j].phase.Evacuating?
    requires !job.phase.Evacuating? && job.phase != Marked && job.host == s.jobs[j].host && job.next <= |job.candidates|
    requires forall c | c in job.candidates ::
               c in s.jobs[j].candidates ||
               (job.host in s.hosts && c.host in s.hosts && s.hosts[c.host].segment == s.hosts[job.host].segment)
    ensures Inv(SetJob(s, j, job))
  {
    var s' := SetJob(s, j, job);
    forall name ensures LockOk(s', name) { assert LockOk(s, name); }
    forall k | k in s'.jobs ensures JobOk(s', k) { assert JobOk(s, k); }
  }

  lemma AcquireKeeps(s: State, j: nat)
    requires Inv(s) && CanTry(s, j) && s.jobs[j].candidates[s.jobs[j].next].name !in s.locks
    ensures Inv(Tried(s, j))
  {
    var s', c := Tried(s, j), s.jobs[j].candidates[s.jobs[j].next];
    assert LockOk(s, c.name) && JobOk(s, j);
    forall name { UseGrows(s.log, Acquired(j, c), name); }
    forall name ensures LockOk(s', name) { assert LockOk(s, name); }
    forall k | k in s'.jobs ensures JobOk(s', k) { assert JobOk(s, k); }
  }

  lemma ClearKeeps(s: State, j: nat)
    requires Inv(s) && CanClear(s, j)
    ensures Inv(Unreserved(s, j))
  {
    var s', c := Unreserved(s, j), Target(s.jobs[j]);
    assert JobOk(s, j);
    forall name { UseGrows(s.log, Cleared(j, c), name); }
    forall name ensures LockOk(s', name) { assert LockOk(s, name); }
    forall k | k in s'.jobs ensures JobOk(s', k) { assert JobOk(s, k); }
  }

  lemma SendKeeps(s: State, j: nat, i: nat)
    requires Inv(s) && Holds(s, j)
    ensures Inv(s.(log := s.log + [Sent(j, i, Target(s.jobs[j]))]))
  {
    var c := Target(s.jobs[j]);
    var s' := s.(log := s.log + [Sent(j, i, c)]);
    forall name { UseGrows(s.log, Sent(j, i, c), name); }
    forall name ensures LockOk(s', name) { assert LockOk(s, name); }
    forall k | k in s'.jobs ensures JobOk(s', k) { assert JobOk(s, k); }
  }

  lemma FinishKeeps(s: State, j: nat, success: bool)
    requires Inv(s) && Holds(s, j)
    ensures Inv(Finished(s, j, success))
  {
    var s', c := Finished(s, j, success), Target(s.jobs[j]);
    assert JobOk(s, j);
    forall name { UseGrows(s.log, Released(j, c), name); }
    forall name ensures LockOk(s', name) { assert LockOk(s, name); }
    forall k | k in s'.jobs ensures JobOk(s', k) { assert JobOk(s, k); }
  }

  /** Every step, of any recovery or of the API, keeps locks, jobs, hosts and log in agreement. */
  lemma StepKeeps(s: State, a: Action, s': State)
    requires Inv(s) && Next(s, a, s')
    ensures Inv(s')
  {
    match a {
      case Begin(j, h) => BeginKeeps(s, j, h);
      case Select(j, _) => MoveKeeps(s, j, s'.jobs[j]);
      case TryLock(j) =>
        assert JobOk(s, j);
        if s.jobs[j].candidates[s.jobs[j].next].name in s.locks { MoveKeeps(s, j, s'.jobs[j]); } else { AcquireKeeps(s, j); }
      case Clear(j) => ClearKeeps(s, j);
      case Send(j, i) => SendKeeps(s, j, i);
      case Finish(j, success) => FinishKeeps(s, j, success);
      case GiveUp(j) => MoveKeeps(s, j, s'.jobs[j]);
      case Mark(h) => SetHostKeeps(s, h, s'.hosts[h]);
      case Edit(_, h, _) => SetHostKeeps(s, h, s'.hosts[h]);
      case Create(h, row) => SetHostKeeps(s, h, row);
      case Delete(h) => DeleteKeeps(s, h);
    }
  }

  /** Every event of every step is a proper one. */
  lemma StepIsProper(s: State, a: Action, s': State)
    requires Inv(s) && Next(s, a, s')
    ensures s'.log == s.log || (s'.log == s.log + [s'.log[|s'.log| - 1]] && Proper(s.log, s'.log[|s'.log| - 1]))
  {
    match a {
      case TryLock(j) => assert LockOk(s, s.jobs[j].candidates[s.jobs[j].next].name);
      case Clear(j) => assert JobOk(s, j);
      case Send(j, _) => assert JobOk(s, j);
      case Finish(j, _) => assert JobOk(s, j);
      case _ =>
    }
  }

  lemma ProperGrows(log: seq<Event>, e: Event)
    requires ProperLog(log) && Proper(log, e)
    ensures ProperLog(log + [e])
  {
    var log' := log + [e];
    forall k | 0 <= k < |log'| ensures Proper(log'[..k], log'[k]) {
      if k < |log| {
        assert log'[..k] == log[..k] && Proper(log[..k], log[k]);
      } else {
        assert log'[..k] == log;
      }
    }
  }

  /** Over any run, in any interleaving of any number of host failures and API calls: two evacuations never
      hold the lock of one name at once, and no instance is sent to a host before its reserved flag has
      been cleared by the evacuation that sends it. */
  lemma {:induction false} ReservedHostsAreExclusive(states: seq<State>, actions: seq<Action>, i: nat)
    requires IsRun(states, actions) && i < |states|
    ensures Inv(states[i]) && ProperLog(states[i].log)
    ensures forall j, k | Holds(states[i], j) && Holds(states[i], k) && j != k ::
              Target(states[i].jobs[j]).name != Target(states[i].jobs[k]).name
  {
    hide Next;
    if i == 0 {
    } else {
      var s, s' := states[i - 1], states[i];
      ReservedHostsAreExclusive(states, actions, i - 1);
      StepKeeps(s, actions[i - 1], s');
      StepIsProper(s, actions[i - 1], s');
      if s'.log != s.log { ProperGrows(s.log, s'.log[|s'.log| - 1]); }
    }
    forall j, k | Holds(states[i], j) && Holds(states[i], k) && j != k
      ensures Target(states[i].jobs[j]).name != Target(states[i].jobs[k]).name
    {
      assert JobOk(states[i], j) && JobOk(states[i], k);
    }
  }

  /** The candidate is a reserved host off maintenance, in the segment of the given host, and has this name. */
  predicate EligibleAs(hosts: map<nat, Host>, host: nat, c: Candidate)
  {
    && host in hosts && c.host in hosts && hosts[c.host].segment == hosts[host].segment
    && hosts[c.host].reserved && !hosts[c.host].onMaintenance && hosts[c.host].name == c.name
  }

  /** A selection lists each such host of the failed host's segment once, and nothing else; it changes
      nothing but the job's own list. */
  lemma SelectionIsExact(s: State, j: nat, candidates: seq<Candidate>, s': State)
    requires Next(s, Select(j, candidates), s')
    ensures j in s.jobs && forall c :: c in candidates <==> EligibleAs(s.hosts, s.jobs[j].host, c)
    ensures forall k, l | 0 <= k < l < |candidates| :: candidates[k] != candidates[l]
    ensures s'.hosts == s.hosts && s'.locks == s.locks && s'.log == s.log && j in s'.jobs
    ensures s'.jobs[j].candidates == candidates && s'.jobs[j].phase == Choosing
  {
  }

  /** What the steps of an evacuation do to the next candidate's lock, its row and the job. A lock that is
      taken makes the job go on to the next candidate. The holder clears the reserved flag and nothing
      else of the row. At the end the lock is free; after a success the recovery is over, after a
      failure it goes on to the next candidate. */
  lemma AttemptSteps(s: State, j: nat, s': State)
    requires j in s.jobs && s.jobs[j].next < |s.jobs[j].candidates|
    ensures var c := s.jobs[j].candidates[s.jobs[j].next];
      && (Next(s, TryLock(j), s') ==>
            && s'.hosts == s.hosts && j in s'.jobs
            && (if c.name in s.locks then s'.jobs[j] == s.jobs[j].(next := s.jobs[j].next + 1) && s'.locks == s.locks
                else s'.jobs[j] == s.jobs[j].(phase := Evacuating(false)) && s'.locks == s.locks[c.name := j]))
      && (Next(s, Clear(j), s') ==>
            && c.host in s.hosts && j in s'.jobs && s'.jobs[j].phase == Evacuating(true) && s'.locks == s.locks
            && s'.hosts == s.hosts[c.host := Protocol.Host(s.hosts[c.host].name, s.hosts[c.host].segment, false,
                                                           s.hosts[c.host].onMaintenance)])
      && (forall i :: Next(s, Send(j, i), s') ==>
            s.jobs[j].phase == Evacuating(true) && s'.log == s.log + [Sent(j, i, c)] && s'.hosts == s.hosts)
      && (forall success :: Next(s, Finish(j, success), s') ==>
            && c.name !in s'.locks && s'.hosts == s.hosts && j in s'.jobs
            && (if success then s'.jobs[j].phase == Over
                else s'.jobs[j].phase == Choosing && s'.jobs[j].next == s.jobs[j].next + 1))
  {
  }

  /** The candidate was selected for the failed host at some step before i, when it was reserved, off
      maintenance, in the failed host's segment, and had the name by which it is locked. */
  ghost predicate WasSelected(states: seq<State>, actions: seq<Action>, i: nat, j: nat, host: nat, c: Candidate)
    requires i <= |actions| <= |states|
  {
    exists k | 0 <= k < i :: actions[k].Select? && actions[k].job == j && EligibleAs(states[k].hosts, host, c)
  }

  /** Every candidate of a recovery under way was eligible when it was selected; it is still there, and
      still in the failed host's segment, whatever the API has done since. */
  lemma {:induction false} CandidatesWereEligible(states: seq<State>, actions: seq<Action>, i: nat, j: nat, c: Candidate)
    requires IsRun(states, actions) && i < |states| && Active(states[i], j) && c in states[i].jobs[j].candidates
    ensures WasSelected(states, actions, i, j, states[i].jobs[j].host, c)
    ensures var s := states[i]; var host := s.jobs[j].host;
            host in s.hosts && c.host in s.hosts && s.hosts[c.host].segment == s.hosts[host].segment
  {
    hide Next, Inv, WasSelected;
    ReservedHostsAreExclusive(states, actions, i);
    JobsOfInv(states[i]);
    assert JobOk(states[i], j);
    if i == 0 {
      assert false;
    } else {
      var s, a := states[i - 1], actions[i - 1];
      CandidatesStep(s, a, states[i], j);
      if a.Select? && a.job == j {
        JobStep(s, a, states[i], j);
        SelectedNow(states, actions, i, j, s.jobs[j].host, c);
      } else {
        JobStep(s, a, states[i], j);
        CandidatesWereEligible(states, actions, i - 1, j, c);
        SelectedBefore(states, actions, i - 1, j, s.jobs[j].host, c);
      }
    }
  }

  lemma SelectedNow(states: seq<State>, actions: seq<Action>, i: nat, j: nat, host: nat, c: Candidate)
    requires 0 < i <= |actions| <= |states| && actions[i - 1].Select? && actions[i - 1].job == j
    requires CanSelect(states[i - 1], j, actions[i - 1].candidates) && c in actions[i - 1].candidates
    requires states[i - 1].jobs[j].host == host
    ensures WasSelected(states, actions, i, j, host, c)
  {
  }

  lemma SelectedBefore(states: seq<State>, actions: seq<Action>, i: nat, j: nat, host: nat, c: Candidate)
    requires i < |actions| <= |states| && WasSelected(states, actions, i, j, host, c)
    ensures WasSelected(states, actions, i + 1, j, host, c)
  {
  }

  // ----- Renaming a reserved host -----

  /** A recovery gets the lock it tries exactly if no evacuation under way holds one of that name; so it
      gets to a host that is in use exactly if it knows the host by a name that nobody has locked. */
  lemma LockIsGrantedIff(s: State, j: nat)
    requires Inv(s) && CanTry(s, j)
    ensures var c := s.jobs[j].candidates[s.jobs[j].next];
      Holds(Tried(s, j), j) <==> forall k | k in s.jobs && Holds(s, k) :: Target(s.jobs[k]).name != c.name
  {
    var c := s.jobs[j].candidates[s.jobs[j].next];
    assert LockOk(s, c.name);
    forall k | k in s.jobs && Holds(s, k) && Target(s.jobs[k]).name == c.name ensures c.name in s.locks {
      assert JobOk(s, k);
    }
  }

  /** An update names the segment that the host is in. */
  predicate OwnSegment(s: State, a: Action)
  {
    a.Edit? && a.host in s.hosts ==> s.hosts[a.host].segment == a.segment
  }

  /** An update of a host's name. */
  predicate Renames(a: Action) { a.Edit? && a.data.name.Some? }

  /** The recoveries under way know their candidates by the names they have. */
  ghost predicate NamesOk(s: State)
  {
    forall j, c | Active(s, j) && c in s.jobs[j].candidates :: c.host in s.hosts && s.hosts[c.host].name == c.name
  }

  /** A host in the segment of a recovery under way cannot be updated through that segment. */
  lemma OwnUpdateRefused(s: State, a: Action, s': State, j: nat, h: nat)
    requires JobsInv(s) && Next(s, a, s') && Active(s, j) && h in s.hosts
    requires s.jobs[j].host in s.hosts && s.hosts[h].segment == s.hosts[s.jobs[j].host].segment
    ensures a.Edit? && a.host == h ==> a.segment != s.hosts[h].segment
    ensures a.Delete? ==> a.host != h
  {
    assert UnderRecovery(s, s.hosts[h].segment);
  }

  lemma NameStep(s: State, a: Action, s': State, h: nat)
    requires Next(s, a, s') && h in s.hosts && (a.Delete? ==> a.host != h) && (Renames(a) ==> a.host != h)
    ensures h in s'.hosts && s'.hosts[h].name == s.hosts[h].name
  {
    hide UnderRecovery, NameTaken, Handled;
  }

  lemma CandidatesStep(s: State, a: Action, s': State, j: nat)
    requires Next(s, a, s') && Active(s', j)
    ensures a.Select? && a.job == j ==>
              s'.jobs[j].candidates == a.candidates && CanSelect(s, j, a.candidates) && s'.hosts == s.hosts
    ensures !(a.Select? && a.job == j) ==>
              (Active(s, j) && s'.jobs[j].candidates == s.jobs[j].candidates) || s'.jobs[j].candidates == []
  {
    hide UnderRecovery, NameTaken, Handled;
  }

  lemma NamesStep(s: State, a: Action, s': State)
    requires Inv(s) && NamesOk(s) && Next(s, a, s') && (Renames(a) ==> OwnSegment(s, a))
    ensures NamesOk(s')
  {
    hide Next;
    forall j, c | Active(s', j) && c in s'.jobs[j].candidates ensures c.host in s'.hosts && s'.hosts[c.host].name == c.name {
      CandidatesStep(s, a, s', j);
      if !(a.Select? && a.job == j) {
        assert JobOk(s, j);
        OwnUpdateRefused(s, a, s', j, c.host);
        NameStep(s, a, s', c.host);
      }
    }
  }

  /** If hosts are renamed only through their own segment, the lock of a name is the lock of a host: two
      evacuations never use the same reserved host at once. */
  lemma {:induction false} HostsAreExclusive(states: seq<State>, actions: seq<Action>, i: nat)
    requires IsRun(states, actions) && i < |states|
    requires forall k | 0 <= k < i && Renames(actions[k]) :: OwnSegment(states[k], actions[k])
    ensures NamesOk(states[i])
    ensures forall j, k | Holds(states[i], j) && Holds(states[i], k) && j != k ::
              Target(states[i].jobs[j]).host != Target(states[i].jobs[k]).host
  {
    hide Next, Inv;
    if i == 0 {
      assert states[0].jobs == map[];
    } else {
      HostsAreExclusive(states, actions, i - 1);
      ReservedHostsAreExclusive(states, actions, i - 1);
      NamesStep(states[i - 1], actions[i - 1], states[i]);
    }
    ReservedHostsAreExclusive(states, actions, i);
    forall j, k | Holds(states[i], j) && Holds(states[i], k) && j != k
      ensures Target(states[i].jobs[j]).host != Target(states[i].jobs[k]).host
    {
      assert Target(states[i].jobs[j]) in states[i].jobs[j].candidates;
      assert Target(states[i].jobs[k]) in states[i].jobs[k].candidates;
    }
  }

  // ----- The failed host as its own candidate -----

  /** The update takes the host among the reserved ones, or off maintenance. */
  predicate Reserves(a: Action, h: nat) { a.Edit? && a.host == h && a.data.reserved == Some(true) }

  predicate TakesOff(a: Action, h: nat) { a.Edit? && a.host == h && a.data.onMaintenance == Some(false) }

  /** The step undoes that: an update, or an evacuation that uses the host. */
  predicate Unreserves(s: State, a: Action, h: nat)
  {
    || (a.Edit? && a.host == h && a.data.reserved == Some(false))
    || (a.Clear? && Holds(s, a.job) && Target(s.jobs[a.job]).host == h)
  }

  predicate PutsOn(a: Action, h: nat) { a.Edit? && a.host == h && a.data.onMaintenance == Some(true) }

  /** Some update from one point of a run to another has reserved the host, and no later step undone it. */
  ghost predicate LeftReserved(states: seq<State>, actions: seq<Action>, from: nat, to: nat, h: nat)
    requires to <= |actions| <= |states|
  {
    exists k | from <= k < to :: Reserves(actions[k], h) && forall l | k < l < to :: !Unreserves(states[l], actions[l], h)
  }

  /** Some update has taken the host off maintenance, and no later one put it back. */
  ghost predicate LeftOff(actions: seq<Action>, from: nat, to: nat, h: nat)
    requires to <= |actions|
  {
    exists k | from <= k < to :: TakesOff(actions[k], h) && forall l | k < l < to :: !PutsOn(actions[l], h)
  }

  lemma LeftReservedGrows(states: seq<State>, actions: seq<Action>, from: nat, to: nat, h: nat)
    requires from <= to < |actions| <= |states|
    ensures LeftReserved(states, actions, from, to + 1, h) <==>
              Reserves(actions[to], h) ||
              (LeftReserved(states, actions, from, to, h) && !Unreserves(states[to], actions[to], h))
  {
    if !Reserves(actions[to], h) && LeftReserved(states, actions, from, to, h) && !Unreserves(states[to], actions[to], h) {
      var k :| from <= k < to && Reserves(actions[k], h) && forall l | k < l < to :: !Unreserves(states[l], actions[l], h);
      assert forall l | k < l < to + 1 :: !Unreserves(states[l], actions[l], h);
    }
  }

  lemma LeftOffGrows(actions: seq<Action>, from: nat, to: nat, h: nat)
    requires from <= to < |actions|
    ensures LeftOff(actions, from, to + 1, h) <==>
              TakesOff(actions[to], h) || (LeftOff(actions, from, to, h) && !PutsOn(actions[to], h))
  {
    if !TakesOff(actions[to], h) && LeftOff(actions, from, to, h) && !PutsOn(actions[to], h) {
      var k :| from <= k < to && TakesOff(actions[k], h) && forall l | k < l < to :: !PutsOn(actions[l], h);
      assert forall l | k < l < to + 1 :: !PutsOn(actions[l], h);
    }
  }

  /** What a step makes of the flags of a host whose failure is being handled. */
  lemma FlagStep(s: State, a: Action, s': State, j: nat)
    requires JobsInv(s) && Next(s, a, s') && Active(s, j)
    ensures var h := s.jobs[j].host;
      && h in s.hosts && h in s'.hosts
      && s'.hosts[h].reserved == (Reserves(a, h) || (s.hosts[h].reserved && !Unreserves(s, a, h)))
      && !s'.hosts[h].onMaintenance == (TakesOff(a, h) || (!s.hosts[h].onMaintenance && !PutsOn(a, h)))
  {
    assert JobOk(s, j);
    OwnUpdateRefused(s, a, s', j, s.jobs[j].host);
    hide UnderRecovery, NameTaken, JobOk;
    assert Handled(s, s.jobs[j].host);
  }

  lemma JobStep(s: State, a: Action, s': State, j: nat)
    requires Next(s, a, s') && j in s.jobs
    ensures j in s'.jobs && s'.jobs[j].host == s.jobs[j].host
    ensures InPhase(s', j, Marked) ==> InPhase(s, j, Marked)
  {
    hide UnderRecovery, NameTaken, Handled;
  }

  lemma BeginStep(s: State, j: nat, h: nat, s': State)
    requires Next(s, Begin(j, h), s')
    ensures j in s'.jobs && s'.jobs[j].host == h && h in s'.hosts && !s'.hosts[h].reserved && s'.hosts[h].onMaintenance
  {
  }

  /** From the step in which the handler has marked the failed host, up to the selection: the host is
      reserved, or off maintenance, exactly as updates have left it. */
  lemma {:induction false} FlagsSinceBegin(states: seq<State>, actions: seq<Action>, i: nat, b: nat, j: nat, h: nat)
    requires IsRun(states, actions) && i < b < |states| && actions[i] == Begin(j, h)
    ensures j in states[b].jobs && states[b].jobs[j].host == h
    ensures InPhase(states[b], j, Marked) ==>
              && h in states[b].hosts
              && (states[b].hosts[h].reserved <==> LeftReserved(states, actions, i + 1, b, h))
              && (!states[b].hosts[h].onMaintenance <==> LeftOff(actions, i + 1, b, h))
    decreases b
  {
    hide Next, Inv;
    if b == i + 1 {
      BeginStep(states[i], j, h, states[b]);
    } else {
      FlagsSinceBegin(states, actions, i, b - 1, j, h);
      JobStep(states[b - 1], actions[b - 1], states[b], j);
      if InPhase(states[b], j, Marked) {
        ReservedHostsAreExclusive(states, actions, b - 1);
        JobsOfInv(states[b - 1]);
        FlagStep(states[b - 1], actions[b - 1], states[b], j);
        LeftReservedGrows(states, actions, i + 1, b - 1, h);
        LeftOffGrows(actions, i + 1, b - 1, h);
      }
    }
  }

  lemma JobsOfInv(s: State)
    requires Inv(s)
    ensures JobsInv(s)
  {
  }

  /** The failed host is among its own candidates if and only if updates since it was marked have left it
      both reserved and off maintenance. */
  lemma OwnCandidateIff(states: seq<State>, actions: seq<Action>, i: nat, b: nat, j: nat, h: nat, candidates: seq<Candidate>)
    requires IsRun(states, actions) && i < b < |actions| && actions[i] == Begin(j, h) && actions[b] == Select(j, candidates)
    ensures (exists c | c in candidates :: c.host == h) <==>
              LeftReserved(states, actions, i + 1, b, h) && LeftOff(actions, i + 1, b, h)
  {
    assert Next(states[b], actions[b], states[b + 1]);
    FlagsSinceBegin(states, actions, i, b, j, h);
    var s := states[b];
    assert CanSelect(s, j, candidates);
    if Eligible(s, h, h) { assert Candidate(h, s.hosts[h].name) in candidates; }
  }

  lemma {:induction false} JobSinceBegin(states: seq<State>, actions: seq<Action>, k: nat, b: nat, j: nat)
    requires IsRun(states, actions) && k <= b < |states| && j in states[k].jobs && InPhase(states[b], j, Marked)
    ensures InPhase(states[k], j, Marked)
    decreases b - k
  {
    hide Next;
    if k == b {
    } else {
      JobStep(states[k], actions[k], states[k + 1], j);
      JobSinceBegin(states, actions, k + 1, b, j);
    }
  }

  /** So it never is if update_host is called with each host's own segment: no update of it gets through. */
  lemma OwnSegmentKeepsFailedHostOut(states: seq<State>, actions: seq<Action>, i: nat, b: nat, j: nat, h: nat,
                                     candidates: seq<Candidate>)
    requires IsRun(states, actions) && i < b < |actions| && actions[i] == Begin(j, h) && actions[b] == Select(j, candidates)
    requires forall k | i < k < b :: OwnSegment(states[k], actions[k])
    ensures forall c | c in candidates :: c.host != h
  {
    OwnCandidateIff(states, actions, i, b, j, h, candidates);
    assert Next(states[b], actions[b], states[b + 1]);
    hide Next, Inv, LeftOff;
    forall k | i + 1 <= k < b ensures !Reserves(actions[k], h) {
      FlagsSinceBegin(states, actions, i, k, j, h);
      JobSinceBegin(states, actions, k, b, j);
      ReservedHostsAreExclusive(states, actions, k);
      JobsOfInv(states[k]);
      OwnUpdateRefused(states[k], actions[k], states[k + 1], j, h);
    }
  }

  // ----- Two runs with updates through another segment -----

  const NODE: Host := Protocol.Host("node", 1, false, false)
  const MARKED: Host := Protocol.Host("node", 1, false, true)
  const BACK: Host := Protocol.Host("node", 1, true, false)
  const BRING_BACK: HostData := Protocol.HostData(None, Some(true), Some(false))

  /** Between the marking of a failed host and the selection, an update that names segment 2 reserves the
      host and takes it off maintenance; it becomes the only candidate for its own failure. */
  lemma FailedHostIsItsOwnCandidate() returns (states: seq<State>, actions: seq<Action>)
    ensures IsRun(states, actions) && actions == [Begin(0, 7), Edit(2, 7, BRING_BACK), Select(0, [Candidate(7, "node")])]
    ensures CanTry(states[3], 0)
  {
    var c := Candidate(7, "node");
    var s0 := State(map[7 := NODE], map[], map[], []);
    var s1 := State(map[7 := MARKED], map[], map[0 := Job(7, Marked, [], 0)], []);
    var s2 := State(map[7 := BACK], map[], map[0 := Job(7, Marked, [], 0)], []);
    var s3 := State(map[7 := BACK], map[], map[0 := Job(7, Choosing, [c], 0)], []);
    states := [s0, s1, s2, s3];
    actions := [Begin(0, 7), Edit(2, 7, BRING_BACK), Select(0, [c])];
    assert CanSelect(s2, 0, [c]);
  }

  const SPARE: Host := Protocol.Host("spare", 1, true, false)
  const RENAMED: Host := Protocol.Host("new", 1, true, false)

  /** The states of a run in which two hosts fail and both recoveries select host 9, which is renamed
      between the two selections by an update that names segment 2. */
  function Case(step: nat): State
  {
    var nine := if step < 3 then SPARE else RENAMED;
    var c, d := Candidate(9, "spare"), Candidate(9, "new");
    var hosts := map[7 := if step < 1 then NODE else MARKED,
                     8 := Protocol.Host("other", 1, false, step >= 4), 9 := nine];
    var job0 := Job(7, if step == 1 then Marked else if step < 6 then Choosing else Evacuating(false),
                    if step == 1 then [] else [c], 0);
    var job1 := Job(8, if step == 4 then Marked else if step < 7 then Choosing else Evacuating(false),
                    if step == 4 then [] else [d], 0);
    State(hosts,
          if step < 6 then map[] else if step == 6 then map["spare" := 0] else map["spare" := 0, "new" := 1],
          if step < 1 then map[] else if step < 4 then map[0 := job0] else map[0 := job0, 1 := job1],
          if step < 6 then [] else if step == 6 then [Acquired(0, c)] else [Acquired(0, c), Acquired(1, d)])
  }

  lemma CaseFirst()
    ensures Next(Case(0), Begin(0, 7), Case(1)) && Next(Case(1), Select(0, [Candidate(9, "spare")]), Case(2))
  {
    assert CanSelect(Case(1), 0, [Candidate(9, "spare")]);
  }

  lemma CaseRenamed()
    ensures Next(Case(2), Edit(2, 9, Protocol.HostData(Some("new"), None, None)), Case(3))
  {
  }

  lemma CaseSecond()
    ensures Next(Case(3), Begin(1, 8), Case(4)) && Next(Case(4), Select(1, [Candidate(9, "new")]), Case(5))
  {
    assert CanSelect(Case(4), 1, [Candidate(9, "new")]);
  }

  lemma CaseLocked()
    ensures Next(Case(5), TryLock(0), Case(6)) && Next(Case(6), TryLock(1), Case(7))
  {
    assert [Acquired(0, Candidate(9, "spare"))] + [Acquired(1, Candidate(9, "new"))] ==
           [Acquired(0, Candidate(9, "spare")), Acquired(1, Candidate(9, "new"))];
  }

  /** In the end both hold a lock for host 9: the names in the lock table differ, the host is the same. */
  lemma TwoEvacuationsUseOneHost() returns (states: seq<State>, actions: seq<Action>)
    ensures IsRun(states, actions) && |actions| == 7
    ensures Holds(states[7], 0) && Holds(states[7], 1)
    ensures Target(states[7].jobs[0]).host == Target(states[7].jobs[1]).host
  {
    hide Next, Case;
    states := [Case(0), Case(1), Case(2), Case(3), Case(4), Case(5), Case(6), Case(7)];
    actions := [Begin(0, 7), Select(0, [Candidate(9, "spare")]), Edit(2, 9, Protocol.HostData(Some("new"), None, None)),
                Begin(1, 8), Select(1, [Candidate(9, "new")]), TryLock(0), TryLock(1)];
    CaseFirst();
    CaseRenamed();
    CaseSecond();
    CaseLocked();
    CaseEnds();
  }

  lemma CaseEnds()
    ensures Case(0).locks == map[] && Case(0).jobs == map[] && Case(0).log == []
    ensures var s := Case(7); Holds(s, 0) && Holds(s, 1) && Target(s.jobs[0]).host == Target(s.jobs[1]).host
  {
  }
}
