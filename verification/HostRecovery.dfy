/** The taskflow driver's recovery of a failed host: the auto and the reserved-host workflow, the two
    priority methods that fall back from one to the other, and the status the notification exits with. */
module HostRecovery {

  import opened Outcomes
  import Protocol

  datatype RecoveryMethod = AUTO | RESERVED_HOST | AUTO_PRIORITY | RH_PRIORITY

  datatype Workflow = Auto | ReservedHost

  /** How many hosts of a list are tried when host h's attempt ends with attempt(h): up to the first
      attempt that is completed, else all. */
  function Tries(list: seq<nat>, attempt: nat -> Outcome): (n: nat)
    ensures n <= |list|
    ensures forall i | 0 <= i < n - 1 :: attempt(list[i]) != Completed
    ensures list != [] ==> n > 0
    ensures 0 < n < |list| ==> attempt(list[n - 1]) == Completed
  {
    if list == [] then 0
    else if attempt(list[0]) == Completed then 1
    else 1 + Tries(list[1..], attempt)
  }

  /** auto: how the auto workflow ends. disable: how the first task of the reserved-host workflow
      ends. attempt: how its retried tasks end with each host. */
  class TaskFlowDriver {
    const auto: Outcome
    const disable: Outcome
    const attempt: nat -> Outcome
    var tried: seq<nat>                      // reserved hosts, in the order they were tried
    var runs: seq<(Workflow, Outcome)>        // workflows, in the order they were run

    constructor (auto: Outcome, disable: Outcome, attempt: nat -> Outcome)
      ensures tried == [] && runs == []
      ensures this.auto == auto && this.disable == disable && this.attempt == attempt
    {
      this.auto, this.disable, this.attempt := auto, disable, attempt;
      tried, runs := [], [];
    }

    method ExecuteAutoWorkflow() returns (e: Outcome)
      modifies this
      ensures e == auto && runs == old(runs) + [(Auto, e)] && tried == old(tried)
    {
      e := auto;
      runs := runs + [(Auto, e)];
    }

    /** The run of the reserved-host flow: the first task, then the retried tasks with one host after
        another; when the list is used up, the failure of the last attempt remains. */
    method RunReservedHostFlow(list: seq<nat>) returns (e: Outcome)
      requires list != []
      modifies this`tried
      ensures disable != Completed ==> e == disable && tried == old(tried)
      ensures disable == Completed ==>
                tried == old(tried) + list[..Tries(list, attempt)] && e == attempt(list[Tries(list, attempt) - 1])
    {
      e := disable;
      if disable != Completed { return; }
      var i := 0;
      e := OtherError;
      while e != Completed && i < |list|
        invariant 0 <= i <= |list| && (i == 0 ==> e == OtherError)
        invariant tried == old(tried) + list[..i]
        invariant i > 0 ==> e == attempt(list[i - 1])
        invariant forall k | 0 <= k < i - 1 :: attempt(list[k]) != Completed
        decreases |list| - i
      {
        tried := tried + [list[i]];
        assert list[..i + 1] == list[..i] + [list[i]];
        e := attempt(list[i]);
        i := i + 1;
      }
      TriesUnique(list, attempt, i);
    }

    /** What a reserved-host workflow has to do with a list: the hosts tried are a prefix of it, which ends
        at the first success. It ends for lack of reserved hosts exactly without any; else as its first
        task did, if that failed; else as the attempt with the last host tried did, but for a busy lock,
        which makes it a recovery failure. */
    ghost predicate ReservedRun(list: seq<nat>, hosts: seq<nat>, e: Outcome)
    {
      && hosts <= list && (forall i | 0 <= i < |hosts| - 1 :: attempt(hosts[i]) != Completed)
      && (0 < |hosts| < |list| ==> attempt(hosts[|hosts| - 1]) == Completed)
      && (list == [] ==> e == NoReservedHosts)
      && (list != [] && disable != Completed ==> hosts == [] && e == if disable == LockBusy then RecoveryFailed else disable)
      && (list != [] && disable == Completed ==>
            && hosts != []
            && e == if attempt(hosts[|hosts| - 1]) == LockBusy then RecoveryFailed else attempt(hosts[|hosts| - 1]))
    }

    /** _execute_rh_workflow: no flow at all without reserved hosts; a lock that is taken counts as a
        recovery failure. */
    method ExecuteReservedHostWorkflow(list: seq<nat>) returns (e: Outcome)
      modifies this
      ensures e == ReservedEnding(list) && runs == old(runs) + [(ReservedHost, e)]
      ensures tried == old(tried) + HostsTried(list) && ReservedRun(list, HostsTried(list), e)
    {
      ReservedRunIs(list);
      if list == [] {
        e := NoReservedHosts;
      } else {
        e := RunReservedHostFlow(list);
        if e == LockBusy { e := RecoveryFailed; }
      }
      runs := runs + [(ReservedHost, e)];
    }

    /** How the reserved-host workflow ends. */
    function ReservedEnding(list: seq<nat>): Outcome
    {
      if list == [] then NoReservedHosts
      else
        var e := if disable != Completed then disable else attempt(list[Tries(list, attempt) - 1]);
        if e == LockBusy then RecoveryFailed else e
    }

    method ExecuteAutoPriorityWorkflow(list: seq<nat>) returns (e: Outcome)
      modifies this
      ensures e == if Good(auto) then auto else ReservedEnding(list)
      ensures runs == old(runs) + if Good(auto) then [(Auto, auto)] else [(Auto, auto), (ReservedHost, e)]
      ensures tried == old(tried) + if !Good(auto) then HostsTried(list) else []
    {
      e := ExecuteAutoWorkflow();
      if e != Completed && e != Skipped {
        e := ExecuteReservedHostWorkflow(list);
      }
    }

    method ExecuteReservedHostPriorityWorkflow(list: seq<nat>) returns (e: Outcome)
      modifies this
      ensures e == if Good(ReservedEnding(list)) then ReservedEnding(list) else auto
      ensures runs == old(runs) + if Good(ReservedEnding(list)) then [(ReservedHost, e)]
                                  else [(ReservedHost, ReservedEnding(list)), (Auto, auto)]
      ensures tried == old(tried) + HostsTried(list)
    {
      e := ExecuteReservedHostWorkflow(list);
      if e != Completed && e != Skipped {
        e := ExecuteAutoWorkflow();
      }
    }

    /** execute_host_failure: runs the workflows of a recovery method; what they raise is re-raised or
        becomes a MasakariException. */
    method ExecuteHostFailure(how: RecoveryMethod, list: seq<nat>) returns (e: Outcome)
      requires runs == [] && tried == []
      modifies this
      ensures WellRun(how, list, runs, tried) && e == HostDriver(runs[|runs| - 1].1)
    {
      hide WellRun, ReservedRun;
      match how {
        case AUTO => e := ExecuteAutoWorkflow();
        case RESERVED_HOST => e := ExecuteReservedHostWorkflow(list);
        case AUTO_PRIORITY => e := ExecuteAutoPriorityWorkflow(list);
        case RH_PRIORITY => e := ExecuteReservedHostPriorityWorkflow(list);
      }
      RunsAreWell(how, list, runs, tried);
      if e != Completed && !(e == Skipped || e == RecoveryFailed || e == NoReservedHosts) {
        e := MasakariError;
      }
    }

    /** What a recovery method does, in terms of the two workflows. */
    lemma RunsAreWell(how: RecoveryMethod, list: seq<nat>, runs: seq<(Workflow, Outcome)>, tried: seq<nat>)
      requires var rh := ReservedEnding(list);
        match how
        case AUTO => runs == [(Auto, auto)] && tried == []
        case RESERVED_HOST => runs == [(ReservedHost, rh)] && tried == HostsTried(list)
        case AUTO_PRIORITY =>
          if Good(auto) then runs == [(Auto, auto)] && tried == []
          else runs == [(Auto, auto), (ReservedHost, rh)] && tried == HostsTried(list)
        case RH_PRIORITY =>
          runs == (if Good(rh) then [(ReservedHost, rh)] else [(ReservedHost, rh), (Auto, auto)]) && tried == HostsTried(list)
      ensures WellRun(how, list, runs, tried) && runs != []
    {
      ReservedRunIs(list);
      hide ReservedRun, ReservedEnding, HostsTried;
    }

    /** The hosts that a reserved-host workflow tries. */
    function HostsTried(list: seq<nat>): seq<nat>
    {
      if disable == Completed then list[..Tries(list, attempt)] else []
    }

    lemma ReservedRunIs(list: seq<nat>)
      ensures ReservedRun(list, HostsTried(list), ReservedEnding(list))
    {
    }

    /** Whatever the workflows do: none follows one that was completed or skipped, and a priority method
        runs both exactly if its first one was neither. The automatic workflow is recorded as it ended. */
    ghost predicate WellRun(how: RecoveryMethod, list: seq<nat>, runs: seq<(Workflow, Outcome)>, tried: seq<nat>)
    {
      && 1 <= |runs| <= 2
      && (forall i | 0 <= i < |runs| - 1 :: runs[i].1 != Completed && runs[i].1 != Skipped)
      && runs[0].0 == (if how == AUTO || how == AUTO_PRIORITY then Auto else ReservedHost)
      && (|runs| == 2 ==> runs[1].0 != runs[0].0)
      && (|runs| == 2 <==> (how == AUTO_PRIORITY || how == RH_PRIORITY) && runs[0].1 != Completed && runs[0].1 != Skipped)
      && (forall r | r in runs && r.0 == Auto :: r.1 == auto)
      && ((forall r | r in runs :: r.0 == Auto) ==> tried == [])
      && (forall r | r in runs && r.0 == ReservedHost :: ReservedRun(list, tried, r.1))
    }

    /** The part of the engine's handler that calls the driver: it always comes to a status, FINISHED if
        and only if the last workflow was completed or skipped, and ERROR otherwise. */
    method HandleHostFailure(how: RecoveryMethod, list: seq<nat>) returns (handled: Handled)
      requires runs == [] && tried == []
      modifies this
      ensures WellRun(how, list, runs, tried)
      ensures var last := runs[|runs| - 1].1;
              handled == Returns(if last == Completed || last == Skipped then Protocol.FINISHED else Protocol.ERROR)
      ensures how == AUTO ==>
                handled == Returns(if auto == Completed || auto == Skipped then Protocol.FINISHED else Protocol.ERROR)
      ensures how == RESERVED_HOST && list == [] ==>
                runs == [(ReservedHost, NoReservedHosts)] && handled == Returns(Protocol.ERROR)
      ensures how == RH_PRIORITY && list == [] ==> runs == [(ReservedHost, NoReservedHosts), (Auto, auto)]
      ensures how == AUTO_PRIORITY && list == [] ==>
                handled == Returns(if auto == Completed || auto == Skipped then Protocol.FINISHED else Protocol.ERROR)
    {
      var e := ExecuteHostFailure(how, list);
      handled := StoppedHandler(e);
      HostOutcomesBecomeStatuses(runs[|runs| - 1].1);
      assert runs[0] in runs && (|runs| == 2 ==> runs[1] in runs);
    }
  }

  /** The driver's clause is what keeps the handler from raising: it alone would, exactly for exceptions
      that are no MasakariExceptions; the two together give every outcome a status. */
  lemma HostOutcomesBecomeStatuses(o: Outcome)
    ensures StoppedHandler(HostDriver(o)) ==
            Returns(if o == Completed || o == Skipped then Protocol.FINISHED else Protocol.ERROR)
    ensures StoppedHandler(o).Raises? <==> o == OtherError
    ensures HostDriver(HostDriver(o)) == HostDriver(o)
  {
  }

  lemma {:induction false} TriesUnique(list: seq<nat>, attempt: nat -> Outcome, n: nat)
    requires 0 < n <= |list|
    requires forall i | 0 <= i < n - 1 :: attempt(list[i]) != Completed
    requires n < |list| ==> attempt(list[n - 1]) == Completed
    ensures n == Tries(list, attempt)
  {
    if n == 1 {
    } else {
      TriesUnique(list[1..], attempt, n - 1);
    }
  }
}
