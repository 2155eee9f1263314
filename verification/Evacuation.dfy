/** Evacuation of the instances of a failed host: the calls one worker makes for its instance, and a
    pool of workers that interleave their calls and share one list of failures. */
module Evacuation {

  /** OS-EXT-STS:vm_state, as far as the code tells the values apart. */
  datatype VmState = ACTIVE | ERROR | STOPPED | RESIZED | ELSEWHERE

  /** busy: the instance has a task_state; haEnabled: its metadata says HA_Enabled. */
  datatype Instance = Instance(id: nat, state: VmState, busy: bool, haEnabled: bool)

  datatype Wait = Confirmed | TimedOut | Broken

  /** What nova answers to the calls made for one instance: whether a call returns, what the instance
      looks like when it is fetched again, and how the two confirmations end. */
  datatype Answers = Answers(
    reset: bool, fetch: bool, newState: VmState, shutdown: bool,
    evacuate: bool, moved: Wait, stop: bool, stopped: Wait, resetBack: bool)

  datatype Call =
    | GetServer | LockServer | UnlockServer | ResetState | StopServer
    | Evacuate | AwaitMove | AwaitStop
    | Record                       // failed_evacuation_instances.append(instance.id)

  // ----- One worker -----

  /** Nova evacuates only instances in these states that have no task. */
  predicate Evacuable(vm: Instance) { (vm.state == ACTIVE || vm.state == ERROR || vm.state == STOPPED) && !vm.busy }

  /** The state the instance is taken to be in after the evacuation. */
  function StateToRestore(vm: Instance, a: Answers): VmState
  {
    if vm.state == RESIZED || vm.state == ELSEWHERE then a.newState else vm.state
  }

  /** Whether the evacuated instance, which nova starts, is to be stopped again. */
  predicate MustStop(vm: Instance, a: Answers)
  {
    && StateToRestore(vm, a) != ACTIVE
    && !(vm.state == RESIZED && !a.shutdown)
  }

  /** The evacuation was confirmed, and so was whatever had to be done after it. */
  predicate Recovered(vm: Instance, a: Answers)
  {
    && (!Evacuable(vm) ==> a.reset && a.fetch)
    && a.evacuate && a.moved == Confirmed
    && (MustStop(vm, a) ==>
          a.stop && a.stopped == Confirmed && (StateToRestore(vm, a) == ERROR ==> a.resetBack))
  }

  /** The calls of the try block, up to its end or the first that fails. */
  function TryCalls(vm: Instance, a: Answers): seq<Call>
  {
    if Evacuable(vm) then EvacuateCalls(vm, a)
    else if !a.reset then [ResetState]
    else if !a.fetch then [ResetState, GetServer]
    else [ResetState, GetServer] + EvacuateCalls(vm, a)
  }

  function EvacuateCalls(vm: Instance, a: Answers): seq<Call>
  {
    if !a.evacuate then [Evacuate]
    else if a.moved == Confirmed && MustStop(vm, a) then [Evacuate, AwaitMove] + StopCalls(vm, a)
    else [Evacuate, AwaitMove]
  }

  function StopCalls(vm: Instance, a: Answers): seq<Call>
  {
    if !a.stop then [StopServer]
    else if a.stopped == Confirmed && StateToRestore(vm, a) == ERROR then [StopServer, AwaitStop, ResetState]
    else [StopServer, AwaitStop]
  }

  /** The try block with its except clauses. */
  function Attempt(vm: Instance, a: Answers): seq<Call>
  {
    TryCalls(vm, a) + if Recovered(vm, a) then [] else [Record]
  }

  /** All calls of one worker; an instance its user has locked is neither locked nor unlocked. */
  function Script(vm: Instance, a: Answers, userLocked: bool): seq<Call>
  {
    if userLocked then [GetServer] + Attempt(vm, a)
    else [GetServer, LockServer] + Attempt(vm, a) + [UnlockServer]
  }

  /** The instance's lock after some calls. */
  function LockAfter(calls: seq<Call>, locked: bool): bool
  {
    if calls == [] then locked
    else
      var last := calls[|calls| - 1];
      if last == LockServer then true else if last == UnlockServer then false else LockAfter(calls[..|calls| - 1], locked)
  }

  /** How often some calls contain one call. */
  function Count(calls: seq<Call>, call: Call): nat { multiset(calls)[call] }

  predicate TouchesNoLock(calls: seq<Call>) { LockServer !in calls && UnlockServer !in calls }

  lemma StopsOnly(vm: Instance, a: Answers)
    ensures Count(StopCalls(vm, a), Evacuate) == 0 && Count(StopCalls(vm, a), Record) == 0
    ensures TouchesNoLock(StopCalls(vm, a))
  {
  }

  lemma EvacuateOnce(vm: Instance, a: Answers)
    ensures Count(EvacuateCalls(vm, a), Evacuate) == 1 && Count(EvacuateCalls(vm, a), Record) == 0
    ensures TouchesNoLock(EvacuateCalls(vm, a))
  {
    StopsOnly(vm, a);
    hide StopCalls;
  }

  lemma AttemptRecords(vm: Instance, a: Answers)
    ensures Count(Attempt(vm, a), Record) == if Recovered(vm, a) then 0 else 1
    ensures Count(Attempt(vm, a), Evacuate) <= 1 && TouchesNoLock(Attempt(vm, a))
  {
    EvacuateOnce(vm, a);
    hide EvacuateCalls;
  }

  /** A worker records its instance at most once, and does so exactly if the instance is not
      Recovered; it asks nova for at most one evacuation. */
  lemma ScriptRecords(vm: Instance, a: Answers, userLocked: bool)
    ensures Count(Script(vm, a, userLocked), Record) == if Recovered(vm, a) then 0 else 1
    ensures Count(Script(vm, a, userLocked), Evacuate) <= 1
  {
    AttemptRecords(vm, a);
  }

  lemma {:induction false} LockAfterNone(calls: seq<Call>, more: seq<Call>, locked: bool)
    requires TouchesNoLock(more)
    ensures LockAfter(calls + more, locked) == LockAfter(calls, locked)
  {
    if more == [] {
      assert calls + more == calls;
    } else {
      assert (calls + more)[..|calls + more| - 1] == calls + more[..|more| - 1];
      LockAfterNone(calls, more[..|more| - 1], locked);
    }
  }

  /** The user's lock on the instance ends as it began. */
  lemma ScriptRestoresLock(vm: Instance, a: Answers, userLocked: bool)
    ensures LockAfter(Script(vm, a, userLocked), userLocked) == userLocked
  {
    AttemptRecords(vm, a);
    if userLocked {
      LockAfterNone([GetServer], Attempt(vm, a), userLocked);
      assert [GetServer][..0] == [];
    }
  }

  /** Where the calls of the try block stand to each other. */
  predicate OrderedAt(calls: seq<Call>, vm: Instance, a: Answers, i: nat)
    requires i < |calls|
  {
    && (calls[i] == Evacuate && !Evacuable(vm) ==> exists j | 0 <= j < i :: calls[j] == ResetState)
    && (calls[i] == StopServer ==>
          MustStop(vm, a) && a.moved == Confirmed && exists j | 0 <= j < i :: calls[j] == AwaitMove)
  }

  lemma AttemptOrder(vm: Instance, a: Answers, i: nat)
    requires i < |Attempt(vm, a)|
    ensures OrderedAt(Attempt(vm, a), vm, a, i)
  {
    var calls := Attempt(vm, a);
    if calls[i] == Evacuate && !Evacuable(vm) { assert calls[0] == ResetState; }
    if calls[i] == StopServer {
      var k := if Evacuable(vm) then 1 else 3;
      assert calls[k] == AwaitMove;
    }
  }

  /** Evacuate is asked for only once nova can grant it: the instance was evacuable as listed, or its
      state has been reset; it is locked by then; and an instance is stopped only if it has to be,
      and after its evacuation was confirmed. */
  lemma ScriptOrder(vm: Instance, a: Answers, userLocked: bool, i: nat)
    requires i < |Script(vm, a, userLocked)|
    ensures OrderedAt(Script(vm, a, userLocked), vm, a, i)
    ensures Script(vm, a, userLocked)[i] == Evacuate ==> LockAfter(Script(vm, a, userLocked)[..i], userLocked)
  {
    var calls, attempt := Script(vm, a, userLocked), Attempt(vm, a);
    var first := if userLocked then [GetServer] else [GetServer, LockServer];
    hide Attempt;
    var k := i - |first|;
    if 0 <= k < |attempt| {
      AttemptOrder(vm, a, k);
      assert calls[i] == attempt[k];
      forall j | 0 <= j < k ensures calls[|first| + j] == attempt[j] {}
      AttemptRecords(vm, a);
      assert calls[..i] == first + attempt[..k];
      LockAfterNone(first, attempt[..k], userLocked);
      assert userLocked ==> [GetServer][..0] == [];
    }
  }

  // ----- What a script contains, by the instance and the answers -----

  /** The instance can be evacuated: at once from active, error or stopped without a task, otherwise only
      if it is reset and fetched again. */
  predicate Ready(vm: Instance, a: Answers)
  {
    (vm.state in {ACTIVE, ERROR, STOPPED} && !vm.busy) || (a.reset && a.fetch)
  }

  /** It is to be stopped after its evacuation: always if it was stopped or in error, never if it was
      active; if it was resized, only if it was shut down and the reset has not left it active; in any
      other state, if the reset has not left it active. */
  predicate ToStop(vm: Instance, a: Answers)
  {
    match vm.state
    case STOPPED => true
    case ERROR => true
    case ACTIVE => false
    case RESIZED => a.shutdown && a.newState != ACTIVE
    case ELSEWHERE => a.newState != ACTIVE
  }

  /** It is to be put back to error: if it was in error, or a reset from another state has left it so. */
  predicate BackToError(vm: Instance, a: Answers)
  {
    vm.state == ERROR || ((vm.state == RESIZED || vm.state == ELSEWHERE) && a.newState == ERROR)
  }

  /** What the calls of the try block are. The instance is reset first exactly if nova could not evacuate
      it as it is; it is evacuated exactly if it is ready; it is stopped exactly if its move is confirmed
      and it is to be stopped; and then, with the stop confirmed, it is reset exactly if it is to be put
      back to error. All of it succeeds exactly if every call made is answered well. */
  lemma TryMeans(vm: Instance, a: Answers)
    ensures var calls := TryCalls(vm, a);
      var needsReset := vm.busy || vm.state == RESIZED || vm.state == ELSEWHERE;
      var moved := Ready(vm, a) && a.evacuate && a.moved == Confirmed;
      var stopped := moved && ToStop(vm, a) && a.stop && a.stopped == Confirmed;
      && (Evacuate in calls <==> Ready(vm, a))
      && (AwaitMove in calls <==> Ready(vm, a) && a.evacuate)
      && (StopServer in calls <==> moved && ToStop(vm, a))
      && (AwaitStop in calls <==> moved && ToStop(vm, a) && a.stop)
      && Count(calls, ResetState) == (if needsReset then 1 else 0) + (if stopped && BackToError(vm, a) then 1 else 0)
      && (needsReset ==> calls[0] == ResetState)
      && (Recovered(vm, a) <==> moved && (ToStop(vm, a) ==> stopped && (BackToError(vm, a) ==> a.resetBack)))
      && TouchesNoLock(calls) && Record !in calls
  {
    StopMeans(vm, a);
    EvacuateMeans(vm, a);
    hide EvacuateCalls, Recovered, MustStop, StateToRestore, ToStop, BackToError;
  }

  lemma EvacuateMeans(vm: Instance, a: Answers)
    ensures var calls := EvacuateCalls(vm, a);
      var toStop := a.evacuate && a.moved == Confirmed && MustStop(vm, a);
      && Evacuate in calls && (AwaitMove in calls <==> a.evacuate)
      && (StopServer in calls <==> toStop) && (AwaitStop in calls <==> toStop && a.stop)
      && Count(calls, ResetState) ==
           (if toStop && a.stop && a.stopped == Confirmed && StateToRestore(vm, a) == ERROR then 1 else 0)
      && TouchesNoLock(calls) && Record !in calls
  {
    StopMeans(vm, a);
    hide StopCalls, MustStop, StateToRestore;
  }

  lemma StopMeans(vm: Instance, a: Answers)
    ensures MustStop(vm, a) == ToStop(vm, a) && (ToStop(vm, a) ==> (StateToRestore(vm, a) == ERROR <==> BackToError(vm, a)))
    ensures var calls := StopCalls(vm, a);
      && StopServer in calls && (AwaitStop in calls <==> a.stop)
      && Evacuate !in calls && AwaitMove !in calls && Record !in calls && TouchesNoLock(calls)
      && Count(calls, ResetState) == if a.stop && a.stopped == Confirmed && StateToRestore(vm, a) == ERROR then 1 else 0
    ensures Recovered(vm, a) <==>
              Ready(vm, a) && a.evacuate && a.moved == Confirmed &&
              (MustStop(vm, a) ==> a.stop && a.stopped == Confirmed && (StateToRestore(vm, a) == ERROR ==> a.resetBack))
  {
  }

  /** So for the whole worker, by the state the instance was listed in. It locks and unlocks the instance
      exactly if its user has not. It has it evacuated exactly if it was active, in error or stopped,
      without a task, or has been reset and fetched again. Once the move is confirmed, it has it stopped:
      always if it was stopped or in error; never if it was active; if it was resized, exactly if it was
      shut down and is not active now; in any other state, exactly if it is not active now. It records it
      as failed exactly if the move was not confirmed, or the stop, or the return to error, after it. */
  lemma ScriptMeans(vm: Instance, a: Answers, userLocked: bool)
    ensures var calls := Script(vm, a, userLocked);
      var ready := ((vm.state == ACTIVE || vm.state == ERROR || vm.state == STOPPED) && !vm.busy) || (a.reset && a.fetch);
      var moved := ready && a.evacuate && a.moved == Confirmed;
      var error := vm.state == ERROR || ((vm.state == RESIZED || vm.state == ELSEWHERE) && a.newState == ERROR);
      && (LockServer in calls <==> !userLocked) && (UnlockServer in calls <==> !userLocked)
      && (Evacuate in calls <==> ready)
      && (vm.state == STOPPED || vm.state == ERROR ==> (StopServer in calls <==> moved))
      && (vm.state == ACTIVE ==> StopServer !in calls)
      && (vm.state == RESIZED ==> (StopServer in calls <==> moved && a.shutdown && a.newState != ACTIVE))
      && (vm.state == ELSEWHERE ==> (StopServer in calls <==> moved && a.newState != ACTIVE))
      && (AwaitStop in calls <==> StopServer in calls && a.stop)
      && Count(calls, ResetState) ==
           (if vm.busy || vm.state == RESIZED || vm.state == ELSEWHERE then 1 else 0) +
           (if AwaitStop in calls && a.stopped == Confirmed && error then 1 else 0)
      && (Record in calls <==>
            !moved ||
            (StopServer in calls && (!a.stop || a.stopped != Confirmed || (error && !a.resetBack))))
  {
    TryMeans(vm, a);
    ScriptOfTry(vm, a, userLocked);
    hide TryCalls, Script, Recovered;
  }

  lemma ScriptOfTry(vm: Instance, a: Answers, userLocked: bool)
    ensures var calls, inTry := Script(vm, a, userLocked), TryCalls(vm, a);
      && (LockServer in calls <==> !userLocked || LockServer in inTry)
      && (UnlockServer in calls <==> !userLocked || UnlockServer in inTry)
      && (Evacuate in calls <==> Evacuate in inTry) && (StopServer in calls <==> StopServer in inTry)
      && (AwaitStop in calls <==> AwaitStop in inTry) && Count(calls, ResetState) == Count(inTry, ResetState)
      && (Record in calls <==> Record in inTry || !Recovered(vm, a))
  {
    hide TryCalls, Recovered;
  }

  // ----- Calls of all workers -----

  /** The calls, among those of all workers, that were made for one instance. */
  function CallsOf(log: seq<(nat, Call)>, id: nat): seq<Call>
  {
    if log == [] then []
    else
      var rest := CallsOf(log[..|log| - 1], id);
      if log[|log| - 1].0 == id then rest + [log[|log| - 1].1] else rest
  }

  ghost predicate DistinctIds(list: seq<Instance>)
  {
    forall i, j | 0 <= i < j < |list| :: list[i].id != list[j].id
  }

  lemma CallsOfGrows(log: seq<(nat, Call)>, id: nat, call: Call, other: nat)
    ensures CallsOf(log + [(id, call)], other) == if id == other then CallsOf(log, other) + [call] else CallsOf(log, other)
  {
    assert (log + [(id, call)])[..|log|] == log;
  }

  lemma LockAfterGrows(calls: seq<Call>, call: Call, locked: bool)
    ensures LockAfter(calls + [call], locked) ==
            if call == LockServer then true else if call == UnlockServer then false else LockAfter(calls, locked)
  {
    assert (calls + [call])[..|calls|] == calls;
  }

  /** The effects of a script's first done calls: the calls made, the lock, and whether the instance
      has been recorded. */
  predicate Executed(script: seq<Call>, done: nat, calls: seq<Call>, was: bool, locked: bool, recorded: bool)
  {
    && done <= |script|
    && calls == script[..done]
    && locked == LockAfter(script[..done], was)
    && (recorded <==> Record in script[..done])
  }

  lemma ExecutedGrows(script: seq<Call>, done: nat, calls: seq<Call>, was: bool, locked: bool, recorded: bool)
    requires done < |script| && Executed(script, done, calls, was, locked, recorded)
    ensures var call := script[done];
            Executed(script, done + 1, calls + [call], was,
                     if call == LockServer then true else if call == UnlockServer then false else locked,
                     recorded || call == Record)
  {
    assert script[..done + 1] == script[..done] + [script[done]];
    LockAfterGrows(script[..done], script[done], was);
  }

  /** A failure list names instances of the list, none twice. */
  ghost predicate FailedOk(list: seq<Instance>, failed: seq<nat>)
  {
    && (forall k, l | 0 <= k < l < |failed| :: failed[k] != failed[l])
    && (forall id | id in failed :: exists i | 0 <= i < |list| :: list[i].id == id)
  }

  lemma FailedGrows(list: seq<Instance>, failed: seq<nat>, i: nat)
    requires FailedOk(list, failed) && i < |list| && list[i].id !in failed
    ensures FailedOk(list, failed + [list[i].id])
  {
  }

  /** Instances outside the list keep their locks. */
  ghost predicate OthersOk(list: seq<Instance>, locked: map<nat, bool>, was: map<nat, bool>)
  {
    && locked.Keys == was.Keys
    && forall id | id in was && forall i | 0 <= i < |list| :: list[i].id != id :: locked[id] == was[id]
  }

  lemma OthersKept(list: seq<Instance>, locked: map<nat, bool>, was: map<nat, bool>, i: nat, to: bool)
    requires OthersOk(list, locked, was) && i < |list| && list[i].id in was
    ensures OthersOk(list, locked[list[i].id := to], was)
  {
  }

  lemma NotRecorded(script: seq<Call>, done: nat, calls: seq<Call>, was: bool, locked: bool, recorded: bool)
    requires Executed(script, done, calls, was, locked, recorded) && Record !in script[..done]
    ensures !recorded
  {
  }

  /** Record occurs only once in a script. */
  lemma RecordOnce(vm: Instance, a: Answers, userLocked: bool, k: nat)
    requires k < |Script(vm, a, userLocked)| && Script(vm, a, userLocked)[k] == Record
    ensures Record !in Script(vm, a, userLocked)[..k]
  {
    hide Script;
    ScriptRecords(vm, a, userLocked);
    var calls := Script(vm, a, userLocked);
    assert calls == calls[..k] + calls[k..];
  }

  /** The calls left to the workers of the first n instances. */
  ghost function Left(scripts: seq<seq<Call>>, position: seq<nat>, n: nat): int
    requires n <= |scripts| == |position|
  {
    if n == 0 then 0 else Left(scripts, position, n - 1) + |scripts[n - 1]| - position[n - 1]
  }

  lemma {:induction false} LeftAfterCall(scripts: seq<seq<Call>>, position: seq<nat>, n: nat, i: nat)
    requires i < |scripts| && n <= |scripts| == |position|
    ensures Left(scripts, position[i := position[i] + 1], n) == Left(scripts, position, n) - if i < n then 1 else 0
  {
    if n == 0 {
    } else {
      LeftAfterCall(scripts, position, n - 1, i);
    }
  }

  lemma {:induction false} LeftNatural(scripts: seq<seq<Call>>, position: seq<nat>, n: nat)
    requires n <= |scripts| == |position| && forall i | 0 <= i < |position| :: position[i] <= |scripts[i]|
    ensures Left(scripts, position, n) >= 0
  {
    if n == 0 {
    } else {
      LeftNatural(scripts, position, n - 1);
    }
  }

  /** The calls of one worker as they appear among those of all. */
  function Tagged(id: nat, calls: seq<Call>): seq<(nat, Call)>
  {
    seq(|calls|, k requires 0 <= k < |calls| => (id, calls[k]))
  }

  lemma TaggedTry(vm: Instance, a: Answers)
    ensures Tagged(vm.id, TryCalls(vm, a)) ==
            Tagged(vm.id, if Evacuable(vm) then [] else if !a.reset then [ResetState] else [ResetState, GetServer]) +
            if !Evacuable(vm) && !(a.reset && a.fetch) then []
            else if !a.evacuate then [(vm.id, Evacuate)]
            else [(vm.id, Evacuate), (vm.id, AwaitMove)] +
                 if a.moved == Confirmed && MustStop(vm, a) then Tagged(vm.id, StopCalls(vm, a)) else []
  {
    hide StopCalls, MustStop, Evacuable;
  }

  lemma TaggedScript(vm: Instance, a: Answers, userLocked: bool)
    ensures Tagged(vm.id, Script(vm, a, userLocked)) ==
            [(vm.id, GetServer)] + (if userLocked then [] else [(vm.id, LockServer)]) + Tagged(vm.id, TryCalls(vm, a)) +
            (if Recovered(vm, a) then [] else [(vm.id, Record)]) + if userLocked then [] else [(vm.id, UnlockServer)]
  {
    hide TryCalls, Recovered;
  }

  /** The evacuation task. locked is the lock of each instance in nova, log all calls made to nova.
      In the pool, the worker of instance i makes the calls of scripts[i], has made position[i] of
      them, and is in running until it is done; userLocked holds the locks before the evacuation. */
  class EvacuateInstancesTask {
    var failed: seq<nat>             // failed_evacuation_instances
    var locked: map<nat, bool>
    var log: seq<(nat, Call)>

    const list: seq<Instance>
    const answers: seq<Answers>
    const threads: nat
    const userLocked: map<nat, bool>
    const scripts: seq<seq<Call>>
    var position: seq<nat>
    var running: set<nat>

    constructor (list: seq<Instance>, answers: seq<Answers>, threads: nat, locked: map<nat, bool>)
      requires DistinctIds(list) && |answers| == |list| && threads >= 1
      requires forall i | 0 <= i < |list| :: list[i].id in locked
      ensures this.list == list && this.answers == answers && this.threads == threads && userLocked == locked
      ensures PoolOk(0) && running == {} && log == []
    {
      this.list, this.answers, this.threads, this.locked, userLocked := list, answers, threads, locked, locked;
      failed, log, running := [], [], {};
      scripts := seq(|list|, i requires 0 <= i < |list| => Script(list[i], answers[i], locked[list[i].id]));
      position := seq(|list|, i => 0);
    }

    method Perform(id: nat, call: Call)
      modifies this
      ensures log == old(log) + [(id, call)]
      ensures failed == if call == Record then old(failed) + [id] else old(failed)
      ensures position == old(position) && running == old(running)
      ensures locked == (if call == LockServer then old(locked)[id := true]
                         else if call == UnlockServer then old(locked)[id := false] else old(locked))
    {
      log := log + [(id, call)];
      match call {
        case LockServer => locked := locked[id := true];
        case UnlockServer => locked := locked[id := false];
        case Record => failed := failed + [id];
        case _ =>
      }
    }

    /** The part of the try block before the evacuation: the state to restore and whether to stop the
        instance afterwards, unless resetting or fetching it fails. */
    method ResetIfNeeded(vm: Instance, a: Answers) returns (failing: bool, state: VmState, stopInstance: bool)
      modifies this
      ensures failing <==> !Evacuable(vm) && !(a.reset && a.fetch)
      ensures !failing ==> state == StateToRestore(vm, a) && (state != ACTIVE && stopInstance <==> MustStop(vm, a))
      ensures log == old(log) + Tagged(vm.id, if Evacuable(vm) then [] else if !a.reset then [ResetState]
                                              else [ResetState, GetServer])
      ensures locked == old(locked) && failed == old(failed)
    {
      failing, state, stopInstance := false, vm.state, true;
      if state == RESIZED || state == ELSEWHERE {
        Perform(vm.id, ResetState);
        if !a.reset { failing := true; return; }
        Perform(vm.id, GetServer);
        if !a.fetch { failing := true; return; }
        if state == RESIZED && !a.shutdown { stopInstance := false; }
        state := a.newState;
      } else if vm.busy {
        Perform(vm.id, ResetState);
        if !a.reset { failing := true; return; }
        Perform(vm.id, GetServer);
        if !a.fetch { failing := true; return; }
        if state == ACTIVE { stopInstance := false; }
      }
    }

    /** _stop_after_evacuation, and the return to the error state. */
    method StopAfterEvacuation(vm: Instance, a: Answers, state: VmState) returns (failing: bool)
      requires state == StateToRestore(vm, a)
      modifies this
      ensures failing <==> !(a.stop && a.stopped == Confirmed && (StateToRestore(vm, a) == ERROR ==> a.resetBack))
      ensures log == old(log) + Tagged(vm.id, StopCalls(vm, a))
      ensures locked == old(locked) && failed == old(failed)
    {
      Perform(vm.id, StopServer);
      if !a.stop { return true; }
      Perform(vm.id, AwaitStop);
      if a.stopped != Confirmed { return true; }
      if state == ERROR {
        Perform(vm.id, ResetState);
        if !a.resetBack { return true; }
      }
      failing := false;
    }

    /** The try block of _evacuate_and_confirm; whether it ended with an exception or a timeout. */
    method TryEvacuate(vm: Instance, a: Answers) returns (failing: bool)
      modifies this
      ensures failing <==> !Recovered(vm, a)
      ensures log == old(log) + Tagged(vm.id, TryCalls(vm, a))
      ensures locked == old(locked) && failed == old(failed)
    {
      hide Tagged, TryCalls, StopCalls;
      TaggedTry(vm, a);
      var state, stopInstance;
      failing, state, stopInstance := ResetIfNeeded(vm, a);
      if failing { return; }
      Perform(vm.id, Evacuate);
      if !a.evacuate { return true; }
      Perform(vm.id, AwaitMove);
      if a.moved != Confirmed { return true; }
      if state != ACTIVE && stopInstance {
        failing := StopAfterEvacuation(vm, a, state);
      }
    }

    /** _evacuate_and_confirm, run on its own: the calls of its script, in order. */
    method EvacuateAndConfirm(vm: Instance, a: Answers)
      requires vm.id in locked
      modifies this
      ensures log == old(log) + Tagged(vm.id, Script(vm, a, old(locked)[vm.id]))
      ensures failed == if Recovered(vm, a) then old(failed) else old(failed) + [vm.id]
      ensures locked == old(locked)
    {
      hide TryCalls, Recovered, Tagged;
      Perform(vm.id, GetServer);
      var alreadyLocked := locked[vm.id];
      if !alreadyLocked { Perform(vm.id, LockServer); }
      var failing := TryEvacuate(vm, a);
      if failing { Perform(vm.id, Record); }
      if !alreadyLocked { Perform(vm.id, UnlockServer); }
      TaggedScript(vm, a, alreadyLocked);
    }

    // ----- The pool of workers -----

    /** The effects so far of the worker of instance i. */
    ghost predicate WorkerOk(i: nat)
      requires i < |list| && i < |scripts| && i < |position| && i < |answers|
      reads `position, `log, `locked, `failed
    {
      var id, done := list[i].id, position[i];
      && id in locked && id in userLocked
      && scripts[i] == Script(list[i], answers[i], userLocked[id])
      && Executed(scripts[i], done, CallsOf(log, id), userLocked[id], locked[id], id in failed)
    }

    /** The workers of the first spawned instances have been started. */
    ghost predicate PoolOk(spawned: nat)
      reads this
    {
      && DistinctIds(list) && |answers| == |list| == |scripts| == |position| && threads >= 1 && spawned <= |list|
      && (forall i | 0 <= i < |list| :: WorkerOk(i))
      && (forall i :: i in running <==> 0 <= i < spawned && position[i] < |scripts[i]|)
      && (forall i | spawned <= i < |list| :: position[i] == 0)
      && |running| <= threads
      && FailedOk(list, failed) && OthersOk(list, locked, userLocked)
    }

    /** The worker of instance i makes its next call. */
    method MakeCall(i: nat)
      requires DistinctIds(list) && |answers| == |list| == |scripts| == |position|
      requires (forall j | 0 <= j < |list| :: WorkerOk(j)) && FailedOk(list, failed) && OthersOk(list, locked, userLocked)
      requires i < |list| && position[i] < |scripts[i]|
      modifies this
      ensures position == old(position)[i := old(position)[i] + 1] && running == old(running)
      ensures (forall j | 0 <= j < |list| :: WorkerOk(j)) && FailedOk(list, failed) && OthersOk(list, locked, userLocked)
    {
      hide Script, CallsOf, Executed, FailedOk, OthersOk;
      var id, call := list[i].id, scripts[i][position[i]];
      assert WorkerOk(i);
      if call == Record {
        RecordOnce(list[i], answers[i], userLocked[id], position[i]);
        NotRecorded(scripts[i], position[i], CallsOf(log, id), userLocked[id], locked[id], id in failed);
      }
      if call == Record { FailedGrows(list, failed, i); }
      OthersKept(list, locked, userLocked, i, call == LockServer);
      ExecutedGrows(scripts[i], position[i], CallsOf(log, id), userLocked[id], locked[id], id in failed);
      forall j | 0 <= j < |list| { CallsOfGrows(log, id, call, list[j].id); }
      Perform(id, call);
      position := position[i := position[i] + 1];
      forall j | 0 <= j < |list| ensures WorkerOk(j) {
        assert old(WorkerOk(j));
      }
    }

    /** A running worker makes its next call. */
    method Advance(i: nat, ghost spawned: nat)
      requires PoolOk(spawned) && i in running
      modifies this
      ensures PoolOk(spawned) && running <= old(running)
      ensures Left(scripts, position, |scripts|) < Left(scripts, old(position), |scripts|)
    {
      hide Left, WorkerOk, FailedOk, OthersOk;
      MakeCall(i) by { assert WorkerOk(i); }
      LeftAfterCall(scripts, old(position), |scripts|, i);
      if position[i] == |scripts[i]| { running := running - {i}; }
    }

    /** Any running worker makes the next call: the scheduler's choice. */
    method AdvanceAny(ghost spawned: nat)
      requires PoolOk(spawned) && running != {}
      modifies this
      ensures PoolOk(spawned) && running <= old(running)
      ensures Left(scripts, position, |scripts|) < Left(scripts, old(position), |scripts|)
    {
      hide PoolOk;
      var i :| i in running;
      Advance(i, spawned);
    }

    /** spawn_n: waits for a free thread and starts the worker of the next instance; before that, the
        running workers may make any number of calls. */
    method Spawn(i: nat)
      requires PoolOk(i) && i < |list|
      modifies this
      ensures PoolOk(i + 1)
    {
      hide WorkerOk, FailedOk, OthersOk, Left, Script;
      var calls: nat := *;
      while running != {} && (calls > 0 || |running| >= threads)
        invariant PoolOk(i)
        decreases Left(scripts, position, |scripts|)
      {
        LeftOfPool(i);
        AdvanceAny(i);
        calls := if calls > 0 then calls - 1 else 0;
      }
      ScriptNotEmpty(i);
      running := running + {i};
    }

    lemma LeftOfPool(spawned: nat)
      requires PoolOk(spawned)
      ensures Left(scripts, position, |scripts|) >= 0
    {
      forall i | 0 <= i < |position| ensures position[i] <= |scripts[i]| { assert WorkerOk(i); }
      LeftNatural(scripts, position, |scripts|);
    }

    lemma ScriptNotEmpty(i: nat)
      requires PoolOk(i) && i < |list|
      ensures |scripts[i]| > 0
    {
      assert WorkerOk(i);
    }

    /** A worker that is done has made all its calls. */
    lemma WorkerDone(i: nat)
      requires PoolOk(|list|) && running == {} && i < |list|
      ensures list[i].id in userLocked
      ensures CallsOf(log, list[i].id) == Script(list[i], answers[i], userLocked[list[i].id])
      ensures list[i].id in failed <==> !Recovered(list[i], answers[i])
      ensures list[i].id in locked && locked[list[i].id] == userLocked[list[i].id]
    {
      hide CallsOf, Script, LockAfter, Recovered, FailedOk, OthersOk;
      assert WorkerOk(i);
      var was := userLocked[list[i].id];
      assert scripts[i][..position[i]] == scripts[i];
      ScriptRecords(list[i], answers[i], was);
      ScriptRestoresLock(list[i], answers[i], was);
    }

    lemma PoolDone()
      requires PoolOk(|list|) && running == {}
      ensures forall i | 0 <= i < |list| ::
                list[i].id in userLocked && CallsOf(log, list[i].id) == Script(list[i], answers[i], userLocked[list[i].id])
      ensures forall id :: id in failed <==> exists i | 0 <= i < |list| :: list[i].id == id && !Recovered(list[i], answers[i])
      ensures forall k, l | 0 <= k < l < |failed| :: failed[k] != failed[l]
      ensures locked == userLocked
    {
      hide CallsOf, Script, Recovered, Executed;
      forall i | 0 <= i < |list|
        ensures list[i].id in userLocked
        ensures CallsOf(log, list[i].id) == Script(list[i], answers[i], userLocked[list[i].id])
        ensures list[i].id in failed <==> !Recovered(list[i], answers[i])
        ensures list[i].id in locked && locked[list[i].id] == userLocked[list[i].id]
      {
        WorkerDone(i);
      }
    }

    /** The execution of the whole list, for every schedule of the workers: each instance is attempted
        exactly once, by its own script; the failure list names exactly the instances that were not
        Recovered, none twice; it fails if and only if there is one; and the user's lock on
        every instance ends as it began. */
    method Execute() returns (raised: bool)
      requires PoolOk(0)
      modifies this
      ensures forall i | 0 <= i < |list| ::
                list[i].id in userLocked && CallsOf(log, list[i].id) == Script(list[i], answers[i], userLocked[list[i].id])
      ensures forall id :: id in failed <==> exists i | 0 <= i < |list| :: list[i].id == id && !Recovered(list[i], answers[i])
      ensures forall k, l | 0 <= k < l < |failed| :: failed[k] != failed[l]
      ensures raised <==> exists i | 0 <= i < |list| :: !Recovered(list[i], answers[i])
      ensures locked == userLocked
    {
      hide WorkerOk, FailedOk, OthersOk, Left, Script, Recovered, CallsOf;
      for i := 0 to |list|
        invariant PoolOk(i)
      {
        Spawn(i);
      }
      while running != {}
        invariant PoolOk(|list|)
        decreases Left(scripts, position, |scripts|)
      {
        LeftOfPool(|list|);
        AdvanceAny(|list|);
      }
      PoolDone();
      raised := failed != [];
      assert raised ==> failed[0] in failed;
      forall i | 0 <= i < |list| && !Recovered(list[i], answers[i]) ensures raised { assert list[i].id in failed; }
    }
  }

  // ----- Which instances are evacuated -----

  /** An instance in error is left alone if those are to be ignored. */
  predicate Considered(vm: Instance, ignoreErrors: bool) { !(ignoreErrors && vm.state == ERROR) }

  /** The instances to consider that are, or are not, HA-enabled; in the order of the list. */
  function Select(list: seq<Instance>, ha: bool, ignoreErrors: bool): seq<Instance>
  {
    if list == [] then []
    else
      var rest, vm := Select(list[..|list| - 1], ha, ignoreErrors), list[|list| - 1];
      if vm.haEnabled == ha && Considered(vm, ignoreErrors) then rest + [vm] else rest
  }

  lemma {:induction false} SelectExactly(list: seq<Instance>, ha: bool, ignoreErrors: bool, vm: Instance)
    ensures multiset(Select(list, ha, ignoreErrors))[vm] ==
            if vm.haEnabled == ha && !(ignoreErrors && vm.state == ERROR) then multiset(list)[vm] else 0
  {
    if list == [] {
    } else {
      assert list == list[..|list| - 1] + [list[|list| - 1]];
      SelectExactly(list[..|list| - 1], ha, ignoreErrors, vm);
    }
  }

  /** The selection goes through the list in its order: an instance comes in when it is met. */
  lemma {:induction false} SelectInOrder(first: seq<Instance>, vm: Instance, rest: seq<Instance>, ha: bool,
                                          ignoreErrors: bool)
    ensures Select(first + [vm] + rest, ha, ignoreErrors) ==
            Select(first, ha, ignoreErrors) +
            (if vm.haEnabled == ha && !(ignoreErrors && vm.state == ERROR) then [vm] else []) +
            Select(rest, ha, ignoreErrors)
  {
    var list := first + [vm] + rest;
    if rest == [] {
      assert list[..|list| - 1] == first;
    } else {
      var n := |rest| - 1;
      assert list[..|list| - 1] == first + [vm] + rest[..n];
      SelectInOrder(first, vm, rest[..n], ha, ignoreErrors);
    }
  }

  /** _filter_instances: HA-enabled instances first, then the others if all are to be evacuated, each
      in the order of the list; an instance is chosen as often as it is listed or not at all. */
  method FilterInstances(list: seq<Instance>, ignoreErrors: bool, evacuateAll: bool) returns (chosen: seq<Instance>)
    ensures chosen == Select(list, true, ignoreErrors) + if evacuateAll then Select(list, false, ignoreErrors) else []
    ensures forall vm :: multiset(chosen)[vm] ==
              if (vm.haEnabled || evacuateAll) && !(ignoreErrors && vm.state == ERROR) then multiset(list)[vm] else 0
  {
    var ha, nonHa := [], [];
    for i := 0 to |list|
      invariant ha == Select(list[..i], true, ignoreErrors) && nonHa == Select(list[..i], false, ignoreErrors)
    {
      assert list[..i + 1][..i] == list[..i];
      var vm := list[i];
      if ignoreErrors && vm.state == ERROR { continue; }
      if vm.haEnabled { ha := ha + [vm]; } else { nonHa := nonHa + [vm]; }
    }
    assert list[..|list|] == list;
    chosen := ha + if evacuateAll then nonHa else [];
    forall vm ensures multiset(chosen)[vm] ==
        if (vm.haEnabled || evacuateAll) && Considered(vm, ignoreErrors) then multiset(list)[vm] else 0
    {
      SelectExactly(list, true, ignoreErrors, vm);
      SelectExactly(list, false, ignoreErrors, vm);
    }
  }
}
