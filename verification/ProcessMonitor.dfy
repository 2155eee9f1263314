/** The process monitor: rounds of finding processes that are down and restarting them, and the list
    of processes whose restart has failed, over any number of rounds. */
module ProcessMonitor {

  import opened Options

  /** hasPre, hasPost: the entry has a pre_restart_command, a post_restart_command. */
  datatype Process = Process(name: string, hasPre: bool, hasPost: bool)

  /** Whether the three commands of one restart attempt succeed. */
  datatype Attempt = Attempt(pre: bool, start: bool, post: bool)

  /** What ps gives for a process: its output, or an exception. */
  datatype Ps = Output(text: string) | Raised

  predicate Succeeds(p: Process, a: Attempt) { (p.hasPre ==> a.pre) && a.start && (p.hasPost ==> a.post) }

  /** The attempts reach the last retry: all those before it fail. */
  ghost predicate Exhausted(p: Process, attempts: nat -> Attempt, retries: nat)
  {
    forall r | 0 <= r < retries :: !Succeeds(p, attempts(r))
  }

  /** Some attempt that is made succeeds. */
  ghost predicate Restarted(p: Process, attempts: nat -> Attempt, retries: nat)
  {
    exists r | 0 <= r <= retries :: Succeeds(p, attempts(r))
  }

  /** Only the very last attempt succeeds. */
  ghost predicate RestartedLast(p: Process, attempts: nat -> Attempt, retries: nat)
  {
    (forall r | 0 <= r < retries :: !Succeeds(p, attempts(r))) && Succeeds(p, attempts(retries))
  }

  predicate Contains(text: string, name: string)
  {
    exists i | 0 <= i <= |text| - |name| :: text[i..][..|name|] == name
  }

  /** The name is somewhere in the text, with anything before and after it. */
  lemma ContainsMeans(text: string, name: string)
    ensures Contains(text, name) <==> exists before, after :: text == before + name + after
  {
    if Contains(text, name) {
      var i :| 0 <= i <= |text| - |name| && text[i..][..|name|] == name;
      assert text == text[..i] + name + text[i + |name|..];
    }
    if before, after :| text == before + name + after {
      assert text[|before|..][..|name|] == name;
    }
  }

  // ----- Rounds -----

  /** One round: the names found down, in order, and those of them whose attempts, if they are made,
      reach the last retry. */
  datatype Round = Round(down: seq<string>, exhausted: set<string>)

  /** The names on a list that are on another list or in a set, in order. */
  function Kept(names: seq<string>, on: seq<string>, also: set<string>): (r: seq<string>)
    ensures forall n :: n in r <==> n in names && (n in on || n in also)
  {
    if names == [] then []
    else
      var rest, n := Kept(names[..|names| - 1], on, also), names[|names| - 1];
      if n in on || n in also then rest + [n] else rest
  }

  /** The names on a list that are in a set but not on another list, in order. */
  function New(names: seq<string>, on: seq<string>, also: set<string>): (r: seq<string>)
    ensures forall n :: n in r <==> n in names && n !in on && n in also
  {
    if names == [] then []
    else
      var rest, n := New(names[..|names| - 1], on, also), names[|names| - 1];
      if n !in on && n in also then rest + [n] else rest
  }

  /** No name comes in more often than it is down. */
  lemma {:induction false} Counts(names: seq<string>, on: seq<string>, also: set<string>, n: string)
    ensures multiset(New(names, on, also))[n] == if n !in on && n in also then multiset(names)[n] else 0
    ensures multiset(Kept(names, on, also))[n] == if n in on || n in also then multiset(names)[n] else 0
  {
    if names == [] {
    } else {
      assert names == names[..|names| - 1] + [names[|names| - 1]];
      Counts(names[..|names| - 1], on, also, n);
    }
  }

  lemma NoNames(on: seq<string>, also: set<string>)
    ensures Kept([], on, also) == [] && New([], on, also) == []
  {
  }

  lemma OneMoreName(names: seq<string>, i: nat, on: seq<string>, also: set<string>)
    requires i < |names|
    ensures Kept(names[..i + 1], on, also) ==
            if names[i] in on || names[i] in also then Kept(names[..i], on, also) + [names[i]] else Kept(names[..i], on, also)
    ensures New(names[..i + 1], on, also) ==
            if names[i] !in on && names[i] in also then New(names[..i], on, also) + [names[i]] else New(names[..i], on, also)
  {
    assert names[..i + 1][..i] == names[..i];
  }

  /** The failure list after some rounds. */
  function FailureList(rounds: seq<Round>): seq<string>
  {
    if rounds == [] then []
    else
      var last := rounds[|rounds| - 1];
      Kept(last.down, FailureList(rounds[..|rounds| - 1]), last.exhausted)
  }

  /** The notifications sent in round k. */
  function Notified(rounds: seq<Round>, k: nat): seq<string>
    requires k < |rounds|
  {
    New(rounds[k].down, FailureList(rounds[..k]), rounds[k].exhausted)
  }

  /** The process has been down in every round from k on, and its attempts were used up in round k. */
  predicate DownSince(rounds: seq<Round>, name: string, k: nat)
    requires k < |rounds|
  {
    name in rounds[k].exhausted && forall l | k <= l < |rounds| :: name in rounds[l].down
  }

  /** A process is on the failure list if and only if it has been down without a break since a round
      that used up its attempts. */
  lemma {:induction false} ListedIffDownSince(rounds: seq<Round>, name: string)
    ensures name in FailureList(rounds) <==> exists k | 0 <= k < |rounds| :: DownSince(rounds, name, k)
  {
    if rounds == [] {
    } else {
      var n := |rounds| - 1;
      var before := rounds[..n];
      ListedIffDownSince(before, name);
      if k :| 0 <= k < n && DownSince(before, name, k) && name in rounds[n].down {
        forall l | k <= l < |rounds| ensures name in rounds[l].down { assert l < n ==> before[l] == rounds[l]; }
        assert DownSince(rounds, name, k);
      }
      if name in rounds[n].exhausted && name in rounds[n].down { assert DownSince(rounds, name, n); }
      if k :| 0 <= k < |rounds| && DownSince(rounds, name, k) {
        assert k < n ==> DownSince(before, name, k);
      }
    }
  }

  /** Between two notifications for a process lies a round in which it was not listed as down. */
  lemma NotificationsAreSeparated(rounds: seq<Round>, name: string, i: nat, j: nat)
    requires i < j < |rounds| && name in Notified(rounds, i) && name in Notified(rounds, j)
    ensures exists k | i < k < j :: name !in rounds[k].down
  {
    assert (forall k | i < k < j :: name in rounds[k].down) ==> DownSince(rounds[..j], name, i);
    ListedIffDownSince(rounds[..j], name);
  }

  /** A process is notified exactly in the rounds that use up its attempts while it has not been down
      without a break since an earlier such round. */
  lemma NotifiedIff(rounds: seq<Round>, name: string, j: nat)
    requires j < |rounds|
    ensures name in Notified(rounds, j) <==>
              name in rounds[j].down && name in rounds[j].exhausted &&
              !exists k | 0 <= k < j :: DownSince(rounds[..j], name, k)
  {
    ListedIffDownSince(rounds[..j], name);
  }

  // ----- The handler -----

  function Names(ps: seq<Process>): seq<string> { seq(|ps|, i requires 0 <= i < |ps| => ps[i].name) }

  /** The names of processes whose attempts reach the last retry; attempts is indexed by the position
      in the list of down processes and the retry. */
  ghost function ExhaustedNames(ps: seq<Process>, attempts: nat -> nat -> Attempt, retries: nat): set<string>
  {
    set i: nat | i < |ps| && Exhausted(ps[i], attempts(i), retries) :: ps[i].name
  }

  ghost predicate DistinctNames(ps: seq<Process>) { forall i, j | 0 <= i < j < |ps| :: ps[i].name != ps[j].name }

  /** The processes that ps does not show, in order; one whose ps raises counts as found. */
  function Down(list: seq<Process>, ps: nat -> Ps): (r: seq<Process>)
    ensures forall p :: p in r <==> exists i | 0 <= i < |list| ::
              list[i] == p && ps(i).Output? && !Contains(ps(i).text, p.name)
  {
    if list == [] then []
    else
      var n := |list| - 1;
      var rest := Down(list[..n], ps);
      if ps(n).Output? && !Contains(ps(n).text, list[n].name) then rest + [list[n]] else rest
  }

  lemma {:induction false} DownIsDistinct(list: seq<Process>, ps: nat -> Ps)
    requires DistinctNames(list)
    ensures DistinctNames(Down(list, ps))
  {
    if list == [] {
    } else {
      DownIsDistinct(list[..|list| - 1], ps);
    }
  }

  class HandleProcess {
    var processList: seq<Process>
    var restartFailureList: seq<string>
    var sent: seq<string>                 // names notified, in order

    constructor ()
      ensures processList == [] && restartFailureList == [] && sent == []
    {
      processList, restartFailureList, sent := [], [], [];
    }

    /** monitor_processes. */
    method MonitorProcesses(ps: nat -> Ps) returns (down: seq<Process>)
      requires DistinctNames(processList)
      ensures down == Down(processList, ps) && DistinctNames(down)
    {
      down := [];
      for i := 0 to |processList|
        invariant down == Down(processList[..i], ps)
      {
        assert processList[..i + 1][..i] == processList[..i];
        var p := processList[i];
        match ps(i) {
          case Output(text) => if !Contains(text, p.name) { down := down + [p]; }
          case Raised =>
        }
      }
      assert processList[..|processList|] == processList;
      DownIsDistinct(processList, ps);
    }

    /** The retry loop: the last value of its variable, which is all that is looked at afterwards, and
        whether an attempt has succeeded, which is not. */
    method Retry(p: Process, attempts: nat -> Attempt, retries: nat) returns (last: nat, ghost up: bool)
      ensures last <= retries
      ensures last == retries <==> forall r | 0 <= r < retries ::
                var a := attempts(r); (p.hasPre && !a.pre) || !a.start || (p.hasPost && !a.post)
      ensures up <==> exists r | 0 <= r <= retries ::
                var a := attempts(r); (p.hasPre ==> a.pre) && a.start && (p.hasPost ==> a.post)
      ensures last == retries <==> Exhausted(p, attempts, retries)
      ensures up <==> Restarted(p, attempts, retries)
      ensures last == retries && up <==> RestartedLast(p, attempts, retries)
    {
      last, up := 0, false;
      for r := 0 to retries + 1
        invariant r > 0 ==> last == r - 1
        invariant !up && forall k | 0 <= k < r :: !Succeeds(p, attempts(k))
      {
        last := r;
        var a := attempts(r);
        if p.hasPre && !a.pre { continue; }
        if !a.start { continue; }
        if p.hasPost && !a.post { continue; }
        up := true;
        break;
      }
    }

    /** restart_processes: the processes notified, and the new failure list. */
    method RestartProcesses(down: seq<Process>, attempts: nat -> nat -> Attempt, retries: nat)
      requires DistinctNames(down)
      modifies `restartFailureList, `sent
      ensures restartFailureList == Kept(Names(down), old(restartFailureList), ExhaustedNames(down, attempts, retries))
      ensures sent == old(sent) + New(Names(down), old(restartFailureList), ExhaustedNames(down, attempts, retries))
    {
      hide ExhaustedNames, Exhausted, Kept, New;
      ghost var exhausted := ExhaustedNames(down, attempts, retries);
      NoNames(restartFailureList, exhausted);
      var tmp: seq<string> := [];
      for i := 0 to |down|
        invariant restartFailureList == old(restartFailureList)
        invariant tmp == Kept(Names(down)[..i], restartFailureList, exhausted)
        invariant sent == old(sent) + New(Names(down)[..i], restartFailureList, exhausted)
      {
        var p := down[i];
        OneMoreName(Names(down), i, restartFailureList, exhausted);
        if p.name in restartFailureList {
          tmp := tmp + [p.name];
          continue;
        }
        var last, up := Retry(p, attempts(i), retries);
        ExhaustedName(down, attempts, retries, i);
        if last == retries {
          assert sent + [p.name] == old(sent) + (New(Names(down)[..i], restartFailureList, exhausted) + [p.name]);
          sent := sent + [p.name];
          tmp := tmp + [p.name];
        }
      }
      assert Names(down)[..|down|] == Names(down);
      restartFailureList := tmp;
    }
  }

  lemma ExhaustedName(ps: seq<Process>, attempts: nat -> nat -> Attempt, retries: nat, i: nat)
    requires DistinctNames(ps) && i < |ps|
    ensures ps[i].name in ExhaustedNames(ps, attempts, retries) <==> Exhausted(ps[i], attempts(i), retries)
  {
  }

  // ----- The loop over rounds -----

  /** What one round meets: ps for each process, the restart attempts, and the reloaded process list. */
  datatype Input = Input(ps: nat -> Ps, attempts: nat -> nat -> Attempt, reloaded: Option<seq<Process>>)

  /** The round that the handler makes with a process list and an input. */
  ghost function RoundOf(list: seq<Process>, input: Input, retries: nat): Round
  {
    var down := Down(list, input.ps);
    Round(Names(down), ExhaustedNames(down, input.attempts, retries))
  }

  /** The rounds of a run: each uses the list that was reloaded last; a failed reload ends them. */
  ghost function RoundsOf(list: seq<Process>, inputs: seq<Input>, retries: nat): seq<Round>
    decreases |inputs|
  {
    if inputs == [] then []
    else [RoundOf(list, inputs[0], retries)] +
         if inputs[0].reloaded == None then [] else RoundsOf(inputs[0].reloaded.value, inputs[1..], retries)
  }

  /** Round k is made with the list that was reloaded before it, if all reloads so far have succeeded; the
      rounds end with the inputs, or after the first round whose reload fails. */
  lemma {:induction false} RoundAt(list: seq<Process>, inputs: seq<Input>, retries: nat, k: nat)
    requires k < |inputs| && forall l | 0 <= l < k :: inputs[l].reloaded.Some?
    ensures var rounds := RoundsOf(list, inputs, retries);
      && k < |rounds| <= |inputs|
      && rounds[k] == RoundOf(if k == 0 then list else inputs[k - 1].reloaded.value, inputs[k], retries)
      && (inputs[k].reloaded == None ==> |rounds| == k + 1)
    decreases k
  {
    hide RoundOf;
    RoundsAreNoMore(list, inputs, retries);
    if k == 0 {
    } else {
      RoundAt(inputs[0].reloaded.value, inputs[1..], retries, k - 1);
    }
  }

  lemma {:induction false} RoundsAreNoMore(list: seq<Process>, inputs: seq<Input>, retries: nat)
    ensures |RoundsOf(list, inputs, retries)| <= |inputs|
    decreases |inputs|
  {
    hide RoundOf;
    if inputs == [] || inputs[0].reloaded == None {
    } else {
      RoundsAreNoMore(inputs[0].reloaded.value, inputs[1..], retries);
    }
  }

  function AllNotified(rounds: seq<Round>): seq<string>
  {
    if rounds == [] then []
    else AllNotified(rounds[..|rounds| - 1]) + Notified(rounds, |rounds| - 1)
  }

  // ----- Restarted and notified -----

  /** What a round does about the i-th process it finds down: it is notified exactly if it is not on the
      failure list and all attempts before the last fail. So it is notified although it was restarted
      exactly if, besides, the last attempt succeeds; and "notified exactly if no attempt succeeds" is
      right for a process that is not on the list exactly if it is not restarted by its last attempt. */
  lemma NotifiedAlthoughRestarted(before: seq<Round>, list: seq<Process>, input: Input, retries: nat, i: nat)
    requires DistinctNames(list) && i < |Down(list, input.ps)|
    ensures var rounds, p, attempts := before + [RoundOf(list, input, retries)], Down(list, input.ps)[i], input.attempts(i);
      var notified, listed := p.name in Notified(rounds, |before|), p.name in FailureList(before);
      && (notified <==> !listed && Exhausted(p, attempts, retries))
      && (notified && Restarted(p, attempts, retries) <==> !listed && RestartedLast(p, attempts, retries))
      && ((notified <==> !listed && !Restarted(p, attempts, retries)) <==> listed || !RestartedLast(p, attempts, retries))
  {
    hide Exhausted, Restarted, RestartedLast;
    var down := Down(list, input.ps);
    DownIsDistinct(list, input.ps);
    ExhaustedName(down, input.attempts, retries, i);
    var rounds := before + [RoundOf(list, input, retries)];
    assert rounds[..|before|] == before && rounds[|before|] == RoundOf(list, input, retries);
    assert Names(down)[i] == down[i].name;
    LastAttempt(down[i], input.attempts(i), retries);
  }

  lemma LastAttempt(p: Process, attempts: nat -> Attempt, retries: nat)
    ensures Exhausted(p, attempts, retries) && Restarted(p, attempts, retries) <==> RestartedLast(p, attempts, retries)
    ensures !Restarted(p, attempts, retries) ==> Exhausted(p, attempts, retries)
  {
  }

  /** For instance: one process, one permitted attempt, which restarts it; it is notified, and kept from
      any further restart while it is down. */
  lemma RestartedYetNotified() returns (p: Process, input: Input)
    ensures Down([p], input.ps) == [p] && Restarted(p, input.attempts(0), 0)
    ensures var rounds := [RoundOf([p], input, 0)]; p.name in Notified(rounds, 0) && p.name in FailureList(rounds)
  {
    p := Process("nova-compute", false, false);
    input := Input(i => Output(""), i => r => Attempt(true, true, true), None);
    assert [p][..0] == [] && Down([], input.ps) == [];
    assert !Contains("", p.name);
    NotifiedAlthoughRestarted([], [p], input, 0, 0);
    assert Succeeds(p, input.attempts(0)(0));
    var rounds := [RoundOf([p], input, 0)];
    assert [] + rounds == rounds;
    assert rounds[..0] == [] && FailureList([]) == [];
  }

  class ProcessmonitorManager {
    const handler: HandleProcess
    ghost var history: seq<Round>

    constructor ()
      ensures fresh(handler) && history == [] && handler.restartFailureList == [] && handler.sent == []
    {
      handler := new HandleProcess();
      history := [];
    }

    /** The failure list and the notifications are those of the rounds so far. */
    ghost predicate Valid()
      reads this, handler
    {
      && DistinctNames(handler.processList)
      && handler.restartFailureList == FailureList(history)
      && handler.sent == AllNotified(history)
    }

    /** One iteration of the loop, up to the reload; with nothing down, the list is emptied in place. */
    method DoRound(input: Input, retries: nat)
      requires Valid()
      modifies this, handler
      ensures Valid() && history == old(history) + [RoundOf(old(handler.processList), input, retries)]
      ensures handler.processList == old(handler.processList)
    {
      var down := handler.MonitorProcesses(input.ps);
      ghost var round := RoundOf(handler.processList, input, retries);
      assert (history + [round])[..|history|] == history;
      if |down| != 0 {
        handler.RestartProcesses(down, input.attempts, retries);
      } else {
        handler.restartFailureList := [];
      }
      history := history + [round];
    }

    /** main, for as many rounds as there are inputs; it ends early if a reload fails. */
    method RunMonitor(loaded: Option<seq<Process>>, inputs: seq<Input>, retries: nat)
      requires history == [] && handler.restartFailureList == [] && handler.sent == []
      requires loaded.Some? ==> DistinctNames(loaded.value)
      requires forall i | 0 <= i < |inputs| :: inputs[i].reloaded.Some? ==> DistinctNames(inputs[i].reloaded.value)
      modifies this, handler
      ensures history == if loaded == None then [] else RoundsOf(loaded.value, inputs, retries)
      ensures handler.restartFailureList == FailureList(history) && handler.sent == AllNotified(history)
    {
      hide RoundOf, RoundsOf, FailureList, AllNotified;
      NoRounds();
      if loaded == None { return; }
      handler.processList := loaded.value;
      assert inputs[0..] == inputs && history == [];
      for i := 0 to |inputs|
        invariant Valid()
        invariant RoundsOf(loaded.value, inputs, retries) == history + RoundsOf(handler.processList, inputs[i..], retries)
      {
        RoundsUnfold(handler.processList, inputs, retries, i, history);
        DoRound(inputs[i], retries);
        if inputs[i].reloaded == None { return; }
        handler.processList := inputs[i].reloaded.value;
      }
      assert inputs[|inputs|..] == [] && RoundsOf(handler.processList, [], retries) == [];
    }
  }

  lemma RoundsUnfold(list: seq<Process>, inputs: seq<Input>, retries: nat, i: nat, before: seq<Round>)
    requires i < |inputs|
    ensures before + RoundsOf(list, inputs[i..], retries) ==
            before + [RoundOf(list, inputs[i], retries)] +
            if inputs[i].reloaded == None then [] else RoundsOf(inputs[i].reloaded.value, inputs[i + 1..], retries)
  {
    hide RoundOf;
    assert inputs[i..][1..] == inputs[i + 1..];
  }

  lemma NoRounds()
    ensures FailureList([]) == [] && AllNotified([]) == []
    ensures forall list, retries :: RoundsOf(list, [], retries) == []
  {
  }
}
