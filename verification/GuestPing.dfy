/** The introspective instance monitor's debouncing of guest pings: per domain a journal with a state
    machine, a failure counter and a flag, against a condition on the history of pings. */
module GuestPing {

  import opened Options

  datatype State = Discovery | Healthy | InError | Reported

  datatype Event = GuestPingable | GuestNotPingable | Report

  /** The transitions of STATE_SPACE; an event without one raises an exception. */
  function NextState(state: State, event: Event): Option<State>
  {
    match (state, event)
    case (Discovery, GuestPingable) => Some(Healthy)
    case (Discovery, GuestNotPingable) => Some(Discovery)
    case (Healthy, GuestPingable) => Some(Healthy)
    case (Healthy, GuestNotPingable) => Some(InError)
    case (InError, Report) => Some(Reported)
    case (InError, GuestPingable) => Some(Healthy)
    case (InError, GuestNotPingable) => Some(InError)
    case (Reported, GuestPingable) => Some(Discovery)
    case (Reported, GuestNotPingable) => Some(Reported)
    case (_, Report) => None
  }

  /** One ping: whether the guest answered and, if a notification is sent in it, whether
      send_notification returns. */
  datatype Ping = Ping(answered: bool, delivered: bool)

  /** The pings that failed at the end of a history. */
  function Streak(pings: seq<Ping>): nat
  {
    if pings == [] || pings[|pings| - 1].answered then 0 else 1 + Streak(pings[..|pings| - 1])
  }

  /** The last ping is the second or a later failure in a row, more than threshold+1 of them, and a
      success came before them. */
  predicate Crosses(pings: seq<Ping>, threshold: int)
  {
    2 <= Streak(pings) < |pings| && Streak(pings) - 1 > threshold
  }

  /** Some notification has been sent successfully in this history. */
  ghost predicate Delivered(pings: seq<Ping>, threshold: int)
  {
    exists n | 0 < n <= |pings| :: Crosses(pings[..n], threshold) && pings[n - 1].delivered
  }

  predicate FailsFor(pings: seq<Ping>, i: nat, failures: nat)
  {
    i + failures < |pings| && pings[i].answered && forall k | i < k <= i + failures :: !pings[k].answered
  }

  /** A success followed immediately by so many failures. */
  ghost predicate FailsAfterSuccess(pings: seq<Ping>, failures: nat)
  {
    exists i | 0 <= i < |pings| :: FailsFor(pings, i, failures)
  }

  lemma {:induction false} StreakMeans(pings: seq<Ping>)
    ensures var s := Streak(pings);
            && s <= |pings|
            && (forall k | |pings| - s <= k < |pings| :: !pings[k].answered)
            && (s < |pings| ==> pings[|pings| - s - 1].answered)
  {
    if pings != [] && !pings[|pings| - 1].answered { StreakMeans(pings[..|pings| - 1]); }
  }

  lemma {:induction false} StreakIs(pings: seq<Ping>, s: nat)
    requires s < |pings| && pings[|pings| - s - 1].answered && forall k | |pings| - s <= k < |pings| :: !pings[k].answered
    ensures Streak(pings) == s
  {
    if s == 0 {
    } else {
      StreakIs(pings[..|pings| - 1], s - 1);
    }
  }

  /** The failures after a success that call for a notification; a negative threshold acts like 0. */
  function Needed(threshold: int): nat { if threshold < 0 then 2 else threshold + 2 }

  /** When send_notification always returns: a notification is sent if and only if the history
      contains a success followed immediately by threshold+2 failures. */
  lemma SentIffFailsAfterSuccess(pings: seq<Ping>, threshold: int)
    requires forall k | 0 <= k < |pings| :: pings[k].delivered
    ensures Delivered(pings, threshold) <==> FailsAfterSuccess(pings, if threshold < 0 then 2 else threshold + 2)
  {
    var needed := Needed(threshold);
    if Delivered(pings, threshold) {
      var n :| 0 < n <= |pings| && Crosses(pings[..n], threshold) && pings[n - 1].delivered;
      StreakMeans(pings[..n]);
      var i := n - Streak(pings[..n]) - 1;
      assert pings[..n][i] == pings[i];
      forall k | i < k <= i + needed ensures !pings[k].answered { assert pings[..n][k] == pings[k]; }
      assert FailsFor(pings, i, needed);
    }
    if FailsAfterSuccess(pings, needed) {
      var i :| 0 <= i < |pings| && FailsFor(pings, i, needed);
      var n := i + needed + 1;
      StreakIs(pings[..n], needed);
      assert Crosses(pings[..n], threshold) && pings[n - 1].delivered;
    }
  }

  class Journal {
    var state: State
    var failedCount: nat
    var sentNotification: bool
    ghost var pings: seq<Ping>       // since the last reset
    ghost var threshold: int
    var sent: nat                    // notifications delivered since the last reset

    /** The journal in terms of its history: the counter is the failure streak in the error state and
        0 in the healthy and discovery states; the flag and the state tell what has been sent. */
    ghost predicate Valid()
      reads this
    {
      && (state == InError ==> failedCount == Streak(pings) && 0 < Streak(pings) < |pings|)
      && (state == Healthy ==> failedCount == 0 && pings != [] && Streak(pings) == 0)
      && (state == Discovery ==> failedCount == 0 && (Streak(pings) == |pings| || sentNotification))
      && (state == Reported ==> sentNotification)
      && (sentNotification <==> Delivered(pings, threshold))
      && sent == (if sentNotification then 1 else 0)
    }

    constructor (ghost threshold: int)
      ensures Valid() && pings == [] && sent == 0 && this.threshold == threshold
    {
      state, failedCount, sentNotification := Discovery, 0, false;
      pings, sent, this.threshold := [], 0, threshold;
    }

    method ResetState()
      modifies this
      ensures Valid() && pings == [] && sent == 0 && threshold == old(threshold)
      ensures state == Discovery && failedCount == 0 && !sentNotification
    {
      state, failedCount, sentNotification := Discovery, 0, false;
      pings, sent := [], 0;
    }

    /** process_event; its precondition is that the event is defined in the state. */
    method ProcessEvent(event: Event)
      requires NextState(state, event).Some?
      modifies `state
      ensures Some(state) == NextState(old(state), event)
    {
      state := NextState(state, event).value;
    }

    method IncrementFailedCount()
      modifies `failedCount
      ensures failedCount == old(failedCount) + if state == InError then 1 else 0
    {
      if state == InError { failedCount := failedCount + 1; }
    }

    /** _masakari_notifier: at most one delivered notification per reset. */
    method Notify(delivered: bool)
      requires state == InError
      modifies `state, `sentNotification, `sent
      ensures sentNotification == (old(sentNotification) || delivered)
      ensures state == if !old(sentNotification) && delivered then Reported else InError
      ensures sent == old(sent) + if !old(sentNotification) && delivered then 1 else 0
    {
      if !sentNotification && delivered {
        sent := sent + 1;
        ProcessEvent(Report);
        sentNotification := true;
      }
    }

    /** _qemuAgentGuestPing: no undefined event is ever processed, and the journal goes on describing
        the history. */
    method GuestPing(ping: Ping, guestMonitoringFailureThreshold: int)
      requires Valid() && threshold == guestMonitoringFailureThreshold
      modifies this
      ensures Valid() && pings == old(pings) + [ping] && threshold == old(threshold)
      ensures ping.answered ==>
                && failedCount == 0 && sentNotification == old(sentNotification) && sent == old(sent)
                && state == if old(state) == Reported then Discovery else Healthy
      ensures !ping.answered && (old(state) == Discovery || old(state) == Reported) ==>
                state == old(state) && failedCount == old(failedCount) && sent == old(sent)
      ensures !ping.answered && old(state) == Healthy ==>
                state == InError && failedCount == old(failedCount) + 1 && sent == old(sent)
      ensures !ping.answered && old(state) == InError ==>
                if old(failedCount) > threshold && !old(sentNotification) && ping.delivered
                then state == Reported && failedCount == old(failedCount) && sentNotification && sent == old(sent) + 1
                else state == InError && failedCount == old(failedCount) + 1 &&
                     sentNotification == old(sentNotification) && sent == old(sent)
    {
      hide Delivered, Crosses, Streak;
      HistoryGrows(pings, ping, threshold);
      pings := pings + [ping];
      if !ping.answered {
        if state == InError && failedCount > guestMonitoringFailureThreshold {
          Notify(ping.delivered);
        }
        ProcessEvent(GuestNotPingable);
        IncrementFailedCount();
      } else {
        failedCount := 0;
        ProcessEvent(GuestPingable);
      }
    }
  }

  /** The journals of all domains, one object each. */
  class QemuGuestAgent {
    const threshold: int             // guest_monitoring_failure_threshold
    var cache: map<string, Journal>

    ghost predicate Valid()
      reads this, cache.Values
    {
      && (forall d | d in cache :: cache[d].Valid() && cache[d].threshold == threshold)
      && (forall d, e | d in cache && e in cache && d != e :: cache[d] != cache[e])
    }

    constructor (threshold: int)
      ensures Valid() && cache == map[] && this.threshold == threshold
    {
      this.threshold := threshold;
      cache := map[];
    }

    /** _getJournalObject and getVmFsm. */
    method GetJournalObject(domain: string) returns (jo: Journal)
      requires Valid()
      modifies this
      ensures Valid() && cache == old(cache)[domain := jo]
      ensures domain in old(cache) ==> jo == old(cache)[domain]
      ensures domain !in old(cache) ==> fresh(jo) && jo.pings == [] && jo.sent == 0
    {
      if domain in cache {
        jo := cache[domain];
      } else {
        jo := new Journal(threshold);
        cache := cache[domain := jo];
      }
      assert cache == old(cache)[domain := jo];
    }

    /** The history of a domain since its last reset. */
    ghost function History(domain: string): seq<Ping>
      reads this, cache.Values
    {
      if domain in cache then cache[domain].pings else []
    }

    /** One round of checkGuests for a domain: only its history grows; and of the notifications for
        it, exactly one has been delivered since the reset if the history calls for one, else none. */
    method CheckGuest(domain: string, ping: Ping)
      requires Valid()
      modifies this, cache.Values
      ensures Valid() && History(domain) == old(History(domain)) + [ping]
      ensures forall other | other != domain :: History(other) == old(History(other))
      ensures domain in cache && cache[domain].sent == if Delivered(History(domain), threshold) then 1 else 0
    {
      hide Delivered, Streak;
      var jo := GetJournalObject(domain);
      assert domain in cache && cache[domain] == jo;
      jo.GuestPing(ping, threshold);
    }

    /** resetJournal. */
    method ResetJournal(domain: string)
      requires Valid()
      modifies this, cache.Values
      ensures Valid() && domain in cache && History(domain) == [] && cache[domain].sent == 0
      ensures forall other | other != domain :: History(other) == old(History(other))
    {
      var jo := GetJournalObject(domain);
      jo.ResetState();
    }
  }

  lemma StreakGrows(pings: seq<Ping>, ping: Ping)
    ensures Streak(pings + [ping]) == if ping.answered then 0 else Streak(pings) + 1
    ensures Streak(pings) <= |pings|
  {
    assert (pings + [ping])[..|pings|] == pings;
  }

  lemma HistoryGrows(pings: seq<Ping>, ping: Ping, threshold: int)
    ensures Streak(pings + [ping]) == if ping.answered then 0 else Streak(pings) + 1
    ensures Crosses(pings + [ping], threshold) <==>
              !ping.answered && 0 < Streak(pings) < |pings| && Streak(pings) > threshold
    ensures Delivered(pings + [ping], threshold) <==>
              Delivered(pings, threshold) || (Crosses(pings + [ping], threshold) && ping.delivered)
  {
    StreakGrows(pings, ping);
    DeliveredGrows(pings, ping, threshold);
  }

  lemma DeliveredGrows(pings: seq<Ping>, ping: Ping, threshold: int)
    ensures Delivered(pings + [ping], threshold) <==>
              Delivered(pings, threshold) || (Crosses(pings + [ping], threshold) && ping.delivered)
  {
    hide Crosses;
    var more := pings + [ping];
    assert more[..|more|] == more;
    forall n | 0 <= n <= |pings| ensures more[..n] == pings[..n] {}
    if n :| 0 < n <= |pings| && Crosses(pings[..n], threshold) && pings[n - 1].delivered {
      assert Crosses(more[..n], threshold) && more[n - 1].delivered;
    }
    if n :| 0 < n <= |pings| && Crosses(more[..n], threshold) && more[n - 1].delivered {
      assert Crosses(pings[..n], threshold) && pings[n - 1].delivered;
    }
  }
}
