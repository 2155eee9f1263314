/** The purge of old rows, bounded over all tables together. */
module Purge {

  import opened Options
  import Protocol

  /** The columns the purge looks at; a live row has no deletedAt, and only notifications have a status. */
  datatype Row = Row(deletedAt: Option<int>, updatedAt: Option<int>, status: Protocol.Status)

  /** A table by row id; softDelete: it has a 'deleted' column. */
  datatype Table = Table(name: string, softDelete: bool, rows: map<nat, Row>)

  /** The condition of the select for a table: notifications that have ended, by their last update;
      rows of other tables, by the time of their soft deletion. Nothing is older than NULL. */
  predicate Eligible(t: Table, row: Row, before: int)
  {
    if t.name == "notifications" then row.updatedAt.Some? && row.updatedAt.value < before && Protocol.Terminal(row.status)
    else row.deletedAt.Some? && row.deletedAt.value < before
  }

  function EligibleIds(t: Table, before: int): set<nat>
  {
    if t.softDelete then set id | id in t.rows && Eligible(t, t.rows[id], before) else {}
  }

  /** The column the select is ordered by; statuses come in the order of their enumeration. */
  function OrderKey(t: Table, row: Row): int
  {
    if t.name == "notifications" then StatusRank(row.status) else if row.deletedAt.Some? then row.deletedAt.value else 0
  }

  function StatusRank(status: Protocol.Status): int
  {
    match status
    case NEW => 0
    case RUNNING => 1
    case ERROR => 2
    case FAILED => 3
    case IGNORED => 4
    case FINISHED => 5
  }

  /** The eligible rows of the first n tables. */
  ghost function TotalEligible(tables: seq<Table>, before: int, n: nat): nat
    requires n <= |tables|
  {
    if n == 0 then 0 else TotalEligible(tables, before, n - 1) + |EligibleIds(tables[n - 1], before)|
  }

  lemma EligibleAreRows(t: Table, before: int)
    ensures EligibleIds(t, before) <= t.rows.Keys
  {
  }

  /** Row x comes no later than any of the given rows. */
  predicate First(t: Table, ids: set<nat>, x: nat)
    requires x in t.rows && ids <= t.rows.Keys
  {
    forall y | y in ids :: OrderKey(t, t.rows[x]) <= OrderKey(t, t.rows[y])
  }

  function Gone(t: Table, t': Table): set<nat> { t.rows.Keys - t'.rows.Keys }

  /** The rows a select with this limit may answer: eligible rows only, all of them or as many as the
      limit allows, and those that come first in its order. */
  ghost predicate Chosen(t: Table, before: int, limit: Option<nat>, ids: set<nat>)
  {
    var all := EligibleIds(t, before);
    && ids <= all <= t.rows.Keys
    && (limit.Some? ==> |ids| <= limit.value)
    && (ids == all || (limit.Some? && |ids| == limit.value))
    && (forall x | x in ids :: First(t, all - ids, x))
  }

  /** What the deletion from one table does: the selected rows are gone, all others are as they were. */
  ghost predicate Deletion(t: Table, t': Table, before: int, limit: Option<nat>)
  {
    t' == t.(rows := t.rows - Gone(t, t')) && Chosen(t, before, limit, Gone(t, t'))
  }

  lemma {:induction false} FirstExists(t: Table, ids: set<nat>) returns (x: nat)
    requires ids != {} && ids <= t.rows.Keys
    ensures x in ids && First(t, ids, x)
  {
    x :| x in ids;
    if ids != {x} {
      var z := FirstExists(t, ids - {x});
      if OrderKey(t, t.rows[z]) <= OrderKey(t, t.rows[x]) { x := z; }
    }
  }

  /** SELECT id FROM ... WHERE ... ORDER BY ... LIMIT ... */
  method Select(t: Table, before: int, limit: Option<nat>) returns (ids: set<nat>)
    ensures Chosen(t, before, limit, ids)
  {
    hide EligibleIds, First;
    EligibleAreRows(t, before);
    ghost var all := EligibleIds(t, before);
    var left := EligibleIds(t, before);
    ids := {};
    while left != {} && (limit == None || |ids| < limit.value)
      invariant ids !! left && ids <= all <= t.rows.Keys && left == all - ids
      invariant limit.Some? ==> |ids| <= limit.value
      invariant forall x | x in ids :: First(t, left, x)
      decreases left
    {
      ghost var least := FirstExists(t, left);
      var x :| x in left && First(t, left, x);
      FirstStays(t, ids, left, x);
      left, ids := left - {x}, ids + {x};
    }
  }

  /** DELETE FROM ... WHERE id IN (SELECT ...). */
  method DeleteFromSelect(t: Table, before: int, limit: Option<nat>) returns (t': Table, count: nat)
    ensures Deletion(t, t', before, limit)
    ensures count == |Gone(t, t')|
  {
    hide EligibleIds, First;
    var ids := Select(t, before, limit);
    t' := t.(rows := t.rows - ids);
    assert Gone(t, t') == ids;
    count := |ids|;
  }

  lemma FirstStays(t: Table, gone: set<nat>, left: set<nat>, x: nat)
    requires gone <= t.rows.Keys && left <= t.rows.Keys && x in left && First(t, left, x)
    requires forall g | g in gone :: First(t, left, g)
    ensures forall g | g in gone + {x} :: First(t, left - {x}, g)
  {
  }

  // ----- Totals -----

  /** The rows gone from the first n tables. */
  ghost function TotalGone(tables: seq<Table>, tables': seq<Table>, n: nat): nat
    requires n <= |tables| == |tables'|
  {
    if n == 0 then 0 else TotalGone(tables, tables', n - 1) + |Gone(tables[n - 1], tables'[n - 1])|
  }

  /** All that was eligible is gone from the first n tables, and nothing from those after the next. */
  ghost predicate PurgedUpTo(tables: seq<Table>, tables': seq<Table>, before: int, n: nat)
  {
    && n <= |tables| == |tables'|
    && (forall k | 0 <= k < n :: Deletion(tables[k], tables'[k], before, None))
    && (forall k | n < k < |tables| :: tables'[k] == tables[k])
  }

  lemma {:induction false} TotalsOfPurged(tables: seq<Table>, tables': seq<Table>, before: int, n: nat, m: nat)
    requires PurgedUpTo(tables, tables', before, n) && m <= |tables|
    ensures m <= n ==> TotalGone(tables, tables', m) == TotalEligible(tables, before, m)
    ensures m > n ==> TotalGone(tables, tables', m) == TotalEligible(tables, before, n) + |Gone(tables[n], tables'[n])|
    ensures m > n ==> TotalEligible(tables, before, n) + |EligibleIds(tables[n], before)| <= TotalEligible(tables, before, m)
  {
    hide EligibleIds, Deletion, Gone;
    if m == 0 {
    } else {
      TotalsOfPurged(tables, tables', before, n, m - 1);
      if m - 1 > n { NothingGone(tables[m - 1]); }
      if m - 1 < n { AllGone(tables[m - 1], tables'[m - 1], before); }
    }
  }

  /** A deletion that did not use up its limit has left nothing eligible. */
  lemma DeletedUnderLimit(t: Table, t': Table, before: int, limit: Option<nat>)
    requires Deletion(t, t', before, limit)
    ensures OnlyEligibleGone(t, t', before)
    ensures limit.Some? ==> |Gone(t, t')| <= limit.value
    ensures limit == None || |Gone(t, t')| < limit.value ==>
              Deletion(t, t', before, None) && Gone(t, t') == EligibleIds(t, before)
  {
    hide EligibleIds, Gone, First;
  }

  lemma AllGone(t: Table, t': Table, before: int)
    requires Deletion(t, t', before, None)
    ensures Gone(t, t') == EligibleIds(t, before) && OnlyEligibleGone(t, t', before)
  {
    hide EligibleIds, Gone, First;
  }

  lemma NothingGone(t: Table)
    ensures Gone(t, t) == {}
  {
  }

  /** The whole result of a purge. */
  ghost predicate Purged(tables: seq<Table>, tables': seq<Table>, before: int, maxRows: int, total: nat)
  {
    && |tables| == |tables'|
    && total == TotalGone(tables, tables', |tables|)
    && total == (if 0 < maxRows < TotalEligible(tables, before, |tables|) then maxRows
                 else TotalEligible(tables, before, |tables|))
    && (forall k | 0 <= k < |tables| :: OnlyEligibleGone(tables[k], tables'[k], before))
    && (forall k, l | 0 <= k < l < |tables| && Gone(tables[l], tables'[l]) != {} ::
          Gone(tables[k], tables'[k]) == EligibleIds(tables[k], before))
  }

  /** Nothing but eligible rows is gone from a table, first rows first; all others are as they were. */
  ghost predicate OnlyEligibleGone(t: Table, t': Table, before: int)
  {
    && t' == t.(rows := t.rows - Gone(t, t'))
    && Gone(t, t') <= EligibleIds(t, before) <= t.rows.Keys
    && forall x | x in Gone(t, t') :: First(t, EligibleIds(t, before) - Gone(t, t'), x)
  }

  /** The purge may stop at table n: none is left, or the limit has been reached exactly. */
  ghost predicate MayStop(tables: seq<Table>, tables': seq<Table>, before: int, maxRows: int, n: nat, total: nat)
    requires n <= |tables| == |tables'|
  {
    && total == TotalEligible(tables, before, n) + (if n < |tables| then |Gone(tables[n], tables'[n])| else 0)
    && (maxRows > 0 ==> total <= maxRows)
    && (n < |tables| ==> maxRows > 0 && total == maxRows && OnlyEligibleGone(tables[n], tables'[n], before))
  }

  /** A purge that stops there has the result it should have. */
  lemma PurgeEnds(tables: seq<Table>, tables': seq<Table>, before: int, maxRows: int, n: nat, total: nat)
    requires PurgedUpTo(tables, tables', before, n)
    ensures MayStop(tables, tables', before, maxRows, n, total) ==> Purged(tables, tables', before, maxRows, total)
  {
    hide First, EligibleIds, TotalGone, TotalEligible, Deletion, OnlyEligibleGone, Gone;
    if !MayStop(tables, tables', before, maxRows, n, total) { return; }
    TotalsOfPurged(tables, tables', before, n, |tables|);
    if n < |tables| { GoneIsSmaller(tables[n], tables'[n], before); }
    forall k | 0 <= k < |tables|
      ensures OnlyEligibleGone(tables[k], tables'[k], before)
      ensures k < n ==> Gone(tables[k], tables'[k]) == EligibleIds(tables[k], before)
      ensures k > n ==> Gone(tables[k], tables'[k]) == {}
    {
      if k < n {
        AllGone(tables[k], tables'[k], before);
      } else if k > n {
        NothingGone(tables[k]);
        NothingDeleted(tables[k], before);
      }
    }
  }

  lemma NothingDeleted(t: Table, before: int)
    ensures OnlyEligibleGone(t, t, before)
  {
    NothingGone(t);
    EligibleAreRows(t, before);
    assert t.rows - {} == t.rows;
  }

  lemma GoneIsSmaller(t: Table, t': Table, before: int)
    requires OnlyEligibleGone(t, t', before)
    ensures |Gone(t, t')| <= |EligibleIds(t, before)|
  {
    var rest := EligibleIds(t, before) - Gone(t, t');
    assert EligibleIds(t, before) == Gone(t, t') + rest;
  }

  /** Rows that no purge may delete: notifications that are NEW, RUNNING or ERROR, and live rows of other tables. */
  predicate Protected(t: Table, row: Row)
  {
    if t.name == "notifications" then row.status in {Protocol.NEW, Protocol.RUNNING, Protocol.ERROR}
    else row.deletedAt == None
  }

  lemma ProtectedSurvive(t: Table, t': Table, before: int, id: nat)
    requires OnlyEligibleGone(t, t', before) && id in t.rows && Protected(t, t.rows[id])
    ensures id in t'.rows && t'.rows[id] == t.rows[id]
  {
    assert id !in EligibleIds(t, before);
  }

  lemma AllProtectedSurvive(tables: seq<Table>, tables': seq<Table>, before: int, maxRows: int, total: nat)
    requires Purged(tables, tables', before, maxRows, total)
    ensures forall k, id | 0 <= k < |tables| && id in tables[k].rows && Protected(tables[k], tables[k].rows[id]) ::
              id in tables'[k].rows && tables'[k].rows[id] == tables[k].rows[id]
  {
    hide Protected, OnlyEligibleGone, TotalGone, TotalEligible;
    forall k, id | 0 <= k < |tables| && id in tables[k].rows && Protected(tables[k], tables[k].rows[id])
      ensures id in tables'[k].rows && tables'[k].rows[id] == tables[k].rows[id]
    {
      ProtectedSurvive(tables[k], tables'[k], before, id);
    }
  }

  /** What a purge has deleted and what it has left, by the columns of the rows: it has deleted only
      notifications last updated before the time that are finished, failed or ignored, and only rows of
      other tables soft-deleted before the time; all of those if it had no bound or did not use it up;
      and of one table, finished notifications only after all ignored ones, these only after all failed
      ones, and other rows in the order of their soft deletion. */
  ghost predicate PurgedRows(tables: seq<Table>, tables': seq<Table>, before: int, maxRows: int, total: nat)
    requires |tables| == |tables'|
  {
    && (forall k, id | 0 <= k < |tables| && id in tables[k].rows && id !in tables'[k].rows ::
          Old(tables[k], tables[k].rows[id], before))
    && (maxRows <= 0 || total < maxRows ==>
          forall k, id | 0 <= k < |tables| && id in tables'[k].rows :: !Old(tables[k], tables'[k].rows[id], before))
    && (forall k, x, y | 0 <= k < |tables| && x in tables[k].rows && x !in tables'[k].rows && y in tables'[k].rows &&
                         Old(tables[k], tables'[k].rows[y], before) ::
          NotAfter(tables[k], tables[k].rows[x], tables'[k].rows[y]))
  }

  predicate Old(t: Table, row: Row, before: int)
  {
    t.softDelete &&
    if t.name == "notifications" then
      row.updatedAt.Some? && row.updatedAt.value < before &&
      row.status in {Protocol.FINISHED, Protocol.FAILED, Protocol.IGNORED}
    else row.deletedAt.Some? && row.deletedAt.value < before
  }

  predicate NotAfter(t: Table, x: Row, y: Row)
  {
    if t.name == "notifications" then
      (x.status == Protocol.FINISHED ==> y.status == Protocol.FINISHED) &&
      (x.status == Protocol.IGNORED ==> y.status != Protocol.FAILED)
    else x.deletedAt.Some? && y.deletedAt.Some? && x.deletedAt.value <= y.deletedAt.value
  }

  lemma EligibleIsOld(t: Table, before: int, id: nat)
    requires id in t.rows
    ensures id in EligibleIds(t, before) <==> Old(t, t.rows[id], before)
  {
  }

  lemma FirstIsNotAfter(t: Table, ids: set<nat>, x: nat, y: nat, before: int)
    requires x in t.rows && ids <= t.rows.Keys && First(t, ids, x) && y in ids
    requires Old(t, t.rows[x], before) && Old(t, t.rows[y], before)
    ensures NotAfter(t, t.rows[x], t.rows[y])
  {
    assert OrderKey(t, t.rows[x]) <= OrderKey(t, t.rows[y]);
  }

  lemma RowsOfTable(t: Table, t': Table, before: int)
    requires OnlyEligibleGone(t, t', before)
    ensures forall id | id in t.rows && id !in t'.rows :: Old(t, t.rows[id], before)
    ensures Gone(t, t') == EligibleIds(t, before) ==> forall id | id in t'.rows :: !Old(t, t'.rows[id], before)
    ensures forall x, y | x in t.rows && x !in t'.rows && y in t'.rows && Old(t, t'.rows[y], before) ::
              NotAfter(t, t.rows[x], t'.rows[y])
  {
    hide Old, EligibleIds, First, NotAfter;
    forall id | id in t.rows { EligibleIsOld(t, before, id); }
    forall x, y | x in t.rows && x !in t'.rows && y in t'.rows && Old(t, t'.rows[y], before)
      ensures NotAfter(t, t.rows[x], t'.rows[y])
    {
      assert x in Gone(t, t') && y in EligibleIds(t, before) - Gone(t, t');
      FirstIsNotAfter(t, EligibleIds(t, before) - Gone(t, t'), x, y, before);
    }
  }

  /** A table with eligible rows left uses up the bound. */
  lemma {:induction false} SomethingLeft(tables: seq<Table>, tables': seq<Table>, before: int, n: nat, k: nat)
    requires k < n <= |tables| == |tables'|
    requires forall l | 0 <= l < |tables| :: OnlyEligibleGone(tables[l], tables'[l], before)
    requires Gone(tables[k], tables'[k]) != EligibleIds(tables[k], before)
    ensures TotalGone(tables, tables', n) < TotalEligible(tables, before, n)
  {
    hide EligibleIds, Gone, OnlyEligibleGone;
    if k == n - 1 {
      FewerGone(tables[k], tables'[k], before);
      NoMoreGone(tables, tables', before, n - 1);
    } else {
      SomethingLeft(tables, tables', before, n - 1, k);
      GoneIsSmaller(tables[n - 1], tables'[n - 1], before);
    }
  }

  lemma {:induction false} NoMoreGone(tables: seq<Table>, tables': seq<Table>, before: int, n: nat)
    requires n <= |tables| == |tables'|
    requires forall l | 0 <= l < |tables| :: OnlyEligibleGone(tables[l], tables'[l], before)
    ensures TotalGone(tables, tables', n) <= TotalEligible(tables, before, n)
  {
    hide EligibleIds, Gone, OnlyEligibleGone;
    if n == 0 {
    } else {
      NoMoreGone(tables, tables', before, n - 1);
      GoneIsSmaller(tables[n - 1], tables'[n - 1], before);
    }
  }

  lemma FewerGone(t: Table, t': Table, before: int)
    requires OnlyEligibleGone(t, t', before) && Gone(t, t') != EligibleIds(t, before)
    ensures |Gone(t, t')| < |EligibleIds(t, before)|
  {
    hide EligibleIds, Gone, First;
    var x :| x in EligibleIds(t, before) - Gone(t, t');
    var rest := EligibleIds(t, before) - Gone(t, t');
    assert EligibleIds(t, before) == Gone(t, t') + rest && |rest| > 0;
  }

  lemma PurgedMeans(tables: seq<Table>, tables': seq<Table>, before: int, maxRows: int, total: nat)
    requires Purged(tables, tables', before, maxRows, total)
    ensures |tables| == |tables'| && PurgedRows(tables, tables', before, maxRows, total)
  {
    hide Old, EligibleIds, NotAfter, OnlyEligibleGone, TotalGone, TotalEligible, Gone;
    forall k | 0 <= k < |tables|
      ensures OnlyEligibleGone(tables[k], tables'[k], before)
      ensures maxRows <= 0 || total < maxRows ==> Gone(tables[k], tables'[k]) == EligibleIds(tables[k], before)
    {
      if Gone(tables[k], tables'[k]) != EligibleIds(tables[k], before) {
        SomethingLeft(tables, tables', before, |tables|, k);
      }
    }
    forall k | 0 <= k < |tables| { RowsOfTable(tables[k], tables'[k], before); }
  }

  class Database {
    var tables: seq<Table>           // in the order in which the purge visits them
    var limits: seq<int>             // the LIMITs that were passed, one for each bounded statement

    constructor (tables: seq<Table>)
      ensures this.tables == tables && limits == []
    {
      this.tables, limits := tables, [];
    }

    /** purge_deleted_rows: with maxRows > 0 it deletes exactly the smaller of maxRows and the number of
        eligible rows, otherwise all of them; only eligible rows; none from a later table while one of
        an earlier table is left; and every LIMIT it passes is positive. */
    method PurgeDeletedRows(now: int, ageInDays: nat, maxRows: int) returns (total: nat)
      modifies this
      ensures Purged(old(tables), tables, now - 86400 * ageInDays, maxRows, total)
      ensures |old(tables)| == |tables| && PurgedRows(old(tables), tables, now - 86400 * ageInDays, maxRows, total)
      ensures forall k, id | 0 <= k < |old(tables)| && id in old(tables)[k].rows &&
                             Protected(old(tables)[k], old(tables)[k].rows[id]) ::
                id in tables[k].rows && tables[k].rows[id] == old(tables)[k].rows[id]
      ensures old(limits) <= limits && forall j | |old(limits)| <= j < |limits| :: limits[j] > 0
    {
      hide First, EligibleIds, Purged, Gone, Deletion, OnlyEligibleGone, Protected, PurgedRows;
      ghost var was := tables;
      var deletedAge := now - 86400 * ageInDays;
      total := 0;
      var i := 0;
      while i < |tables|
        invariant PurgedUpTo(was, tables, deletedAge, i) && (i < |tables| ==> tables[i] == was[i])
        invariant total == TotalEligible(was, deletedAge, i)
        invariant maxRows > 0 ==> total < maxRows
        invariant old(limits) <= limits && forall j | |old(limits)| <= j < |limits| :: limits[j] > 0
      {
        var t := tables[i];
        if !t.softDelete {
          NothingEligible(t, deletedAge);
          i := i + 1;
          continue;
        }
        var limit: Option<nat> := None;
        if maxRows > 0 {
          limit := Some(maxRows - total);
          limits := limits + [maxRows - total];
        }
        var t', rows := DeleteFromSelect(t, deletedAge, limit);
        DeletedUnderLimit(t, t', deletedAge, limit);
        tables := tables[i := t'];
        total := total + rows;
        if maxRows > 0 && total == maxRows {
          PurgeEnds(was, tables, deletedAge, maxRows, i, total);
          PurgedMeans(was, tables, deletedAge, maxRows, total);
          AllProtectedSurvive(was, tables, deletedAge, maxRows, total);
          return;
        }
        i := i + 1;
      }
      PurgeEnds(was, tables, deletedAge, maxRows, i, total);
      PurgedMeans(was, tables, deletedAge, maxRows, total);
      AllProtectedSurvive(was, tables, deletedAge, maxRows, total);
    }
  }

  lemma NothingEligible(t: Table, before: int)
    requires !t.softDelete
    ensures EligibleIds(t, before) == {} && Deletion(t, t, before, None)
  {
    assert Gone(t, t) == {};
  }
}
