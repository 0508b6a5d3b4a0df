/** The reminder scheduler over its store: `henk/reminders/scheduler.py` and the delivery
columns of `henk/store/reminders.py`.

A row's id is its index. A tick reads the clock once; between its suspension points, while
a send is awaited, the owner may schedule, cancel and reinstate. A crash forgets the tick.
*/
module Reminders {
  import opened Common

  datatype Status = Pending | Delivered | DeliveredLate | Missed | Cancelled | Abandoned

  datatype Reminder = Reminder(due: real, status: Status, nextAttempt: real, attempts: nat, reported: bool)

  datatype Settings = Settings(retryFloor: real, crashLimit: nat, grace: real, lateThreshold: real,
                               reportHorizon: real, deliveryLimit: nat)

  datatype SendOutcome = SentWhole | SentPart | SendFailed

  type Rows = seq<Reminder>

  // --- Selection ---------------------------------------------------------------------------

  predicate PastGrace(r: Reminder, now: real, grace: real) { r.status == Pending && now > r.due + grace }

  predicate IsDue(r: Reminder, now: real) { r.status == Pending && r.nextAttempt <= now && r.due <= now }

  predicate Unreported(r: Reminder) { (r.status == Missed || r.status == Abandoned) && !r.reported }

  predicate IsReportable(r: Reminder, now: real) { Unreported(r) && r.nextAttempt <= now }

  predicate Distinct(ids: seq<nat>) { forall i, j :: 0 <= i < j < |ids| ==> ids[i] != ids[j] }

  /** The rows among the first `n` that satisfy `p`, by id. */
  function Where(rows: Rows, p: Reminder -> bool, n: nat): (ids: seq<nat>)
    requires n <= |rows|
    ensures forall i :: i in ids <==> 0 <= i < n && p(rows[i])
    ensures Distinct(ids)
  {
    if n == 0 then []
    else if p(rows[n - 1]) then Where(rows, p, n - 1) + [n - 1] else Where(rows, p, n - 1)
  }

  function DueOf(rows: Rows): nat -> real { (i: nat) => if i < |rows| then rows[i].due else 0.0 }

  /** Oldest due first, then by id. */
  function OldestFirst(rows: Rows, ids: seq<nat>): (r: seq<nat>)
    ensures multiset(r) == multiset(ids)
  {
    SortBy(DueOf(rows), ids)
  }

  lemma OldestFirstMembers(rows: Rows, ids: seq<nat>)
    requires Distinct(ids)
    ensures Distinct(OldestFirst(rows, ids)) && forall i :: i in OldestFirst(rows, ids) <==> i in ids
  {
    var r := OldestFirst(rows, ids);
    forall i ensures i in r <==> i in ids { assert i in multiset(r) <==> i in multiset(ids); }
    SameCountsDistinct(r, ids);
  }

  lemma {:induction false} OneEach(ids: seq<nat>, x: nat)
    requires Distinct(ids)
    ensures multiset(ids)[x] <= 1
  {
    if ids != [] {
      var front := ids[..|ids| - 1];
      assert ids == front + [ids[|ids| - 1]];
      OneEach(front, x);
      if x == ids[|ids| - 1] { assert x !in front; }
    }
  }

  lemma SameCountsDistinct(a: seq<nat>, b: seq<nat>)
    requires Distinct(b) && multiset(a) == multiset(b)
    ensures Distinct(a)
  {
    forall i, j | 0 <= i < j < |a| ensures a[i] != a[j] {
      OneEach(b, a[i]);
      if a[i] == a[j] { TwoOf(a, i, j); }
    }
  }

  lemma TwoOf(a: seq<nat>, i: nat, j: nat)
    requires i < j < |a| && a[i] == a[j]
    ensures multiset(a)[a[i]] >= 2
  {
    assert a == a[..j] + [a[j]] + a[j + 1..];
    assert a[..j][i] == a[i] && a[i] in multiset(a[..j]);
  }

  function Take(ids: seq<nat>, limit: nat): seq<nat> { if |ids| <= limit then ids else ids[..limit] }

  function DueSelector(now: real): Reminder -> bool { (r: Reminder) => IsDue(r, now) }

  function ReportSelector(now: real): Reminder -> bool { (r: Reminder) => IsReportable(r, now) }

  function SelectDue(rows: Rows, now: real, limit: nat): seq<nat> {
    Take(OldestFirst(rows, Where(rows, DueSelector(now), |rows|)), limit)
  }

  function SelectReportable(rows: Rows, now: real): seq<nat> {
    OldestFirst(rows, Where(rows, ReportSelector(now), |rows|))
  }

  function IdSet(ids: seq<nat>): set<nat> { set i | i in ids }

  lemma {:induction false} MembersCount(ids: seq<nat>)
    requires Distinct(ids)
    ensures |IdSet(ids)| == |ids|
  {
    if ids != [] {
      var front, last := ids[..|ids| - 1], ids[|ids| - 1];
      assert ids == front + [last];
      MembersCount(front);
      assert last !in IdSet(front);
      assert IdSet(ids) == IdSet(front) + {last};
    } else {
      assert IdSet(ids) == {};
    }
  }

  /** As many as are due, up to the limit, each due and pending. */
  lemma SelectDueIs(rows: Rows, now: real, limit: nat)
    ensures var ids := SelectDue(rows, now, limit);
      var due := set i | 0 <= i < |rows| && IsDue(rows[i], now);
      && Distinct(ids) && |ids| == (if |due| <= limit then |due| else limit)
      && AllBelow(ids, |rows|) && forall i :: i in ids ==> i < |rows| && IsDue(rows[i], now)
  {
    OldestFirstMembers(rows, Where(rows, DueSelector(now), |rows|));
    var ids := SelectDue(rows, now, limit);
    var all := OldestFirst(rows, Where(rows, DueSelector(now), |rows|));
    var due := set i | 0 <= i < |rows| && IsDue(rows[i], now);
    MembersCount(all);
    assert due == IdSet(all);
    forall k | 0 <= k < |ids| ensures ids[k] < |rows| {
      assert ids[k] in OldestFirst(rows, Where(rows, DueSelector(now), |rows|));
    }
  }

  /** Pacing takes the oldest: no due row left for later is older than one taken. */
  lemma OldestAreTaken(rows: Rows, now: real, limit: nat, i: nat, j: nat)
    requires i in SelectDue(rows, now, limit) && i < |rows|
    requires j < |rows| && IsDue(rows[j], now) && j !in SelectDue(rows, now, limit)
    ensures rows[i].due <= rows[j].due
  {
    var all := Where(rows, DueSelector(now), |rows|);
    var sorted, taken := OldestFirst(rows, all), SelectDue(rows, now, limit);
    OldestFirstMembers(rows, all);
    SortByAscends(DueOf(rows), all);
    var a :| 0 <= a < |taken| && taken[a] == i;
    var b :| 0 <= b < |sorted| && sorted[b] == j;
    assert forall k :: 0 <= k < |taken| ==> taken[k] in taken && taken[k] == sorted[k];
    assert DueOf(rows)(sorted[a]) <= DueOf(rows)(sorted[b]);
  }

  lemma SelectReportableIs(rows: Rows, now: real)
    ensures var ids := SelectReportable(rows, now);
      && Distinct(ids) && AllBelow(ids, |rows|)
      && forall i :: i in ids <==> 0 <= i < |rows| && IsReportable(rows[i], now)
  {
    OldestFirstMembers(rows, Where(rows, ReportSelector(now), |rows|));
    var ids := SelectReportable(rows, now);
    forall k | 0 <= k < |ids| ensures ids[k] < |rows| { assert ids[k] in ids; }
  }

  ghost predicate AllBelow(ids: seq<nat>, n: nat) { forall k :: 0 <= k < |ids| ==> ids[k] < n }

  // --- The pre-work transaction --------------------------------------------------------------

  function MissedRow(r: Reminder, now: real): Reminder {
    r.(status := Missed, attempts := 0, nextAttempt := now, reported := false)
  }

  function AbandonedRow(r: Reminder, now: real): Reminder {
    r.(status := Abandoned, attempts := 0, nextAttempt := now, reported := false)
  }

  /** Grace applies to every past-grace row, selected or not. */
  function AfterGrace(rows: Rows, now: real, grace: real): Rows {
    seq(|rows|, i requires 0 <= i < |rows| => if PastGrace(rows[i], now, grace) then MissedRow(rows[i], now) else rows[i])
  }

  /** `gaveUp` are the rows whose reporting stopped at the crash limit. */
  datatype Work = Work(rows: Rows, deliveries: seq<nat>, report: seq<nat>, gaveUp: set<nat>)

  function ChargeDue(w: Work, i: nat, cfg: Settings, now: real): Work
    requires i < |w.rows|
  {
    var attempts := w.rows[i].attempts + 1;
    if attempts >= cfg.crashLimit then
      w.(rows := w.rows[i := AbandonedRow(w.rows[i], now)], report := w.report + [i])
    else w.(rows := w.rows[i := w.rows[i].(attempts := attempts)], deliveries := w.deliveries + [i])
  }

  function ChargeReport(w: Work, i: nat, cfg: Settings): Work
    requires i < |w.rows|
  {
    var attempts := w.rows[i].attempts + 1;
    if attempts >= cfg.crashLimit then
      w.(rows := w.rows[i := w.rows[i].(attempts := 0, reported := true)], gaveUp := w.gaveUp + {i})
    else w.(rows := w.rows[i := w.rows[i].(attempts := attempts)], report := w.report + [i])
  }

  function ChargeAllDue(w: Work, ids: seq<nat>, cfg: Settings, now: real): (r: Work)
    requires AllBelow(ids, |w.rows|)
    ensures |r.rows| == |w.rows|
  {
    if ids == [] then w else ChargeDue(ChargeAllDue(w, ids[..|ids| - 1], cfg, now), ids[|ids| - 1], cfg, now)
  }

  function ChargeAllReports(w: Work, ids: seq<nat>, cfg: Settings): (r: Work)
    requires AllBelow(ids, |w.rows|)
    ensures |r.rows| == |w.rows|
  {
    if ids == [] then w else ChargeReport(ChargeAllReports(w, ids[..|ids| - 1], cfg), ids[|ids| - 1], cfg)
  }

  /** Grace, then selection against what grace left, then the charges. */
  function PreWork(rows: Rows, cfg: Settings, now: real): (w: Work)
    ensures |w.rows| == |rows|
  {
    var grace := AfterGrace(rows, now, cfg.grace);
    SelectDueIs(grace, now, cfg.deliveryLimit);
    SelectReportableIs(grace, now);
    ChargeAllReports(ChargeAllDue(Work(grace, [], [], {}), SelectDue(grace, now, cfg.deliveryLimit), cfg, now),
                     SelectReportable(grace, now), cfg)
  }

  // --- After a send ------------------------------------------------------------------------------

  predicate IsLate(r: Reminder, cfg: Settings, instant: real) { instant > r.due + cfg.lateThreshold }

  /** A failed send waits for the floor; a whole or partial one is a delivery. */
  function AfterSend(rows: Rows, i: nat, outcome: SendOutcome, cfg: Settings, instant: real): Rows
    requires i < |rows|
  {
    var r := rows[i];
    if outcome == SendFailed then rows[i := r.(nextAttempt := instant + cfg.retryFloor, attempts := 0)]
    else rows[i := r.(status := if IsLate(r, cfg, instant) then DeliveredLate else Delivered, attempts := 0)]
  }

  /** What one summary's outcome does to a row it named: reported when delivered, or when only
  partly and past the horizon; otherwise tried again after the floor. */
  function AfterSummary(r: Reminder, outcome: SendOutcome, cfg: Settings, instant: real): Reminder {
    if outcome == SentWhole || (outcome == SentPart && instant > r.due + cfg.grace + cfg.reportHorizon) then
      r.(reported := true, attempts := 0)
    else r.(nextAttempt := instant + cfg.retryFloor, attempts := 0)
  }

  function AfterReport(rows: Rows, ids: seq<nat>, outcome: SendOutcome, cfg: Settings, instant: real): Rows {
    seq(|rows|, i requires 0 <= i < |rows| => if i in ids then AfterSummary(rows[i], outcome, cfg, instant) else rows[i])
  }

  // --- The object ------------------------------------------------------------------------------

  class ReminderScheduler {
    const cfg: Settings
    /** The store's committed rows. */
    var rows: Rows

    constructor (cfg: Settings, rows: Rows)
      ensures this.cfg == cfg && this.rows == rows
    {
      this.cfg, this.rows := cfg, rows;
    }

    method MarkPastGrace(now: real)
      modifies this`rows
      ensures rows == AfterGrace(old(rows), now, cfg.grace)
    {
      var i := 0;
      while i < |rows|
        invariant 0 <= i <= |rows| == |old(rows)|
        invariant forall j :: 0 <= j < i ==> rows[j] == AfterGrace(old(rows), now, cfg.grace)[j]
        invariant forall j :: i <= j < |rows| ==> rows[j] == old(rows)[j]
      {
        if PastGrace(rows[i], now, cfg.grace) { rows := rows[i := MissedRow(rows[i], now)]; }
        i := i + 1;
      }
    }

    method DoPreWork(now: real) returns (deliveries: seq<nat>, report: seq<nat>, gaveUp: set<nat>)
      modifies this`rows
      ensures Work(rows, deliveries, report, gaveUp) == PreWork(old(rows), cfg, now)
    {
      MarkPastGrace(now);
      var due := SelectDue(rows, now, cfg.deliveryLimit);
      var reportable := SelectReportable(rows, now);
      SelectDueIs(rows, now, cfg.deliveryLimit);
      SelectReportableIs(rows, now);
      var w := Work(rows, [], [], {});
      var i := 0;
      while i < |due|
        invariant 0 <= i <= |due|
        invariant w == ChargeAllDue(Work(rows, [], [], {}), due[..i], cfg, now)
      {
        assert due[..i + 1][..i] == due[..i] && due[i] in due;
        w := ChargeDue(w, due[i], cfg, now);
        i := i + 1;
      }
      assert due[..i] == due;
      w := ChargeReports(w, reportable);
      rows, deliveries, report, gaveUp := w.rows, w.deliveries, w.report, w.gaveUp;
    }

    method ChargeReports(start: Work, reportable: seq<nat>) returns (w: Work)
      requires AllBelow(reportable, |start.rows|)
      ensures w == ChargeAllReports(start, reportable, cfg)
    {
      w := start;
      var i := 0;
      while i < |reportable|
        invariant 0 <= i <= |reportable|
        invariant w == ChargeAllReports(start, reportable[..i], cfg)
      {
        assert reportable[..i + 1][..i] == reportable[..i] && reportable[i] in reportable;
        w := ChargeReport(w, reportable[i], cfg);
        i := i + 1;
      }
      assert reportable[..i] == reportable;
    }

    /** Whether to dispatch at all: the re-read just before the send. */
    method StillPending(i: nat) returns (yes: bool)
      requires i < |rows|
      ensures yes <==> rows[i].status == Pending
    {
      yes := rows[i].status == Pending;
    }

    method RecordSend(i: nat, outcome: SendOutcome, instant: real)
      requires i < |rows|
      modifies this`rows
      ensures rows == AfterSend(old(rows), i, outcome, cfg, instant)
      ensures |rows| == |old(rows)| && rows[i].attempts == 0 && forall j :: 0 <= j < |rows| && j != i ==> rows[j] == old(rows)[j]
      ensures outcome == SendFailed ==>
                rows[i].status == old(rows)[i].status && rows[i].nextAttempt == instant + cfg.retryFloor
      ensures outcome != SendFailed ==>
                rows[i].status == if instant - rows[i].due > cfg.lateThreshold then DeliveredLate else Delivered
    {
      if outcome == SendFailed {
        rows := rows[i := rows[i].(nextAttempt := instant + cfg.retryFloor, attempts := 0)];
        return;
      }
      var late := instant > rows[i].due + cfg.lateThreshold;
      rows := rows[i := rows[i].(status := if late then DeliveredLate else Delivered, attempts := 0)];
    }

    method RecordSummary(ids: seq<nat>, outcome: SendOutcome, instant: real)
      modifies this`rows
      ensures rows == AfterReport(old(rows), ids, outcome, cfg, instant)
      ensures |rows| == |old(rows)| && forall j :: 0 <= j < |rows| && j !in ids ==> rows[j] == old(rows)[j]
      ensures forall j :: 0 <= j < |rows| && j in ids ==>
                var told := outcome == SentWhole || (outcome == SentPart && instant - rows[j].due > cfg.grace + cfg.reportHorizon);
                && rows[j].attempts == 0 && rows[j].status == old(rows)[j].status
                && rows[j].reported == (told || old(rows)[j].reported)
                && rows[j].nextAttempt == if told then old(rows)[j].nextAttempt else instant + cfg.retryFloor
    {
      var i := 0;
      while i < |rows|
        invariant 0 <= i <= |rows| == |old(rows)|
        invariant forall j :: 0 <= j < i ==> rows[j] == AfterReport(old(rows), ids, outcome, cfg, instant)[j]
        invariant forall j :: i <= j < |rows| ==> rows[j] == old(rows)[j]
      {
        if i in ids { rows := rows[i := AfterSummary(rows[i], outcome, cfg, instant)]; }
        i := i + 1;
      }
    }
  }
}
