/** What pre-work does to every row, and that a tick sends what it took (`_pre_work`, `tick` and
`_deliver` of `henk/reminders/scheduler.py`). */
module ReminderWork {
  import opened Common
  import opened Reminders
  import opened ReminderRuns

  // --- Oldest first ------------------------------------------------------------------------

  /** Row `j` is due before row `i`, or at the same instant with the smaller id. */
  predicate Before(rows: Rows, j: nat, i: nat) {
    j < |rows| && i < |rows| && (rows[j].due < rows[i].due || (rows[j].due == rows[i].due && j < i))
  }

  ghost predicate InOrder(rows: Rows, ids: seq<nat>) {
    forall a, b :: 0 <= a < b < |ids| ==> Before(rows, ids[a], ids[b])
  }

  lemma {:induction false} InsertInOrder(rows: Rows, x: nat, ids: seq<nat>)
    requires InOrder(rows, ids) && AllBelow(ids, |rows|) && x < |rows| && forall k :: 0 <= k < |ids| ==> ids[k] < x
    ensures InOrder(rows, InsertBy(DueOf(rows), x, ids)) && AllBelow(InsertBy(DueOf(rows), x, ids), |rows|)
  {
    if ids != [] && DueOf(rows)(ids[|ids| - 1]) > DueOf(rows)(x) {
      var front, last := ids[..|ids| - 1], ids[|ids| - 1];
      InsertInOrder(rows, x, front);
      var r := InsertBy(DueOf(rows), x, front);
      forall a | 0 <= a < |r| ensures Before(rows, r[a], last) {
        assert r[a] in multiset(r);
        assert r[a] in front || r[a] == x;
      }
    } else if ids != [] {
      forall a | 0 <= a < |ids| ensures Before(rows, ids[a], x) {
        if a < |ids| - 1 { assert Before(rows, ids[a], ids[|ids| - 1]); }
      }
    }
  }

  predicate Climbing(ids: seq<nat>) { forall a, b :: 0 <= a < b < |ids| ==> ids[a] < ids[b] }

  lemma {:induction false} SortInOrder(rows: Rows, ids: seq<nat>)
    requires Climbing(ids) && AllBelow(ids, |rows|)
    ensures InOrder(rows, OldestFirst(rows, ids)) && AllBelow(OldestFirst(rows, ids), |rows|)
  {
    if ids != [] {
      var front, x := ids[..|ids| - 1], ids[|ids| - 1];
      SortInOrder(rows, front);
      var r := OldestFirst(rows, front);
      forall k | 0 <= k < |r| ensures r[k] < x {
        assert r[k] in multiset(r);
        assert r[k] in front;
      }
      InsertInOrder(rows, x, r);
    }
  }

  lemma {:induction false} WhereClimbs(rows: Rows, p: Reminder -> bool, n: nat)
    requires n <= |rows|
    ensures Climbing(Where(rows, p, n)) && AllBelow(Where(rows, p, n), n)
  {
    if n > 0 {
      WhereClimbs(rows, p, n - 1);
      var ids := Where(rows, p, n);
      forall k | 0 <= k < |ids| ensures ids[k] < n { assert ids[k] in ids; }
    }
  }

  // --- Who is chosen -------------------------------------------------------------------------

  /** Pending, its time and its retry come, and within its grace. */
  predicate Deliverable(r: Reminder, cfg: Settings, now: real) {
    r.status == Pending && r.nextAttempt <= now && r.due <= now && now <= r.due + cfg.grace
  }

  function Ahead(rows: Rows, cfg: Settings, now: real, i: nat): set<nat> {
    set j | 0 <= j < |rows| && Deliverable(rows[j], cfg, now) && Before(rows, j, i)
  }

  /** Deliverable, with fewer deliverable rows before it than a tick sends. */
  predicate Chosen(rows: Rows, cfg: Settings, now: real, i: nat) {
    i < |rows| && Deliverable(rows[i], cfg, now) && |Ahead(rows, cfg, now, i)| < cfg.deliveryLimit
  }

  /** Past its grace, or already missed or abandoned and still to be reported. */
  predicate Reportable(r: Reminder, cfg: Settings, now: real) {
    || (r.status == Pending && now > r.due + cfg.grace)
    || ((r.status == Missed || r.status == Abandoned) && !r.reported && r.nextAttempt <= now)
  }

  function FirstOf(ids: seq<nat>, n: nat): set<nat>
    requires n <= |ids|
  {
    set k | 0 <= k < n :: ids[k]
  }

  lemma {:induction false} FirstOfCount(ids: seq<nat>, n: nat)
    requires Distinct(ids) && n <= |ids|
    ensures |FirstOf(ids, n)| == n
  {
    if n > 0 {
      FirstOfCount(ids, n - 1);
      assert FirstOf(ids, n) == FirstOf(ids, n - 1) + {ids[n - 1]};
    } else {
      assert FirstOf(ids, 0) == {};
    }
  }

  lemma GraceDue(rows: Rows, cfg: Settings, now: real)
    ensures var g := AfterGrace(rows, now, cfg.grace);
      && |g| == |rows|
      && (forall i :: 0 <= i < |rows| ==> g[i].due == rows[i].due && (IsDue(g[i], now) <==> Deliverable(rows[i], cfg, now)))
      && (forall i :: 0 <= i < |rows| ==> (IsReportable(g[i], now) <==> Reportable(rows[i], cfg, now)))
      && (forall i, j :: Before(g, j, i) == Before(rows, j, i))
  {
  }

  /** The rows taken for delivery: the chosen ones, oldest first. */
  lemma SelectedAreChosen(rows: Rows, cfg: Settings, now: real)
    ensures var ids := SelectDue(AfterGrace(rows, now, cfg.grace), now, cfg.deliveryLimit);
      && Distinct(ids) && AllBelow(ids, |rows|) && InOrder(rows, ids)
      && forall i: nat :: i in ids <==> Chosen(rows, cfg, now, i)
  {
    var g := AfterGrace(rows, now, cfg.grace);
    var all := Where(g, DueSelector(now), |g|);
    var sorted, ids := OldestFirst(g, all), SelectDue(g, now, cfg.deliveryLimit);
    GraceDue(rows, cfg, now);
    SelectDueIs(g, now, cfg.deliveryLimit);
    OldestFirstMembers(g, all);
    WhereClimbs(g, DueSelector(now), |g|);
    SortInOrder(g, all);
    assert InOrder(rows, sorted);
    forall i: nat ensures i in ids <==> Chosen(rows, cfg, now, i) {
      if i in sorted {
        var a :| 0 <= a < |sorted| && sorted[a] == i;
        RankIs(rows, cfg, now, sorted, a);
        TakenIff(sorted, cfg.deliveryLimit, a);
      } else {
        assert forall k :: 0 <= k < |ids| ==> ids[k] == sorted[k];
      }
    }
  }

  lemma RankIs(rows: Rows, cfg: Settings, now: real, sorted: seq<nat>, a: nat)
    requires InOrder(rows, sorted) && Distinct(sorted) && a < |sorted|
    requires forall i: nat :: i in sorted <==> i < |rows| && Deliverable(rows[i], cfg, now)
    ensures |Ahead(rows, cfg, now, sorted[a])| == a
  {
    FirstOfCount(sorted, a);
    forall j ensures j in Ahead(rows, cfg, now, sorted[a]) <==> j in FirstOf(sorted, a) {
      if j in Ahead(rows, cfg, now, sorted[a]) {
        var b :| 0 <= b < |sorted| && sorted[b] == j;
        assert b < a;
      }
      if j in FirstOf(sorted, a) {
        var b :| 0 <= b < a && sorted[b] == j;
        assert sorted[b] in sorted;
      }
    }
    assert Ahead(rows, cfg, now, sorted[a]) == FirstOf(sorted, a);
  }

  lemma TakenIff(sorted: seq<nat>, limit: nat, a: nat)
    requires Distinct(sorted) && a < |sorted|
    ensures sorted[a] in Take(sorted, limit) <==> a < limit
  {
    var ids := Take(sorted, limit);
    if a < limit { assert ids[a] == sorted[a]; }
  }

  // --- What is charged -------------------------------------------------------------------------

  /** The ids among `ids` whose row satisfies `p`, in the same order. */
  function Those(ids: seq<nat>, rows: Rows, p: Reminder -> bool): (r: seq<nat>)
    requires AllBelow(ids, |rows|)
    ensures forall i :: i in r <==> i in ids && 0 <= i < |rows| && p(rows[i])
  {
    if ids == [] then []
    else
      var front, i := ids[..|ids| - 1], ids[|ids| - 1];
      assert ids == front + [i];
      if p(rows[i]) then Those(front, rows, p) + [i] else Those(front, rows, p)
  }

  lemma {:induction false} ThoseInOrder(ids: seq<nat>, rows: Rows, p: Reminder -> bool)
    requires AllBelow(ids, |rows|) && InOrder(rows, ids)
    ensures InOrder(rows, Those(ids, rows, p))
  {
    if ids != [] {
      var front, i := ids[..|ids| - 1], ids[|ids| - 1];
      ThoseInOrder(front, rows, p);
      var r := Those(front, rows, p);
      forall a | 0 <= a < |r| ensures Before(rows, r[a], i) {
        assert r[a] in r;
        var b :| 0 <= b < |front| && front[b] == r[a];
        assert Before(rows, ids[b], ids[|ids| - 1]);
      }
    }
  }

  lemma {:induction false} ThoseDistinct(ids: seq<nat>, rows: Rows, p: Reminder -> bool)
    requires AllBelow(ids, |rows|) && Distinct(ids)
    ensures Distinct(Those(ids, rows, p))
  {
    if ids != [] {
      var front, i := ids[..|ids| - 1], ids[|ids| - 1];
      assert ids == front + [i];
      ThoseDistinct(front, rows, p);
      assert i !in front;
    }
  }

  function Spends(cfg: Settings): Reminder -> bool { (r: Reminder) => r.attempts + 1 >= cfg.crashLimit }

  function Affords(cfg: Settings): Reminder -> bool { (r: Reminder) => r.attempts + 1 < cfg.crashLimit }

  lemma {:induction false} DueListed(w: Work, ids: seq<nat>, cfg: Settings, now: real)
    requires AllBelow(ids, |w.rows|) && Distinct(ids)
    ensures var r := ChargeAllDue(w, ids, cfg, now);
      && r.deliveries == w.deliveries + Those(ids, w.rows, Affords(cfg))
      && r.report == w.report + Those(ids, w.rows, Spends(cfg)) && r.gaveUp == w.gaveUp
  {
    if ids != [] {
      var front, i := ids[..|ids| - 1], ids[|ids| - 1];
      assert ids == front + [i];
      DueListed(w, front, cfg, now);
      DueCharged(w, front, cfg, now);
      assert i !in front;
      assert ChargeAllDue(w, front, cfg, now).rows[i] == w.rows[i];
    }
  }

  /** The charge of one delivery on its row. */
  ghost predicate ChargedAs(r: Reminder, s: Reminder, cfg: Settings, now: real) {
    s == if r.attempts + 1 >= cfg.crashLimit then r.(status := Abandoned, attempts := 0, nextAttempt := now, reported := false)
         else r.(attempts := r.attempts + 1)
  }

  lemma {:induction false} DueCharged(w: Work, ids: seq<nat>, cfg: Settings, now: real)
    requires AllBelow(ids, |w.rows|) && Distinct(ids)
    ensures var r := ChargeAllDue(w, ids, cfg, now);
      && (forall i :: 0 <= i < |w.rows| && i !in ids ==> r.rows[i] == w.rows[i])
      && (forall i :: 0 <= i < |w.rows| && i in ids ==> ChargedAs(w.rows[i], r.rows[i], cfg, now))
  {
    if ids != [] {
      var front, i := ids[..|ids| - 1], ids[|ids| - 1];
      assert ids == front + [i];
      DueCharged(w, front, cfg, now);
      assert i !in front;
      var m := ChargeAllDue(w, front, cfg, now);
      assert m.rows[i] == w.rows[i];
      OneCharged(m, i, cfg, now);
    }
  }

  lemma OneCharged(m: Work, i: nat, cfg: Settings, now: real)
    requires i < |m.rows|
    ensures var r := ChargeDue(m, i, cfg, now);
      && |r.rows| == |m.rows| && ChargedAs(m.rows[i], r.rows[i], cfg, now)
      && forall j :: 0 <= j < |m.rows| && j != i ==> r.rows[j] == m.rows[j]
  {
  }

  /** The charge of one report on its row. */
  ghost predicate ReportedAs(r: Reminder, s: Reminder, cfg: Settings) {
    s == if r.attempts + 1 >= cfg.crashLimit then r.(attempts := 0, reported := true) else r.(attempts := r.attempts + 1)
  }

  lemma OneReported(m: Work, i: nat, cfg: Settings)
    requires i < |m.rows|
    ensures var r := ChargeReport(m, i, cfg);
      && |r.rows| == |m.rows| && ReportedAs(m.rows[i], r.rows[i], cfg) && r.deliveries == m.deliveries
      && (forall j :: 0 <= j < |m.rows| && j != i ==> r.rows[j] == m.rows[j])
      && r.report == m.report + (if m.rows[i].attempts + 1 < cfg.crashLimit then [i] else [])
      && r.gaveUp == m.gaveUp + (if m.rows[i].attempts + 1 >= cfg.crashLimit then {i} else {})
  {
  }

  lemma {:induction false} ReportRows(w: Work, ids: seq<nat>, cfg: Settings)
    requires AllBelow(ids, |w.rows|) && Distinct(ids)
    ensures var r := ChargeAllReports(w, ids, cfg);
      && (forall i :: 0 <= i < |w.rows| && i !in ids ==> r.rows[i] == w.rows[i])
      && (forall i :: 0 <= i < |w.rows| && i in ids ==> ReportedAs(w.rows[i], r.rows[i], cfg))
  {
    if ids != [] {
      var front, i := ids[..|ids| - 1], ids[|ids| - 1];
      assert ids == front + [i];
      ReportRows(w, front, cfg);
      assert i !in front;
      OneReported(ChargeAllReports(w, front, cfg), i, cfg);
    }
  }

  lemma {:induction false} ReportLists(w: Work, ids: seq<nat>, cfg: Settings)
    requires AllBelow(ids, |w.rows|) && Distinct(ids)
    ensures var r := ChargeAllReports(w, ids, cfg);
      && r.deliveries == w.deliveries && r.report == w.report + Those(ids, w.rows, Affords(cfg))
      && (forall i :: i in r.gaveUp <==> i in w.gaveUp || (i in ids && 0 <= i < |w.rows| && w.rows[i].attempts + 1 >= cfg.crashLimit))
  {
    if ids != [] {
      var front, i := ids[..|ids| - 1], ids[|ids| - 1];
      assert ids == front + [i];
      ReportLists(w, front, cfg);
      ReportRows(w, front, cfg);
      assert i !in front;
      var m := ChargeAllReports(w, front, cfg);
      assert m.rows[i] == w.rows[i];
      OneReported(m, i, cfg);
    }
  }

  lemma ReportsCharged(w: Work, ids: seq<nat>, cfg: Settings)
    requires AllBelow(ids, |w.rows|) && Distinct(ids)
    ensures var r := ChargeAllReports(w, ids, cfg);
      && r.deliveries == w.deliveries && r.report == w.report + Those(ids, w.rows, Affords(cfg))
      && (forall i :: i in r.gaveUp <==> i in w.gaveUp || (i in ids && 0 <= i < |w.rows| && w.rows[i].attempts + 1 >= cfg.crashLimit))
      && (forall i :: 0 <= i < |w.rows| && i !in ids ==> r.rows[i] == w.rows[i])
      && (forall i :: 0 <= i < |w.rows| && i in ids ==> ReportedAs(w.rows[i], r.rows[i], cfg))
  {
    ReportRows(w, ids, cfg);
    ReportLists(w, ids, cfg);
  }

  // --- Pre-work, row by row ----------------------------------------------------------------------

  /** A row as its report charge finds it: a lapsed one is missed first. */
  function Lapsed(r: Reminder, now: real): Reminder {
    if r.status == Pending then r.(status := Missed, attempts := 0, nextAttempt := now, reported := false) else r
  }

  /** What pre-work makes of row `i`, and which of its lists the row is in. */
  ghost predicate WorkedAs(rows: Rows, w: Work, cfg: Settings, now: real, i: nat)
    requires i < |rows| == |w.rows|
  {
    var r := rows[i];
    if Reportable(r, cfg, now) then
      var last := Lapsed(r, now).attempts + 1 >= cfg.crashLimit;
      && w.rows[i] == (if last then Lapsed(r, now).(attempts := 0, reported := true)
                       else Lapsed(r, now).(attempts := Lapsed(r, now).attempts + 1))
      && i !in w.deliveries && (i in w.report <==> !last) && (i in w.gaveUp <==> last)
    else if Chosen(rows, cfg, now, i) then
      var last := r.attempts + 1 >= cfg.crashLimit;
      && w.rows[i] == (if last then r.(status := Abandoned, attempts := 0, nextAttempt := now, reported := false)
                       else r.(attempts := r.attempts + 1))
      && (i in w.deliveries <==> !last) && (i in w.report <==> last) && i !in w.gaveUp
    else w.rows[i] == r && i !in w.deliveries && i !in w.report && i !in w.gaveUp
  }

  /** The rows taken for delivery, and the work once they are charged. */
  ghost predicate DueSide(rows: Rows, cfg: Settings, now: real, g: Rows, due: seq<nat>, w: Work) {
    && g == AfterGrace(rows, now, cfg.grace) && |w.rows| == |g| == |rows|
    && Distinct(due) && AllBelow(due, |rows|) && InOrder(rows, due)
    && (forall i: nat :: i in due <==> Chosen(rows, cfg, now, i))
    && (forall i :: 0 <= i < |rows| && i !in due ==> w.rows[i] == g[i])
    && (forall i :: 0 <= i < |rows| && i in due ==> ChargedAs(g[i], w.rows[i], cfg, now))
    && w.deliveries == Those(due, g, Affords(cfg)) && w.report == Those(due, g, Spends(cfg)) && w.gaveUp == {}
  }

  lemma DuePart(rows: Rows, cfg: Settings, now: real)
    ensures var g := AfterGrace(rows, now, cfg.grace);
      DueSide(rows, cfg, now, g, SelectDue(g, now, cfg.deliveryLimit), AfterDueCharges(rows, cfg, now))
  {
    var g := AfterGrace(rows, now, cfg.grace);
    var due := SelectDue(g, now, cfg.deliveryLimit);
    SelectedAreChosen(rows, cfg, now);
    SelectDueIs(g, now, cfg.deliveryLimit);
    DueListed(Work(g, [], [], {}), due, cfg, now);
    DueCharged(Work(g, [], [], {}), due, cfg, now);
  }

  /** The rows taken for reporting, and the work once they are charged too. */
  ghost predicate ReportSide(rows: Rows, cfg: Settings, now: real, reps: seq<nat>, m: Work, w: Work) {
    && |w.rows| == |m.rows| == |rows| && Distinct(reps) && AllBelow(reps, |rows|)
    && (forall i: nat :: i in reps <==> i < |rows| && Reportable(rows[i], cfg, now))
    && w.deliveries == m.deliveries && w.report == m.report + Those(reps, m.rows, Affords(cfg))
    && (forall i :: i in w.gaveUp <==> i in m.gaveUp || (i in reps && 0 <= i < |rows| && m.rows[i].attempts + 1 >= cfg.crashLimit))
    && (forall i :: 0 <= i < |rows| && i !in reps ==> w.rows[i] == m.rows[i])
    && (forall i :: 0 <= i < |rows| && i in reps ==> ReportedAs(m.rows[i], w.rows[i], cfg))
  }

  lemma ReportPart(rows: Rows, cfg: Settings, now: real)
    ensures ReportSide(rows, cfg, now, SelectReportable(AfterGrace(rows, now, cfg.grace), now),
                       AfterDueCharges(rows, cfg, now), PreWork(rows, cfg, now))
  {
    var g := AfterGrace(rows, now, cfg.grace);
    GraceDue(rows, cfg, now);
    SelectReportableIs(g, now);
    ReportsCharged(AfterDueCharges(rows, cfg, now), SelectReportable(g, now), cfg);
  }

  /** Pre-work in full. A row past its grace is missed; one to be reported is charged and
  reported, or given up at the limit; of the rest the oldest deliverable ones, up to the
  limit of a tick, are charged and sent oldest first, or abandoned at the crash limit and
  reported; every other row is left alone. */
  lemma PreWorkIs(rows: Rows, cfg: Settings, now: real)
    ensures var w := PreWork(rows, cfg, now);
      && |w.rows| == |rows| && Distinct(w.deliveries) && Distinct(w.report)
      && InOrder(rows, w.deliveries) && AllBelow(w.deliveries, |rows|)
      && forall i :: 0 <= i < |rows| ==> WorkedAs(rows, w, cfg, now, i)
  {
    var g, w := AfterGrace(rows, now, cfg.grace), PreWork(rows, cfg, now);
    var due, reps, m := SelectDue(g, now, cfg.deliveryLimit), SelectReportable(g, now), AfterDueCharges(rows, cfg, now);
    DuePart(rows, cfg, now);
    ReportPart(rows, cfg, now);
    DeliveriesOrdered(rows, cfg, now, g, due, m);
    ReportsDistinct(rows, cfg, now, g, due, reps, m, w);
    forall i | 0 <= i < |rows| ensures WorkedAs(rows, w, cfg, now, i) {
      PreWorkRow(rows, cfg, now, g, due, reps, m, w, i);
    }
  }

  lemma DeliveriesOrdered(rows: Rows, cfg: Settings, now: real, g: Rows, due: seq<nat>, m: Work)
    requires DueSide(rows, cfg, now, g, due, m)
    ensures Distinct(m.deliveries) && InOrder(rows, m.deliveries) && AllBelow(m.deliveries, |rows|)
  {
    GraceDue(rows, cfg, now);
    assert InOrder(g, due);
    ThoseInOrder(due, g, Affords(cfg));
    ThoseDistinct(due, g, Affords(cfg));
    forall k | 0 <= k < |m.deliveries| ensures m.deliveries[k] < |rows| { assert m.deliveries[k] in m.deliveries; }
  }

  lemma ReportsDistinct(rows: Rows, cfg: Settings, now: real, g: Rows, due: seq<nat>, reps: seq<nat>, m: Work, w: Work)
    requires DueSide(rows, cfg, now, g, due, m) && ReportSide(rows, cfg, now, reps, m, w)
    ensures Distinct(w.report)
  {
    ThoseDistinct(due, g, Spends(cfg));
    ThoseDistinct(reps, m.rows, Affords(cfg));
    ReportIsDistinct(rows, cfg, now, due, reps, m.report, Those(reps, m.rows, Affords(cfg)));
  }

  lemma PreWorkRow(rows: Rows, cfg: Settings, now: real, g: Rows, due: seq<nat>, reps: seq<nat>, m: Work, w: Work, i: nat)
    requires DueSide(rows, cfg, now, g, due, m) && ReportSide(rows, cfg, now, reps, m, w) && i < |rows|
    ensures WorkedAs(rows, w, cfg, now, i)
  {
    assert i in due <==> Chosen(rows, cfg, now, i);
    assert i in reps <==> Reportable(rows[i], cfg, now);
    assert i in w.report <==> i in m.report || i in Those(reps, m.rows, Affords(cfg));
    assert g[i] == if Reportable(rows[i], cfg, now) then Lapsed(rows[i], now) else rows[i];
  }

  lemma ReportIsDistinct(rows: Rows, cfg: Settings, now: real, due: seq<nat>, reps: seq<nat>, a: seq<nat>, b: seq<nat>)
    requires Distinct(a) && Distinct(b) && (forall i :: i in a ==> i in due) && (forall i :: i in b ==> i in reps)
    requires forall i: nat :: i in due ==> Chosen(rows, cfg, now, i)
    requires forall i: nat :: i in reps ==> i < |rows| && Reportable(rows[i], cfg, now)
    ensures Distinct(a + b)
  {
    forall i, j | 0 <= i < |a| && 0 <= j < |b| ensures a[i] != b[j] {
      assert a[i] in a && b[j] in b;
    }
  }

  // --- A tick sends what it took -------------------------------------------------------------------

  function Ids(turns: seq<Turn>): seq<nat> {
    seq(|turns|, k requires 0 <= k < |turns| => turns[k].id)
  }

  /** The deliveries whose rows were pending at their turn. */
  function Sends(turns: seq<Turn>): seq<nat> {
    if turns == [] then []
    else Sends(turns[..|turns| - 1]) + if turns[|turns| - 1].pending then [turns[|turns| - 1].id] else []
  }

  /** So far every delivery had its turn or waits for it, in order, and what was pending at its
  turn was sent or is being sent. */
  ghost predicate OnCourse(t: Tick) {
    t.Ticking? ==>
      && t.planned == Ids(t.turns) + t.deliveries
      && Sends(t.turns) == t.returned + if t.sending.Some? then [t.sending.value] else []
  }

  lemma TurnTaken(turns: seq<Turn>, one: Turn)
    ensures Ids(turns + [one]) == Ids(turns) + [one.id]
    ensures Sends(turns + [one]) == Sends(turns) + if one.pending then [one.id] else []
  {
    assert (turns + [one])[..|turns|] == turns;
  }

  lemma StartKeepsCourse(s: System, cfg: Settings)
    requires s.tick.NoTick?
    ensures OnCourse(Apply(s, StartTick, cfg).tick)
  {
    var w := PreWork(s.rows, cfg, s.now);
    assert Ids([]) + w.deliveries == w.deliveries;
  }

  lemma DispatchKeepsCourse(s: System, cfg: Settings)
    requires Enabled(s, Dispatch) && OnCourse(s.tick)
    ensures OnCourse(Apply(s, Dispatch, cfg).tick)
  {
    var i := s.tick.deliveries[0];
    var one := Turn(i, s.rows[i].status == Pending);
    TurnTaken(s.tick.turns, one);
    assert s.tick.deliveries == [i] + s.tick.deliveries[1..];
    assert Ids(s.tick.turns) + [i] + s.tick.deliveries[1..] == Ids(s.tick.turns) + s.tick.deliveries;
    assert Sends(s.tick.turns) == s.tick.returned + [];
  }

  lemma SendKeepsCourse(s: System, outcome: SendOutcome, cfg: Settings)
    requires Enabled(s, SendReturned(outcome)) && OnCourse(s.tick)
    ensures OnCourse(Apply(s, SendReturned(outcome), cfg).tick)
  {
    var t := Apply(s, SendReturned(outcome), cfg).tick;
    assert t.returned + [] == t.returned == s.tick.returned + [s.tick.sending.value];
  }

  lemma OtherKeepsCourse(s: System, step: Step, cfg: Settings)
    requires Enabled(s, step) && OnCourse(s.tick) && !step.StartTick? && !step.Dispatch? && !step.SendReturned?
    ensures OnCourse(Apply(s, step, cfg).tick)
  {
    assert Apply(s, step, cfg).tick == s.tick || Apply(s, step, cfg).tick.NoTick?
           || Apply(s, step, cfg).tick == s.tick.(reporting := true);
  }

  lemma StepKeepsCourse(s: System, step: Step, cfg: Settings)
    requires Enabled(s, step) && OnCourse(s.tick)
    ensures OnCourse(Apply(s, step, cfg).tick)
  {
    if step.StartTick? { StartKeepsCourse(s, cfg); }
    else if step.Dispatch? { DispatchKeepsCourse(s, cfg); }
    else if step.SendReturned? { SendKeepsCourse(s, step.outcome, cfg); }
    else { OtherKeepsCourse(s, step, cfg); }
  }

  /** The tick under way goes on: no crash, and no step that ends a tick. */
  predicate GoesOn(step: Step) { !step.Crash? && !step.EndTick? && !step.ReportReturned? }

  ghost predicate SameTick(s: System, t: System) {
    s.tick.Ticking? && t.tick.Ticking? && t.tick.planned == s.tick.planned && t.tick.instant == s.tick.instant
  }

  lemma {:induction false} TickGoesOn(s: System, steps: seq<Step>, cfg: Settings)
    requires Legal(s, steps, cfg) && s.tick.Ticking? && OnCourse(s.tick) && forall k :: 0 <= k < |steps| ==> GoesOn(steps[k])
    ensures SameTick(s, Run(s, steps, cfg)) && OnCourse(Run(s, steps, cfg).tick)
    decreases |steps|
  {
    if steps != [] {
      assert GoesOn(steps[0]);
      StepKeepsCourse(s, steps[0], cfg);
      TickGoesOn(Apply(s, steps[0], cfg), steps[1..], cfg);
    }
  }

  lemma {:induction false} SendsAre(turns: seq<Turn>, i: nat)
    ensures i in Sends(turns) <==> Turn(i, true) in turns
  {
    if turns != [] {
      assert turns == turns[..|turns| - 1] + [turns[|turns| - 1]];
      SendsAre(turns[..|turns| - 1], i);
    }
  }

  /** Done with its deliveries: about to end, to report, or waiting for the summary. */
  predicate Delivering(s: System) { s.tick.Ticking? && (s.tick.sending.Some? || s.tick.deliveries != []) }

  lemma PlannedAre(rows: Rows, cfg: Settings, now: real, i: nat)
    ensures var ids := PreWork(rows, cfg, now).deliveries;
      && Distinct(ids) && InOrder(rows, ids)
      && (i in ids <==> Chosen(rows, cfg, now, i) && rows[i].attempts + 1 < cfg.crashLimit)
  {
    PreWorkIs(rows, cfg, now);
    var w := PreWork(rows, cfg, now);
    assert i < |rows| ==> WorkedAs(rows, w, cfg, now, i);
  }

  /** A tick that comes through its deliveries without a crash has had exactly the rows pre-work
  chose and could still charge, oldest first, each at its turn; and it has sent each one
  that was still pending then. */
  lemma TickSendsWhatItTook(s: System, steps: seq<Step>, cfg: Settings, i: nat)
    requires s.tick.NoTick? && Legal(Apply(s, StartTick, cfg), steps, cfg) && forall k :: 0 <= k < |steps| ==> GoesOn(steps[k])
    requires !Delivering(Run(Apply(s, StartTick, cfg), steps, cfg))
    ensures var t := Run(Apply(s, StartTick, cfg), steps, cfg).tick;
      && t.Ticking? && t.instant == s.now && Distinct(Ids(t.turns)) && InOrder(s.rows, Ids(t.turns))
      && (i in Ids(t.turns) <==> Chosen(s.rows, cfg, s.now, i) && s.rows[i].attempts + 1 < cfg.crashLimit)
      && (i in t.returned <==> Turn(i, true) in t.turns)
  {
    var s1 := Apply(s, StartTick, cfg);
    StepKeepsCourse(s, StartTick, cfg);
    TickGoesOn(s1, steps, cfg);
    PlannedAre(s.rows, cfg, s.now, i);
    var t := Run(s1, steps, cfg).tick;
    assert t.planned == PreWork(s.rows, cfg, s.now).deliveries;
    assert Ids(t.turns) + [] == Ids(t.turns);
    assert t.returned + [] == t.returned;
    SendsAre(t.turns, i);
  }

  // --- A tick over a working channel -----------------------------------------------------------------

  predicate Done(r: Reminder) { r.status == Delivered || r.status == DeliveredLate }

  /** `t` is `s` once the rows in `ids` were delivered. */
  ghost predicate DeliveredAll(s: System, t: System, ids: seq<nat>) {
    && s.tick.Ticking? && |t.rows| == |s.rows| && t.tick.Ticking? && t.tick.sending.None?
    && t.tick.deliveries == [] && !t.tick.reporting
    && t.tick.report == s.tick.report && t.now == s.now && t.tick.instant == s.tick.instant
    && (forall i :: 0 <= i < |s.rows| && i in ids ==> Done(t.rows[i]) && t.rows[i].due == s.rows[i].due)
    && (forall i :: 0 <= i < |s.rows| && i !in ids ==> t.rows[i] == s.rows[i])
  }

  lemma TwoMore(s: System, a: Step, b: Step, rest: seq<Step>, cfg: Settings)
    requires Enabled(s, a) && Enabled(Apply(s, a, cfg), b) && Legal(Apply(Apply(s, a, cfg), b, cfg), rest, cfg)
    ensures Legal(s, [a, b] + rest, cfg) && Run(s, [a, b] + rest, cfg) == Run(Apply(Apply(s, a, cfg), b, cfg), rest, cfg)
  {
    assert ([a, b] + rest)[1..] == [b] + rest && ([b] + rest)[1..] == rest;
    assert Legal(Apply(s, a, cfg), [b] + rest, cfg);
    assert Run(Apply(s, a, cfg), [b] + rest, cfg) == Run(Apply(Apply(s, a, cfg), b, cfg), rest, cfg);
  }

  lemma OneDelivered(s: System, cfg: Settings) returns (u: System)
    requires s.tick.Ticking? && s.tick.sending.None? && !s.tick.reporting && s.tick.deliveries != []
    requires s.tick.deliveries[0] < |s.rows| && s.rows[s.tick.deliveries[0]].status == Pending
    ensures Enabled(s, Dispatch) && Enabled(Apply(s, Dispatch, cfg), SendReturned(SentWhole))
    ensures u == Apply(Apply(s, Dispatch, cfg), SendReturned(SentWhole), cfg)
    ensures var i := s.tick.deliveries[0];
      && |u.rows| == |s.rows| && u.tick.Ticking? && u.tick.sending.None? && !u.tick.reporting
      && u.tick.deliveries == s.tick.deliveries[1..] && u.tick.report == s.tick.report
      && u.now == s.now && u.tick.instant == s.tick.instant
      && Done(u.rows[i]) && u.rows[i].due == s.rows[i].due
      && forall j :: 0 <= j < |s.rows| && j != i ==> u.rows[j] == s.rows[j]
  {
    u := Apply(Apply(s, Dispatch, cfg), SendReturned(SentWhole), cfg);
  }

  lemma {:induction false} DeliversAll(s: System, cfg: Settings) returns (steps: seq<Step>)
    requires s.tick.Ticking? && s.tick.sending.None? && !s.tick.reporting
    requires AllBelow(s.tick.deliveries, |s.rows|) && Distinct(s.tick.deliveries)
    requires forall k :: 0 <= k < |s.tick.deliveries| ==> s.rows[s.tick.deliveries[k]].status == Pending
    ensures Legal(s, steps, cfg) && DeliveredAll(s, Run(s, steps, cfg), s.tick.deliveries)
    decreases |s.tick.deliveries|
  {
    steps := [];
    if s.tick.deliveries != [] {
      var u := OneDelivered(s, cfg);
      var i, rest := s.tick.deliveries[0], s.tick.deliveries[1..];
      forall k | 0 <= k < |rest| ensures rest[k] < |u.rows| && u.rows[rest[k]].status == Pending {
        assert rest[k] == s.tick.deliveries[k + 1];
      }
      var more := DeliversAll(u, cfg);
      steps := [Dispatch, SendReturned(SentWhole)] + more;
      TwoMore(s, Dispatch, SendReturned(SentWhole), more, cfg);
      assert s.tick.deliveries == [i] + rest;
      assert i !in rest;
    }
  }

  /** `t` is what a whole tick over a working channel leaves of `s`. */
  ghost predicate AllToldFrom(s: System, t: System, cfg: Settings) {
    && t.tick.NoTick? && |t.rows| == |s.rows|
    && forall i :: 0 <= i < |s.rows| ==>
         var w := PreWork(s.rows, cfg, s.now);
         && (i in w.deliveries ==> Done(t.rows[i]))
         && (i in w.report ==> t.rows[i].reported && i in t.named)
         && (i !in w.deliveries && i !in w.report ==> t.rows[i] == w.rows[i])
  }

  lemma ReportsAll(s: System, cfg: Settings) returns (steps: seq<Step>)
    requires s.tick.Ticking? && s.tick.sending.None? && s.tick.deliveries == [] && !s.tick.reporting
    ensures Legal(s, steps, cfg)
    ensures var t := Run(s, steps, cfg);
      && t.tick.NoTick? && |t.rows| == |s.rows|
      && (forall i :: 0 <= i < |s.rows| && i in s.tick.report ==> t.rows[i] == s.rows[i].(reported := true, attempts := 0) && i in t.named)
      && (forall i :: 0 <= i < |s.rows| && i !in s.tick.report ==> t.rows[i] == s.rows[i])
  {
    if s.tick.report == [] {
      steps := [EndTick];
      assert steps[1..] == [];
      assert Legal(Apply(s, EndTick, cfg), steps[1..], cfg);
    } else {
      steps := [StartReport, ReportReturned(SentWhole)];
      var u := Apply(s, StartReport, cfg);
      TwoMore(s, StartReport, ReportReturned(SentWhole), [], cfg);
      assert [StartReport, ReportReturned(SentWhole)] + [] == steps;
    }
  }

  lemma {:induction false} RunsOn(s: System, a: seq<Step>, b: seq<Step>, cfg: Settings)
    requires Legal(s, a, cfg) && Legal(Run(s, a, cfg), b, cfg)
    ensures Legal(s, a + b, cfg) && Run(s, a + b, cfg) == Run(Run(s, a, cfg), b, cfg)
    decreases |a|
  {
    if a == [] {
      assert a + b == b;
    } else {
      RunsOn(Apply(s, a[0], cfg), a[1..], b, cfg);
      assert (a + b)[1..] == a[1..] + b;
    }
  }

  /** Over a working channel a tick from any state delivers every row it took, names and settles
  every row it reports, leaves the rest as pre-work did, and ends. */
  lemma WorkingTickTellsAll(s: System, cfg: Settings) returns (steps: seq<Step>)
    requires s.tick.NoTick?
    ensures Legal(Apply(s, StartTick, cfg), steps, cfg)
    ensures AllToldFrom(s, Run(Apply(s, StartTick, cfg), steps, cfg), cfg)
  {
    var s1, w := Apply(s, StartTick, cfg), PreWork(s.rows, cfg, s.now);
    PreWorkIs(s.rows, cfg, s.now);
    PreWorkWF(s.rows, cfg, s.now);
    var a := DeliversAll(s1, cfg);
    var s2 := Run(s1, a, cfg);
    var b := ReportsAll(s2, cfg);
    RunsOn(s1, a, b, cfg);
    steps := a + b;
    forall i | 0 <= i < |s.rows| ensures !(i in w.deliveries && i in w.report) { assert WorkedAs(s.rows, w, cfg, s.now, i); }
  }

  // --- The owner's commands and crashes ------------------------------------------------------------------

  /** A cancelled reminder comes back as it was, to be tried from its due time on. */
  lemma ReinstateUndoesCancel(s: System, i: nat, cfg: Settings)
    requires Enabled(s, Cancel(i))
    ensures var t := Apply(s, Cancel(i), cfg);
      && t == s.(rows := s.rows[i := s.rows[i].(status := Cancelled)])
      && Enabled(t, Reinstate(i))
      && Apply(t, Reinstate(i), cfg) == s.(rows := s.rows[i := s.rows[i].(nextAttempt := s.rows[i].due)])
  {
  }

  /** What is cancelled before its turn is not sent. */
  lemma CancelledIsNotSent(s: System, cfg: Settings)
    requires Enabled(s, Dispatch) && s.rows[s.tick.deliveries[0]].status == Cancelled
    ensures var t := Apply(s, Dispatch, cfg);
      t.tick.sending.None? && t.rows == s.rows && t.tick.deliveries == s.tick.deliveries[1..]
  {
  }

  /** A crash forgets the tick and nothing else, so the next one can start. */
  lemma CrashForgetsTheTick(s: System, cfg: Settings)
    ensures var t := Apply(s, Crash, cfg); t.rows == s.rows && t.now == s.now && Enabled(t, StartTick)
  {
  }
}
