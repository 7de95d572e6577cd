/**
 * Rows of the `subscriptions` and `billing_history` tables
 * (server/src/db.js:66-93) and the pure functions over them that the plan
 * change engine of server/src/routes/subscriptions.js is specified with.
 * Tables are sequences in insertion order.
 */
module Ledger {
  import opened Wrappers
  import opened Catalog

  /** Row identifiers; the source draws them from uuidv4, the model from a counter. */
  type Id = nat

  /** Abstract timestamps from a clock that never runs backwards. */
  type Time = nat

  datatype SubStatus = Active | Cancelled

  /** `next_billing_date`: one calendar month after the start, kept symbolic. */
  datatype BillingDate = OneMonthAfter(start: Time)

  /** A `subscriptions` row; `price` is the catalog price captured at creation. */
  datatype Subscription = Subscription(
    id: Id, userId: Id, plan: Plan, price: nat, status: SubStatus,
    startedAt: Time, nextBillingDate: BillingDate)

  /** The `type` column of `billing_history`. */
  datatype EventType = Upgrade | Downgrade | Cancellation

  /** A `billing_history` row; `subscriptionId` is the nullable foreign key. */
  datatype HistoryEntry = HistoryEntry(
    id: Id, userId: Id, subscriptionId: Option<Id>, amount: nat, plan: Plan,
    eventType: EventType, status: string, createdAt: Time)

  /** The only value the engine ever writes into `billing_history.status`. */
  const Completed: string := "completed"

  // ---------------------------------------------------------------------
  // Active subscriptions of one user

  predicate ActiveFor(s: Subscription, u: Id)
  {
    s.userId == u && s.status == Active
  }

  /** The number of rows with `user_id = u AND status = 'active'`. */
  function ActiveCount(subs: seq<Subscription>, u: Id): nat
    decreases |subs|
  {
    if subs == [] then 0
    else ActiveCount(subs[..|subs| - 1], u) + (if ActiveFor(subs[|subs| - 1], u) then 1 else 0)
  }

  lemma ActiveCountAppend(subs: seq<Subscription>, s: Subscription, u: Id)
    ensures ActiveCount(subs + [s], u) == ActiveCount(subs, u) + (if ActiveFor(s, u) then 1 else 0)
  {
    assert (subs + [s])[..|subs|] == subs;
  }

  /** A user has no active subscription exactly when no row is active for them. */
  lemma {:induction false} ActiveCountZero(subs: seq<Subscription>, u: Id)
    ensures ActiveCount(subs, u) == 0 <==> forall i :: 0 <= i < |subs| ==> !ActiveFor(subs[i], u)
  {
    if subs != [] {
      var n := |subs| - 1;
      ActiveCountZero(subs[..n], u);
      assert forall i :: 0 <= i < n ==> subs[..n][i] == subs[i];
    }
  }

  /**
   * `SELECT ... WHERE user_id = u AND status = 'active' ORDER BY started_at
   * DESC LIMIT 1`, answered with an index: the active row of `u` inserted
   * last, or None when `u` has no active row.
   */
  function NewestActive(subs: seq<Subscription>, u: Id): (r: Option<nat>)
    ensures r.Some? ==> r.value < |subs| && ActiveFor(subs[r.value], u)
    ensures r.Some? ==> forall j :: r.value < j < |subs| ==> !ActiveFor(subs[j], u)
    ensures r.None? <==> forall j :: 0 <= j < |subs| ==> !ActiveFor(subs[j], u)
    decreases |subs|
  {
    if subs == [] then None
    else if ActiveFor(subs[|subs| - 1], u) then Some(|subs| - 1)
    else
      var r := NewestActive(subs[..|subs| - 1], u);
      assert forall j :: 0 <= j < |subs| - 1 ==> subs[..|subs| - 1][j] == subs[j];
      r
  }

  /** Rows are inserted in the order their start times were taken. */
  predicate StartsSorted(subs: seq<Subscription>)
  {
    forall i, j :: 0 <= i < j < |subs| ==> subs[i].startedAt <= subs[j].startedAt
  }

  /**
   * On a table whose start times grow with insertion, the row NewestActive
   * picks started no earlier than any other active row of the user, which
   * is what ordering by `started_at DESC` asks for.
   */
  lemma NewestActiveStartedLast(subs: seq<Subscription>, u: Id, j: nat)
    requires StartsSorted(subs)
    requires j < |subs| && ActiveFor(subs[j], u)
    ensures NewestActive(subs, u).Some?
    ensures subs[j].startedAt <= subs[NewestActive(subs, u).value].startedAt
  {
  }

  /** A user with an active subscription has one that NewestActive finds. */
  lemma NewestActiveFound(subs: seq<Subscription>, u: Id)
    ensures NewestActive(subs, u).Some? <==> ActiveCount(subs, u) > 0
  {
    ActiveCountZero(subs, u);
  }

  // ---------------------------------------------------------------------
  // Identifiers

  predicate DistinctIds(subs: seq<Subscription>)
  {
    forall i, j :: 0 <= i < j < |subs| ==> subs[i].id != subs[j].id
  }

  function SubIds(subs: seq<Subscription>): set<Id>
  {
    set i | 0 <= i < |subs| :: subs[i].id
  }

  // ---------------------------------------------------------------------
  // UPDATE subscriptions SET status = st WHERE id = id

  function SetStatus(subs: seq<Subscription>, id: Id, st: SubStatus): (r: seq<Subscription>)
    ensures |r| == |subs|
    ensures forall i :: 0 <= i < |subs| ==> r[i] == if subs[i].id == id then subs[i].(status := st) else subs[i]
    decreases |subs|
  {
    if subs == [] then []
    else
      var last := subs[|subs| - 1];
      var prefix := SetStatus(subs[..|subs| - 1], id, st);
      prefix + [if last.id == id then last.(status := st) else last]
  }

  /** An update changes neither the set of ids nor the order of the rows. */
  lemma SetStatusKeepsIds(subs: seq<Subscription>, id: Id, st: SubStatus)
    ensures SubIds(SetStatus(subs, id, st)) == SubIds(subs)
    ensures DistinctIds(subs) ==> DistinctIds(SetStatus(subs, id, st))
    ensures StartsSorted(subs) ==> StartsSorted(SetStatus(subs, id, st))
  {
    var r := SetStatus(subs, id, st);
    forall x | x in SubIds(r) ensures x in SubIds(subs) {
      var i :| 0 <= i < |r| && r[i].id == x;
    }
    forall x | x in SubIds(subs) ensures x in SubIds(r) {
      var i :| 0 <= i < |subs| && subs[i].id == x;
      assert r[i].id == x;
    }
  }

  /** Replacing one row changes the count by what that row contributed. */
  lemma {:induction false} ActiveCountOneChanged(a: seq<Subscription>, b: seq<Subscription>, k: nat, v: Id)
    requires |a| == |b| && k < |a|
    requires forall i :: 0 <= i < |a| && i != k ==> a[i] == b[i]
    ensures ActiveCount(b, v) + (if ActiveFor(a[k], v) then 1 else 0)
         == ActiveCount(a, v) + (if ActiveFor(b[k], v) then 1 else 0)
    decreases |a|
  {
    var n := |a| - 1;
    if k == n {
      assert a[..n] == b[..n];
    } else {
      ActiveCountOneChanged(a[..n], b[..n], k, v);
    }
  }

  /**
   * Cancelling the active row `k` by its (unique) id takes one active
   * subscription away from its owner and none from anyone else.
   */
  lemma CancelCount(subs: seq<Subscription>, k: nat, v: Id)
    requires DistinctIds(subs)
    requires k < |subs| && subs[k].status == Active
    ensures ActiveCount(SetStatus(subs, subs[k].id, Cancelled), v)
         == ActiveCount(subs, v) - (if subs[k].userId == v then 1 else 0)
  {
    var r := SetStatus(subs, subs[k].id, Cancelled);
    ActiveCountOneChanged(subs, r, k, v);
  }

  // ---------------------------------------------------------------------
  // What a user's plan says about the ledger

  /**
   * The plan/ledger invariant for user `u`: on the free tier they have no
   * active subscription; on a paid plan exactly one, and every active
   * subscription of theirs is on that plan.
   */
  predicate PlanMatches(plan: Plan, subs: seq<Subscription>, u: Id)
  {
    && ActiveCount(subs, u) == (if plan == Free then 0 else 1)
    && forall i :: 0 <= i < |subs| && ActiveFor(subs[i], u) ==> subs[i].plan == plan
  }

  /** A user nobody's subscription refers to is consistent with the free tier. */
  lemma NoRowsMatchesFree(subs: seq<Subscription>, u: Id)
    requires forall i :: 0 <= i < |subs| ==> subs[i].userId != u
    ensures PlanMatches(Free, subs, u)
  {
    ActiveCountZero(subs, u);
  }

  // ---------------------------------------------------------------------
  // The ledger effect of one plan change (subscriptions.js:62-101)

  /**
   * The subscription a plan change cancels: looked up only when the old plan
   * is paid, and then the newest active one of the user, if there is one.
   */
  function Superseded(subs: seq<Subscription>, u: Id, oldPlan: Plan): (r: Option<nat>)
    ensures r.Some? ==> oldPlan != Free && r.value < |subs| && ActiveFor(subs[r.value], u)
    ensures oldPlan != Free && ActiveCount(subs, u) > 0 ==> r.Some?
  {
    NewestActiveFound(subs, u);
    if oldPlan == Free then None else NewestActive(subs, u)
  }

  /** The row inserted for a paid plan (subscriptions.js:90-93). */
  function Opened(id: Id, u: Id, plan: Plan, now: Time): Subscription
  {
    Subscription(id, u, plan, Price(plan), Active, now, OneMonthAfter(now))
  }

  /** The id the new subscription gets: ids are drawn in order, the cancellation row's first. */
  function NewSubId(subs: seq<Subscription>, u: Id, oldPlan: Plan, next: Id): Id
  {
    if Superseded(subs, u, oldPlan).Some? then next + 1 else next
  }

  /** The subscriptions table once the superseded row, if any, is cancelled. */
  function Closed(subs: seq<Subscription>, u: Id, oldPlan: Plan): seq<Subscription>
  {
    match Superseded(subs, u, oldPlan)
    case None => subs
    case Some(k) => SetStatus(subs, subs[k].id, Cancelled)
  }

  /** Closing touches at most the superseded row, and only its status. */
  lemma ClosedShape(subs: seq<Subscription>, u: Id, oldPlan: Plan)
    requires DistinctIds(subs)
    ensures var c := Closed(subs, u, oldPlan);
      && |c| == |subs|
      && forall i :: 0 <= i < |subs| ==>
           c[i] == if Superseded(subs, u, oldPlan) == Some(i) then subs[i].(status := Cancelled) else subs[i]
  {
    match Superseded(subs, u, oldPlan)
    case None =>
    case Some(k) =>
      var c := SetStatus(subs, subs[k].id, Cancelled);
      forall i | 0 <= i < |subs| ensures c[i] == if i == k then subs[i].(status := Cancelled) else subs[i] {
        if i != k {
          assert subs[i].id != subs[k].id;
        }
      }
  }

  /** The subscriptions table after a change from `oldPlan` to `newPlan`. */
  function LedgerAfter(subs: seq<Subscription>, u: Id, oldPlan: Plan, newPlan: Plan, newId: Id, now: Time): seq<Subscription>
  {
    var closed := Closed(subs, u, oldPlan);
    if newPlan == Free then closed else closed + [Opened(newId, u, newPlan, now)]
  }

  /**
   * Exactly the superseded row becomes cancelled, no other existing row
   * changes, and a paid plan appends one active row at its catalog price.
   */
  lemma LedgerAfterEffect(subs: seq<Subscription>, u: Id, oldPlan: Plan, newPlan: Plan, newId: Id, now: Time)
    requires DistinctIds(subs)
    ensures var r := LedgerAfter(subs, u, oldPlan, newPlan, newId, now);
      && |r| == |subs| + (if newPlan == Free then 0 else 1)
      && (forall i :: 0 <= i < |subs| ==>
            r[i] == if Superseded(subs, u, oldPlan) == Some(i) then subs[i].(status := Cancelled) else subs[i])
      && (newPlan != Free ==> r[|subs|] == Opened(newId, u, newPlan, now) && r[|subs|].price == Price(newPlan))
  {
    ClosedShape(subs, u, oldPlan);
  }

  /** Appending a row with a fresh id keeps the ids distinct and adds that id. */
  lemma AppendFreshId(c: seq<Subscription>, s: Subscription)
    requires DistinctIds(c) && s.id !in SubIds(c)
    ensures DistinctIds(c + [s]) && SubIds(c + [s]) == SubIds(c) + {s.id}
  {
    var r := c + [s];
    forall i | 0 <= i < |c| ensures c[i].id != s.id {
      assert c[i].id in SubIds(c);
    }
    forall x | x in SubIds(r) ensures x in SubIds(c) + {s.id} {
      var i :| 0 <= i < |r| && r[i].id == x;
      if i < |c| { assert c[i].id == x; }
    }
    forall x | x in SubIds(c) ensures x in SubIds(r) {
      var i :| 0 <= i < |c| && c[i].id == x;
      assert r[i].id == x;
    }
    assert r[|c|].id == s.id;
  }

  /** A change leaves the ids distinct when the new id is fresh. */
  lemma LedgerAfterIds(subs: seq<Subscription>, u: Id, oldPlan: Plan, newPlan: Plan, newId: Id, now: Time)
    requires DistinctIds(subs) && newId !in SubIds(subs)
    ensures var r := LedgerAfter(subs, u, oldPlan, newPlan, newId, now);
      DistinctIds(r) && SubIds(r) == SubIds(subs) + (if newPlan == Free then {} else {newId})
  {
    var k := Superseded(subs, u, oldPlan);
    var closed := Closed(subs, u, oldPlan);
    if k.Some? {
      SetStatusKeepsIds(subs, subs[k.value].id, Cancelled);
    }
    assert DistinctIds(closed) && SubIds(closed) == SubIds(subs);
    if newPlan != Free {
      AppendFreshId(closed, Opened(newId, u, newPlan, now));
    }
  }

  /** Closing leaves a user whose plan matched the ledger without any active subscription. */
  lemma ClosedClearsUser(subs: seq<Subscription>, u: Id, oldPlan: Plan)
    requires DistinctIds(subs) && PlanMatches(oldPlan, subs, u)
    ensures var c := Closed(subs, u, oldPlan);
      ActiveCount(c, u) == 0 && forall i :: 0 <= i < |c| ==> !ActiveFor(c[i], u)
  {
    var k := Superseded(subs, u, oldPlan);
    if k.Some? {
      CancelCount(subs, k.value, u);
    }
    ActiveCountZero(Closed(subs, u, oldPlan), u);
  }

  /** Opening the new plan on a user without active subscriptions makes their plan match. */
  lemma OpenedMatches(c: seq<Subscription>, u: Id, newPlan: Plan, newId: Id, now: Time)
    requires forall i :: 0 <= i < |c| ==> !ActiveFor(c[i], u)
    ensures PlanMatches(newPlan, if newPlan == Free then c else c + [Opened(newId, u, newPlan, now)], u)
  {
    ActiveCountZero(c, u);
    if newPlan != Free {
      ActiveCountAppend(c, Opened(newId, u, newPlan, now), u);
    }
  }

  /** A change keeps the plan/ledger invariant of the user it is for. */
  lemma LedgerAfterKeepsPlanMatch(subs: seq<Subscription>, u: Id, oldPlan: Plan, newPlan: Plan, newId: Id, now: Time)
    requires DistinctIds(subs)
    requires PlanMatches(oldPlan, subs, u)
    ensures PlanMatches(newPlan, LedgerAfter(subs, u, oldPlan, newPlan, newId, now), u)
  {
    ClosedClearsUser(subs, u, oldPlan);
    OpenedMatches(Closed(subs, u, oldPlan), u, newPlan, newId, now);
  }

  /**
   * Two tables that agree on which rows are active for `v`, and on the plan
   * of those rows, agree on `v`'s plan/ledger invariant.
   */
  lemma SameActiveRows(a: seq<Subscription>, b: seq<Subscription>, v: Id, plan: Plan)
    requires |a| <= |b|
    requires ActiveCount(a, v) == ActiveCount(b, v)
    requires forall i :: 0 <= i < |a| ==> (ActiveFor(b[i], v) <==> ActiveFor(a[i], v))
    requires forall i :: 0 <= i < |a| && ActiveFor(a[i], v) ==> b[i].plan == a[i].plan
    requires forall i :: |a| <= i < |b| ==> !ActiveFor(b[i], v)
    ensures PlanMatches(plan, a, v) <==> PlanMatches(plan, b, v)
  {
  }

  /** Closing a subscription of `u` changes nothing about another user's active rows. */
  lemma ClosedFramesOthers(subs: seq<Subscription>, u: Id, v: Id, oldPlan: Plan)
    requires DistinctIds(subs) && u != v
    ensures var c := Closed(subs, u, oldPlan);
      && |c| == |subs|
      && ActiveCount(c, v) == ActiveCount(subs, v)
      && forall i :: 0 <= i < |subs| ==> (ActiveFor(c[i], v) <==> ActiveFor(subs[i], v)) && c[i].plan == subs[i].plan
  {
    ClosedShape(subs, u, oldPlan);
    var k := Superseded(subs, u, oldPlan);
    if k.Some? {
      CancelCount(subs, k.value, v);
    }
  }

  /** A change for `u` leaves the plan/ledger invariant of every other user as it was. */
  lemma LedgerAfterFramesOthers(subs: seq<Subscription>, u: Id, v: Id, plan: Plan,
                                oldPlan: Plan, newPlan: Plan, newId: Id, now: Time)
    requires DistinctIds(subs) && u != v
    ensures var r := LedgerAfter(subs, u, oldPlan, newPlan, newId, now);
      ActiveCount(r, v) == ActiveCount(subs, v) && (PlanMatches(plan, r, v) <==> PlanMatches(plan, subs, v))
  {
    var closed := Closed(subs, u, oldPlan);
    ClosedFramesOthers(subs, u, v, oldPlan);
    var r := LedgerAfter(subs, u, oldPlan, newPlan, newId, now);
    if newPlan != Free {
      var s := Opened(newId, u, newPlan, now);
      assert r == closed + [s];
      ActiveCountAppend(closed, s, v);
      assert forall i :: 0 <= i < |closed| ==> r[i] == closed[i];
    } else {
      assert r == closed;
    }
    SameActiveRows(subs, r, v, plan);
  }

  // ---------------------------------------------------------------------
  // The history rows of one plan change (subscriptions.js:75-108)

  /** The cancellation row a change appends when it cancels a subscription (subscriptions.js:75-79). */
  function CancellationEntries(subs: seq<Subscription>, u: Id, oldPlan: Plan, next: Id, now: Time): seq<HistoryEntry>
  {
    match Superseded(subs, u, oldPlan)
    case None => []
    case Some(k) => [HistoryEntry(next, u, Some(subs[k].id), Price(oldPlan), oldPlan, Cancellation, Completed, now)]
  }

  /**
   * The row that records the new plan: an upgrade referring to the new
   * subscription `subId` (subscriptions.js:95-99), or for the free plan a
   * downgrade without one, whose id is then `subId` (subscriptions.js:103-107).
   */
  function OpeningEntry(u: Id, newPlan: Plan, subId: Id, now: Time): HistoryEntry
  {
    if newPlan == Free then HistoryEntry(subId, u, None, 0, Free, Downgrade, Completed, now)
    else HistoryEntry(subId + 1, u, Some(subId), Price(newPlan), newPlan, Upgrade, Completed, now)
  }

  /**
   * The `billing_history` rows one change appends, with ids drawn from the
   * counter value `next` in the order the source calls uuidv4.
   */
  function ChangeEntries(subs: seq<Subscription>, u: Id, oldPlan: Plan, newPlan: Plan, next: Id, now: Time): seq<HistoryEntry>
  {
    CancellationEntries(subs, u, oldPlan, next, now) + [OpeningEntry(u, newPlan, NewSubId(subs, u, oldPlan, next), now)]
  }

  /** How many ids one change draws from the counter. */
  function IdsUsed(subs: seq<Subscription>, u: Id, oldPlan: Plan, newPlan: Plan): nat
  {
    (if Superseded(subs, u, oldPlan).Some? then 1 else 0) + (if newPlan == Free then 1 else 2)
  }

  /**
   * Every change appends one or two completed rows for its user: a
   * cancellation of the old paid plan at its price, referring to the
   * cancelled subscription, exactly when one was cancelled; then an upgrade
   * at the new plan's price referring to the new subscription, or a
   * downgrade to free with amount 0 and no subscription.
   */
  lemma ChangeEntriesShape(subs: seq<Subscription>, u: Id, oldPlan: Plan, newPlan: Plan, next: Id, now: Time)
    ensures var r := ChangeEntries(subs, u, oldPlan, newPlan, next, now);
      var k := Superseded(subs, u, oldPlan);
      && 1 <= |r| <= 2
      && (|r| == 2 <==> k.Some?)
      && (oldPlan == Free ==> |r| == 1 && r[0].eventType != Cancellation)
      && (forall i :: 0 <= i < |r| ==>
            r[i].status == Completed && r[i].userId == u && r[i].createdAt == now && r[i].amount == Price(r[i].plan))
      && (k.Some? ==> r[0] == HistoryEntry(next, u, Some(subs[k.value].id), Price(oldPlan), oldPlan, Cancellation, Completed, now))
      && r[|r| - 1].plan == newPlan
      && (newPlan != Free ==>
            r[|r| - 1].eventType == Upgrade && r[|r| - 1].amount == Price(newPlan) &&
            r[|r| - 1].subscriptionId == Some(NewSubId(subs, u, oldPlan, next)))
      && (newPlan == Free ==>
            r[|r| - 1].eventType == Downgrade && r[|r| - 1].amount == 0 && r[|r| - 1].subscriptionId == None)
  {
  }

  /**
   * Re-selecting the current paid plan is not short-circuited: the active
   * subscription is cancelled and a new one opened, with two history rows.
   */
  lemma ReselectPaidChurns(subs: seq<Subscription>, u: Id, p: Plan, next: Id, now: Time)
    requires p != Free && PlanMatches(p, subs, u)
    ensures Superseded(subs, u, p).Some?
    ensures var r := ChangeEntries(subs, u, p, p, next, now);
      |r| == 2 && r[0].eventType == Cancellation && r[1].eventType == Upgrade && r[0].plan == p && r[1].plan == p
  {
  }

  /**
   * The worked example of a user on free who moves to pro and then to ultra,
   * starting from an empty table with `n` as the next id.
   */
  lemma UpgradeExample(u: Id, n: Id, t1: Time, t2: Time)
    ensures var s1 := LedgerAfter([], u, Free, Pro, n, t1);
      && s1 == [Subscription(n, u, Pro, 1999, Active, t1, OneMonthAfter(t1))]
      && ChangeEntries([], u, Free, Pro, n, t1) == [HistoryEntry(n + 1, u, Some(n), 1999, Pro, Upgrade, Completed, t1)]
      && IdsUsed([], u, Free, Pro) == 2
      && NewSubId(s1, u, Pro, n + 2) == n + 3
      && LedgerAfter(s1, u, Pro, Ultra, n + 3, t2)
         == [s1[0].(status := Cancelled), Subscription(n + 3, u, Ultra, 19999, Active, t2, OneMonthAfter(t2))]
      && ChangeEntries(s1, u, Pro, Ultra, n + 2, t2)
         == [HistoryEntry(n + 2, u, Some(n), 1999, Pro, Cancellation, Completed, t2),
             HistoryEntry(n + 4, u, Some(n + 3), 19999, Ultra, Upgrade, Completed, t2)]
  {
    var s1 := LedgerAfter([], u, Free, Pro, n, t1);
    assert s1 == [Opened(n, u, Pro, t1)];
    assert NewestActive(s1, u) == Some(0);
    assert Superseded(s1, u, Pro) == Some(0);
  }

  // ---------------------------------------------------------------------
  // GET /history (subscriptions.js:129-132)

  /** The rows of user `u`, in insertion order. */
  function OfUser(h: seq<HistoryEntry>, u: Id): (r: seq<HistoryEntry>)
    ensures forall e :: e in r <==> e in h && e.userId == u
    ensures |r| <= |h|
    decreases |h|
  {
    if h == [] then []
    else
      var prefix := OfUser(h[..|h| - 1], u);
      var last := h[|h| - 1];
      assert h == h[..|h| - 1] + [last];
      if last.userId == u then prefix + [last] else prefix
  }

  /** A history that holds only rows of `u` is listed whole. */
  lemma {:induction false} OfUserAll(h: seq<HistoryEntry>, u: Id)
    requires forall i :: 0 <= i < |h| ==> h[i].userId == u
    ensures OfUser(h, u) == h
    decreases |h|
  {
    if h != [] {
      OfUserAll(h[..|h| - 1], u);
      assert h == h[..|h| - 1] + [h[|h| - 1]];
    }
  }

  /** Selecting one user's rows works piecewise on a concatenation, keeping the order of each part. */
  lemma {:induction false} OfUserAppend(h1: seq<HistoryEntry>, h2: seq<HistoryEntry>, u: Id)
    ensures OfUser(h1 + h2, u) == OfUser(h1, u) + OfUser(h2, u)
    decreases |h2|
  {
    if h2 == [] {
      assert h1 + h2 == h1;
    } else {
      var init := h2[..|h2| - 1];
      assert (h1 + h2)[..|h1 + h2| - 1] == h1 + init;
      assert (h1 + h2)[|h1 + h2| - 1] == h2[|h2| - 1];
      OfUserAppend(h1, init, u);
    }
  }

  /** Every row of `u` is kept as often as it occurs, and no row of another user is kept. */
  lemma {:induction false} OfUserCount(h: seq<HistoryEntry>, u: Id, e: HistoryEntry)
    ensures multiset(OfUser(h, u))[e] == if e.userId == u then multiset(h)[e] else 0
    decreases |h|
  {
    if h != [] {
      var init := h[..|h| - 1];
      OfUserCount(init, u, e);
      assert h == init + [h[|h| - 1]];
      assert multiset(h) == multiset(init) + multiset{h[|h| - 1]};
    }
  }

  function Reverse<T>(s: seq<T>): (r: seq<T>)
    ensures |r| == |s|
    ensures forall i :: 0 <= i < |s| ==> r[i] == s[|s| - 1 - i]
    decreases |s|
  {
    if s == [] then [] else [s[|s| - 1]] + Reverse(s[..|s| - 1])
  }

  predicate CreatedSorted(h: seq<HistoryEntry>)
  {
    forall i, j :: 0 <= i < j < |h| ==> h[i].createdAt <= h[j].createdAt
  }

  /** Selecting the rows of one user keeps them in timestamp order. */
  lemma {:induction false} OfUserSorted(h: seq<HistoryEntry>, u: Id)
    requires CreatedSorted(h)
    ensures CreatedSorted(OfUser(h, u))
    decreases |h|
  {
    if h != [] {
      var n := |h| - 1;
      assert CreatedSorted(h[..n]);
      OfUserSorted(h[..n], u);
      var prefix := OfUser(h[..n], u);
      if h[n].userId == u {
        forall i | 0 <= i < |prefix| ensures prefix[i].createdAt <= h[n].createdAt {
          assert prefix[i] in h[..n];
        }
      }
    }
  }

  /** Reversing never loses or duplicates a row. */
  lemma {:induction false} ReverseMultiset<T>(s: seq<T>)
    ensures multiset(Reverse(s)) == multiset(s)
    decreases |s|
  {
    if s != [] {
      var n := |s| - 1;
      ReverseMultiset(s[..n]);
      assert s == s[..n] + [s[n]];
    }
  }

  // ---------------------------------------------------------------------
  // Well-formed tables: schema defaults, foreign keys, fresh ids, timestamps

  /** A subscription row as the engine writes it. */
  predicate SubRowOk(s: Subscription, users: set<Id>, next: Id, clock: Time)
  {
    && s.id < next && s.userId in users
    && s.plan != Free && s.price == Price(s.plan)
    && s.startedAt <= clock && s.nextBillingDate == OneMonthAfter(s.startedAt)
  }

  predicate SubsValid(subs: seq<Subscription>, users: set<Id>, next: Id, clock: Time)
  {
    && DistinctIds(subs) && StartsSorted(subs)
    && forall i :: 0 <= i < |subs| ==> SubRowOk(subs[i], users, next, clock)
  }

  /** A history row as the engine writes it: a completed event at its plan's price. */
  predicate EntryRowOk(e: HistoryEntry, users: set<Id>, subIds: set<Id>, next: Id, clock: Time)
  {
    && e.id < next && e.userId in users
    && e.status == Completed && e.amount == Price(e.plan) && e.createdAt <= clock
    && (e.subscriptionId.Some? ==> e.subscriptionId.value in subIds)
    && (e.subscriptionId.None? <==> e.eventType == Downgrade)
    && (e.eventType == Downgrade <==> e.plan == Free)
  }

  predicate EntriesValid(h: seq<HistoryEntry>, users: set<Id>, subIds: set<Id>, next: Id, clock: Time)
  {
    && (forall i, j :: 0 <= i < j < |h| ==> h[i].id != h[j].id)
    && CreatedSorted(h)
    && forall i :: 0 <= i < |h| ==> EntryRowOk(h[i], users, subIds, next, clock)
  }

  /** More users, a later counter and a later clock keep the tables well formed. */
  lemma ValidGrows(subs: seq<Subscription>, h: seq<HistoryEntry>, users: set<Id>, users': set<Id>,
                   next: Id, next': Id, clock: Time, clock': Time)
    requires users <= users' && next <= next' && clock <= clock'
    requires SubsValid(subs, users, next, clock) && EntriesValid(h, users, SubIds(subs), next, clock)
    ensures SubsValid(subs, users', next', clock') && EntriesValid(h, users', SubIds(subs), next', clock')
  {
    assert forall i :: 0 <= i < |subs| ==> SubRowOk(subs[i], users', next', clock');
    assert forall i :: 0 <= i < |h| ==> EntryRowOk(h[i], users', SubIds(subs), next', clock');
  }

  /** Closing a subscription keeps the subscriptions table well formed. */
  lemma ClosedValid(subs: seq<Subscription>, users: set<Id>, next: Id, clock: Time, u: Id, oldPlan: Plan)
    requires SubsValid(subs, users, next, clock)
    ensures var c := Closed(subs, u, oldPlan);
      SubsValid(c, users, next, clock) && SubIds(c) == SubIds(subs)
  {
    ClosedShape(subs, u, oldPlan);
    var k := Superseded(subs, u, oldPlan);
    if k.Some? {
      SetStatusKeepsIds(subs, subs[k.value].id, Cancelled);
    }
    var c := Closed(subs, u, oldPlan);
    forall i | 0 <= i < |c| ensures SubRowOk(c[i], users, next, clock) {
      assert SubRowOk(subs[i], users, next, clock);
    }
  }

  /** Appending a row stamped now, with a fresh id, keeps the table well formed. */
  lemma AppendValid(c: seq<Subscription>, s: Subscription, users: set<Id>, next: Id, next': Id, clock: Time)
    requires SubsValid(c, users, next, clock)
    requires next <= s.id < next' && SubRowOk(s, users, next', clock) && s.startedAt == clock
    ensures SubsValid(c + [s], users, next', clock) && SubIds(c + [s]) == SubIds(c) + {s.id}
  {
    forall i | 0 <= i < |c| ensures c[i].id != s.id {
      assert SubRowOk(c[i], users, next, clock);
    }
    assert s.id !in SubIds(c);
    AppendFreshId(c, s);
    var r := c + [s];
    forall i | 0 <= i < |r| ensures SubRowOk(r[i], users, next', clock) {
      if i < |c| {
        assert SubRowOk(c[i], users, next, clock);
      }
    }
    forall i, j | 0 <= i < j < |r| ensures r[i].startedAt <= r[j].startedAt {
      if j < |c| {
        assert r[i] == c[i] && r[j] == c[j];
      } else {
        assert SubRowOk(c[i], users, next, clock);
      }
    }
  }

  /** A plan change of an existing user keeps the subscriptions table well formed. */
  lemma LedgerAfterValid(subs: seq<Subscription>, users: set<Id>, next: Id, clock: Time,
                         u: Id, oldPlan: Plan, newPlan: Plan)
    requires SubsValid(subs, users, next, clock) && u in users
    ensures var r := LedgerAfter(subs, u, oldPlan, newPlan, NewSubId(subs, u, oldPlan, next), clock);
      SubsValid(r, users, next + IdsUsed(subs, u, oldPlan, newPlan), clock)
      && SubIds(r) == SubIds(subs) + (if newPlan == Free then {} else {NewSubId(subs, u, oldPlan, next)})
  {
    var newId := NewSubId(subs, u, oldPlan, next);
    var next' := next + IdsUsed(subs, u, oldPlan, newPlan);
    var c := Closed(subs, u, oldPlan);
    ClosedValid(subs, users, next, clock, u, oldPlan);
    if newPlan != Free {
      AppendValid(c, Opened(newId, u, newPlan, clock), users, next, next', clock);
    } else {
      forall i | 0 <= i < |c| ensures SubRowOk(c[i], users, next', clock) {
        assert SubRowOk(c[i], users, next, clock);
      }
    }
  }

  /** The rows a plan change appends keep the history table well formed. */
  lemma ChangeEntriesValid(subs: seq<Subscription>, h: seq<HistoryEntry>, users: set<Id>, next: Id, clock: Time,
                           u: Id, oldPlan: Plan, newPlan: Plan)
    requires SubsValid(subs, users, next, clock) && EntriesValid(h, users, SubIds(subs), next, clock)
    requires u in users
    ensures var subIds := SubIds(subs) + (if newPlan == Free then {} else {NewSubId(subs, u, oldPlan, next)});
      EntriesValid(h + ChangeEntries(subs, u, oldPlan, newPlan, next, clock), users, subIds,
                   next + IdsUsed(subs, u, oldPlan, newPlan), clock)
  {
    var subIds := SubIds(subs) + (if newPlan == Free then {} else {NewSubId(subs, u, oldPlan, next)});
    var next' := next + IdsUsed(subs, u, oldPlan, newPlan);
    var added := ChangeEntries(subs, u, oldPlan, newPlan, next, clock);
    var r := h + added;
    ChangeEntriesShape(subs, u, oldPlan, newPlan, next, clock);
    var k := Superseded(subs, u, oldPlan);
    if k.Some? {
      assert subs[k.value].id in SubIds(subs);
    }
    forall i | 0 <= i < |added| ensures EntryRowOk(added[i], users, subIds, next', clock) && next <= added[i].id {
    }
    forall i | 0 <= i < |r| ensures EntryRowOk(r[i], users, subIds, next', clock) {
      if i < |h| {
        assert EntryRowOk(h[i], users, SubIds(subs), next, clock);
      } else {
        assert r[i] == added[i - |h|];
      }
    }
    forall i, j | 0 <= i < j < |r| ensures r[i].id != r[j].id && r[i].createdAt <= r[j].createdAt {
      if j < |h| {
        assert r[i] == h[i] && r[j] == h[j];
      } else if i < |h| {
        assert EntryRowOk(h[i], users, SubIds(subs), next, clock);
        assert r[j] == added[j - |h|];
      } else {
        assert r[i] == added[i - |h|] && r[j] == added[j - |h|];
      }
    }
  }
}
