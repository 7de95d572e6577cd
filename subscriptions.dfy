/**
 * The subscription routes of server/src/routes/subscriptions.js over the
 * three tables `users`, `subscriptions` and `billing_history`, held by one
 * store object. The id counter stands in for uuidv4 and `clock` for the
 * database's CURRENT_TIMESTAMP; every row one request writes carries the
 * same timestamp.
 */
module Subscriptions {
  import opened Wrappers
  import opened Catalog
  import opened Ledger

  /** The handled failures of the routes, with the body and status they answer with. */
  datatype Error = InvalidPlan | UserNotFound

  /** The `error` text of the JSON body. */
  function Message(e: Error): string
  {
    match e
    case InvalidPlan => "Invalid plan"
    case UserNotFound => "User not found"
  }

  /** The HTTP status code of the response. */
  function HttpStatus(e: Error): nat
  {
    match e
    case InvalidPlan => 400
    case UserNotFound => 404
  }

  /** Both failures are client errors, and a client can tell them apart by status or by text alone. */
  lemma ErrorResponsesDistinct(e1: Error, e2: Error)
    ensures 400 <= HttpStatus(e1) < 500
    ensures HttpStatus(e1) == HttpStatus(e2) ==> e1 == e2
    ensures Message(e1) == Message(e2) ==> e1 == e2
  {
  }

  /** The JSON body of a successful `POST /upgrade`. */
  datatype Changed = Changed(message: string, plan: Plan, details: PlanDetails, subscription: Option<Subscription>)

  /** The JSON body of `GET /current`. */
  datatype CurrentView = CurrentView(plan: Plan, details: PlanDetails, subscription: Option<Subscription>)

  function SuccessMessage(key: string): string
  {
    "Successfully upgraded to " + key
  }

  /**
   * The body check `!newPlan || !PLANS[newPlan]` with an own-key lookup:
   * a missing key and any string that is not a catalog key are refused.
   */
  function RequestedPlan(requested: Option<string>): (r: Option<Plan>)
    ensures r.Some? <==> requested.Some? && exists p: Plan :: Key(p) == requested.value
    ensures r.Some? ==> Key(r.value) == requested.value
  {
    if requested.None? then None
    else
      LookupIsIntendedGuard(requested.value);
      Lookup(requested.value)
  }

  /** Well-formed tables: fresh-id counter, foreign keys, row shapes, timestamp order. */
  predicate TablesValid(users: map<Id, Plan>, subs: seq<Subscription>, h: seq<HistoryEntry>, next: Id, clock: Time)
  {
    && (forall u :: u in users ==> u < next)
    && SubsValid(subs, users.Keys, next, clock)
    && EntriesValid(h, users.Keys, SubIds(subs), next, clock)
  }

  /** Every user's plan agrees with their active subscriptions. */
  predicate PlansMatch(users: map<Id, Plan>, subs: seq<Subscription>)
  {
    forall u :: u in users ==> PlanMatches(users[u], subs, u)
  }

  /** A successful plan change keeps the tables well formed. */
  lemma ChangeKeepsTablesValid(users: map<Id, Plan>, subs: seq<Subscription>, h: seq<HistoryEntry>, next: Id, clock: Time,
                               u: Id, newPlan: Plan)
    requires TablesValid(users, subs, h, next, clock) && u in users
    ensures var oldPlan := users[u];
      TablesValid(users[u := newPlan],
                  LedgerAfter(subs, u, oldPlan, newPlan, NewSubId(subs, u, oldPlan, next), clock),
                  h + ChangeEntries(subs, u, oldPlan, newPlan, next, clock),
                  next + IdsUsed(subs, u, oldPlan, newPlan), clock)
  {
    var oldPlan := users[u];
    LedgerAfterValid(subs, users.Keys, next, clock, u, oldPlan, newPlan);
    ChangeEntriesValid(subs, h, users.Keys, next, clock, u, oldPlan, newPlan);
    assert users[u := newPlan].Keys == users.Keys;
  }

  /**
   * A successful plan change keeps the changed user's plan/ledger invariant
   * when it held before, and keeps that of every other user.
   */
  lemma ChangeKeepsPlansMatch(users: map<Id, Plan>, subs: seq<Subscription>, u: Id, newPlan: Plan, newId: Id, now: Time)
    requires DistinctIds(subs) && u in users
    ensures var subs' := LedgerAfter(subs, u, users[u], newPlan, newId, now);
      && (PlanMatches(users[u], subs, u) ==> PlanMatches(newPlan, subs', u))
      && (PlansMatch(users, subs) ==> PlansMatch(users[u := newPlan], subs'))
  {
    var oldPlan := users[u];
    var users' := users[u := newPlan];
    var subs' := LedgerAfter(subs, u, oldPlan, newPlan, newId, now);
    if PlanMatches(oldPlan, subs, u) {
      LedgerAfterKeepsPlanMatch(subs, u, oldPlan, newPlan, newId, now);
    }
    if PlansMatch(users, subs) {
      forall v | v in users' ensures PlanMatches(users'[v], subs', v) {
        if v == u {
          LedgerAfterKeepsPlanMatch(subs, u, oldPlan, newPlan, newId, now);
        } else {
          LedgerAfterFramesOthers(subs, u, v, users[v], oldPlan, newPlan, newId, now);
        }
      }
    }
  }

  class Store {
    /** `users.plan` by user id. */
    var users: map<Id, Plan>
    var subscriptions: seq<Subscription>
    var history: seq<HistoryEntry>
    /** The next id to hand out. */
    var nextId: Id
    /** The current time of the injected clock. */
    var clock: Time

    ghost predicate Valid()
      reads this
    {
      TablesValid(users, subscriptions, history, nextId, clock)
    }

    ghost predicate AllMatch()
      reads this
    {
      PlansMatch(users, subscriptions)
    }

    constructor ()
      ensures Valid() && AllMatch()
      ensures users == map[] && subscriptions == [] && history == [] && nextId == 0 && clock == 0
    {
      users, subscriptions, history := map[], [], [];
      nextId, clock := 0, 0;
    }

    /** Signing up inserts a user on the free plan (server/src/routes/auth.js:28-31). */
    method Register() returns (u: Id)
      requires Valid()
      modifies this
      ensures Valid()
      ensures u !in old(users) && users == old(users)[u := Free]
      ensures u == old(nextId) && nextId == old(nextId) + 1
      ensures subscriptions == old(subscriptions) && history == old(history) && clock == old(clock)
      ensures PlanMatches(Free, subscriptions, u)
      ensures old(AllMatch()) ==> AllMatch()
    {
      u := nextId;
      ghost var before := AllMatch();
      forall i | 0 <= i < |subscriptions| ensures subscriptions[i].userId != u {
        assert SubRowOk(subscriptions[i], users.Keys, nextId, clock);
      }
      NoRowsMatchesFree(subscriptions, u);
      ValidGrows(subscriptions, history, users.Keys, users.Keys + {u}, nextId, nextId + 1, clock, clock);
      users := users[u := Free];
      nextId := nextId + 1;
      assert users.Keys == old(users).Keys + {u};
    }

    /** Time passes on the injected clock. */
    method Tick(elapsed: nat)
      requires Valid()
      modifies this`clock
      ensures Valid() && clock == old(clock) + elapsed
    {
      ValidGrows(subscriptions, history, users.Keys, users.Keys, nextId, nextId, clock, clock + elapsed);
      clock := clock + elapsed;
    }

    /**
     * `GET /current` (subscriptions.js:21-44): the user's plan with its
     * catalog details and their newest active subscription, if any.
     */
    method Current(u: Id) returns (r: Result<CurrentView, Error>)
      requires Valid()
      ensures r.Err? <==> u !in users
      ensures r.Err? ==> r.error == UserNotFound && HttpStatus(r.error) == 404 && Message(r.error) == "User not found"
      ensures r.Ok? ==> r.value.plan == users[u] && r.value.details == Details(users[u])
      ensures r.Ok? && r.value.subscription.None? ==>
        forall i :: 0 <= i < |subscriptions| ==> !ActiveFor(subscriptions[i], u)
      ensures r.Ok? && r.value.subscription.Some? ==>
        var s := r.value.subscription.value;
        s in subscriptions && ActiveFor(s, u) &&
        forall t :: t in subscriptions && ActiveFor(t, u) ==> t.startedAt <= s.startedAt
      ensures r.Ok? && PlanMatches(users[u], subscriptions, u) ==>
        (r.value.subscription.Some? <==> users[u] != Free) &&
        (r.value.subscription.Some? ==>
          r.value.subscription.value.plan == users[u] && r.value.subscription.value.price == Price(users[u]))
    {
      if u !in users {
        return Err(UserNotFound);
      }
      var plan := users[u];
      var newest := NewestActive(subscriptions, u);
      var subscription: Option<Subscription> := None;
      if newest.Some? {
        subscription := Some(subscriptions[newest.value]);
        forall t | t in subscriptions && ActiveFor(t, u)
          ensures t.startedAt <= subscriptions[newest.value].startedAt
        {
          var j :| 0 <= j < |subscriptions| && subscriptions[j] == t;
          NewestActiveStartedLast(subscriptions, u, j);
        }
        assert SubRowOk(subscriptions[newest.value], users.Keys, nextId, clock);
      }
      NewestActiveFound(subscriptions, u);
      r := Ok(CurrentView(plan, Details(plan), subscription));
    }

    /**
     * `GET /history` (subscriptions.js:126-139): the user's billing rows,
     * newest first; rows with equal timestamps come latest-inserted first.
     */
    method History(u: Id) returns (rows: seq<HistoryEntry>)
      requires Valid()
      ensures rows == Reverse(OfUser(history, u))
      ensures forall e :: e in rows <==> e in history && e.userId == u
      ensures multiset(rows) == multiset(OfUser(history, u))
      ensures forall e :: multiset(rows)[e] == if e.userId == u then multiset(history)[e] else 0
      ensures forall i, j :: 0 <= i < j < |rows| ==> rows[i].createdAt >= rows[j].createdAt
    {
      var mine := OfUser(history, u);
      OfUserSorted(history, u);
      ReverseMultiset(mine);
      rows := Reverse(mine);
      forall e
        ensures multiset(rows)[e] == if e.userId == u then multiset(history)[e] else 0
        ensures e in rows <==> e in history && e.userId == u
      {
        OfUserCount(history, u, e);
      }
    }

    /**
     * `POST /upgrade` (subscriptions.js:47-123): move user `u` to the
     * requested plan. A paid old plan's newest active subscription is
     * cancelled and logged; a paid new plan opens a subscription and logs
     * an upgrade, the free plan logs a downgrade; then `users.plan` is set.
     * Re-selecting the current plan is not short-circuited.
     */
    method ChangePlan(u: Id, requested: Option<string>) returns (r: Result<Changed, Error>)
      requires Valid()
      modifies this
      ensures Valid()
      ensures r.Ok? <==> RequestedPlan(requested).Some? && u in old(users)
      ensures RequestedPlan(requested).None? ==> r == Err(InvalidPlan)
      ensures RequestedPlan(requested).Some? && u !in old(users) ==> r == Err(UserNotFound)
      ensures r.Err? ==> HttpStatus(r.error) == (if RequestedPlan(requested).None? then 400 else 404)
      ensures r.Err? ==> unchanged(this)
      ensures r.Ok? ==>
        var newPlan := RequestedPlan(requested).value;
        var oldPlan := old(users)[u];
        var newId := NewSubId(old(subscriptions), u, oldPlan, old(nextId));
        && r.value == Changed(SuccessMessage(requested.value), newPlan, Details(newPlan),
                              if newPlan == Free then None else Some(Opened(newId, u, newPlan, clock)))
        && users == old(users)[u := newPlan]
        && subscriptions == LedgerAfter(old(subscriptions), u, oldPlan, newPlan, newId, clock)
        && history == old(history) + ChangeEntries(old(subscriptions), u, oldPlan, newPlan, old(nextId), clock)
        && nextId == old(nextId) + IdsUsed(old(subscriptions), u, oldPlan, newPlan)
        && clock == old(clock)
      ensures r.Ok? && old(PlanMatches(users[u], subscriptions, u)) ==> PlanMatches(users[u], subscriptions, u)
      ensures old(AllMatch()) ==> AllMatch()
    {
      var plan := RequestedPlan(requested);
      if plan.None? {
        return Err(InvalidPlan);
      }
      var newPlan := plan.value;
      if u !in users {
        return Err(UserNotFound);
      }
      var newSubscription := Apply(u, newPlan);
      r := Ok(Changed(SuccessMessage(requested.value), newPlan, Details(newPlan), newSubscription));
    }

    /** The state changes of a validated plan change, in the order the source makes them. */
    method Apply(u: Id, newPlan: Plan) returns (newSubscription: Option<Subscription>)
      requires Valid() && u in users
      modifies this
      ensures Valid()
      ensures var oldPlan := old(users)[u];
        var newId := NewSubId(old(subscriptions), u, oldPlan, old(nextId));
        && newSubscription == (if newPlan == Free then None else Some(Opened(newId, u, newPlan, clock)))
        && users == old(users)[u := newPlan]
        && subscriptions == LedgerAfter(old(subscriptions), u, oldPlan, newPlan, newId, clock)
        && history == old(history) + ChangeEntries(old(subscriptions), u, oldPlan, newPlan, old(nextId), clock)
        && nextId == old(nextId) + IdsUsed(old(subscriptions), u, oldPlan, newPlan)
        && clock == old(clock)
      ensures old(PlanMatches(users[u], subscriptions, u)) ==> PlanMatches(users[u], subscriptions, u)
      ensures old(AllMatch()) ==> AllMatch()
    {
      var oldPlan := users[u];
      ghost var users0, subs0, history0, next0 := users, subscriptions, history, nextId;
      ghost var newId := NewSubId(subs0, u, oldPlan, next0);
      ghost var cancellation := CancellationEntries(subs0, u, oldPlan, next0, clock);
      CloseSuperseded(u, oldPlan);
      assert nextId == newId;
      ghost var history1 := history;
      newSubscription := OpenPlan(u, newPlan);
      users := users[u := newPlan];
      ghost var opening := OpeningEntry(u, newPlan, newId, clock);
      assert history == history1 + [opening];
      assert (history0 + cancellation) + [opening] == history0 + (cancellation + [opening]);
      ChangeKeepsTablesValid(users0, subs0, history0, next0, clock, u, newPlan);
      ChangeKeepsPlansMatch(users0, subs0, u, newPlan, newId, clock);
    }

    /**
     * Step one of a plan change (subscriptions.js:62-81): when the old plan
     * is paid, the newest active subscription of `u`, if any, is cancelled
     * and a cancellation at the old plan's price is logged.
     */
    method CloseSuperseded(u: Id, oldPlan: Plan)
      modifies this`subscriptions, this`history, this`nextId
      ensures subscriptions == Closed(old(subscriptions), u, oldPlan)
      ensures history == old(history) + CancellationEntries(old(subscriptions), u, oldPlan, old(nextId), clock)
      ensures nextId == old(nextId) + |CancellationEntries(old(subscriptions), u, oldPlan, old(nextId), clock)|
    {
      if oldPlan != Free {
        var oldSubscription := NewestActive(subscriptions, u);
        if oldSubscription.Some? {
          var oldId := subscriptions[oldSubscription.value].id;
          subscriptions := SetStatus(subscriptions, oldId, Cancelled);
          history := history + [HistoryEntry(nextId, u, Some(oldId), Price(oldPlan), oldPlan, Cancellation, Completed, clock)];
          nextId := nextId + 1;
        }
      }
    }

    /**
     * Step two (subscriptions.js:83-108): a paid plan opens an active
     * subscription at the catalog price and logs an upgrade; the free plan
     * only logs a downgrade.
     */
    method OpenPlan(u: Id, newPlan: Plan) returns (newSubscription: Option<Subscription>)
      modifies this`subscriptions, this`history, this`nextId
      ensures newSubscription == if newPlan == Free then None else Some(Opened(old(nextId), u, newPlan, clock))
      ensures subscriptions == if newPlan == Free then old(subscriptions) else old(subscriptions) + [Opened(old(nextId), u, newPlan, clock)]
      ensures history == old(history) + [OpeningEntry(u, newPlan, old(nextId), clock)]
      ensures nextId == old(nextId) + (if newPlan == Free then 1 else 2)
    {
      newSubscription := None;
      if newPlan != Free {
        var subscriptionId := nextId;
        nextId := nextId + 1;
        var s := Opened(subscriptionId, u, newPlan, clock);
        subscriptions := subscriptions + [s];
        history := history + [HistoryEntry(nextId, u, Some(subscriptionId), Price(newPlan), newPlan, Upgrade, Completed, clock)];
        nextId := nextId + 1;
        newSubscription := Some(s);
      } else {
        history := history + [HistoryEntry(nextId, u, None, 0, Free, Downgrade, Completed, clock)];
        nextId := nextId + 1;
      }
    }
  }
}
