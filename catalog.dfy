/**
 * The fixed plan catalog `PLANS` of server/src/routes/subscriptions.js:
 * four plan keys, each with a display name and a monthly price.
 * Prices are held in integer cents instead of JavaScript floats.
 */
module Catalog {
  import opened Wrappers

  /** The catalog keys, in declaration order. */
  datatype Plan = Free | Pro | Ultra | Extreme

  /** What `PLANS[key]` holds: the display name and the price in cents. */
  datatype PlanDetails = PlanDetails(name: string, priceCents: nat)

  /** The key under which a plan is stored in the catalog and in `users.plan`. */
  function Key(p: Plan): string
  {
    match p
    case Free => "free"
    case Pro => "pro"
    case Ultra => "ultra"
    case Extreme => "extreme"
  }

  function Details(p: Plan): PlanDetails
  {
    match p
    case Free => PlanDetails("Free", 0)
    case Pro => PlanDetails("Pro", 1999)
    case Ultra => PlanDetails("Ultra", 19999)
    case Extreme => PlanDetails("Extreme", 49999)
  }

  function Price(p: Plan): nat
  {
    Details(p).priceCents
  }

  /** Every plan other than the free tier is charged for. */
  lemma PaidIffPriced(p: Plan)
    ensures p != Free <==> Price(p) > 0
  {
  }

  /** The plans in the order the catalog declares them. */
  function AllPlans(): (r: seq<Plan>)
    ensures |r| == 4
    ensures forall i, j :: 0 <= i < j < |r| ==> Key(r[i]) != Key(r[j])
  {
    [Free, Pro, Ultra, Extreme]
  }

  /** The listing leaves no plan out. */
  lemma AllPlansComplete(p: Plan)
    ensures p in AllPlans()
  {
    match p
    case Free => assert AllPlans()[0] == p;
    case Pro => assert AllPlans()[1] == p;
    case Ultra => assert AllPlans()[2] == p;
    case Extreme => assert AllPlans()[3] == p;
  }

  /**
   * Validating a requested key against the catalog's own keys. The result
   * is the plan whose key it is, and there is none for any other string.
   */
  function Lookup(key: string): (r: Option<Plan>)
    ensures r.Some? ==> Key(r.value) == key
    ensures r.None? ==> forall p: Plan :: Key(p) != key
  {
    if key == "free" then Some(Free)
    else if key == "pro" then Some(Pro)
    else if key == "ultra" then Some(Ultra)
    else if key == "extreme" then Some(Extreme)
    else None
  }

  /** Looking up a plan's own key finds that plan again. */
  lemma LookupKey(p: Plan)
    ensures Lookup(Key(p)) == Some(p)
  {
  }

  /** `GET /plans`: the whole catalog as key and details, in declaration order. */
  function Listing(): (r: seq<(string, PlanDetails)>)
    ensures |r| == |AllPlans()|
    ensures forall i :: 0 <= i < |r| ==> Lookup(r[i].0) == Some(AllPlans()[i]) && r[i].1 == Details(AllPlans()[i])
  {
    var plans := AllPlans();
    seq(|plans|, i requires 0 <= i < |plans| => (Key(plans[i]), Details(plans[i])))
  }

  /**
   * The names every plain JavaScript object inherits from `Object.prototype`;
   * `PLANS[name]` is truthy for each of them although none is a plan.
   */
  const InheritedMembers: set<string> := {
    "constructor", "__proto__", "hasOwnProperty", "isPrototypeOf",
    "propertyIsEnumerable", "toString", "toLocaleString", "valueOf",
    "__defineGetter__", "__defineSetter__", "__lookupGetter__", "__lookupSetter__"
  }

  /**
   * The guard `!newPlan || !PLANS[newPlan]` as written, for a string key:
   * it rejects the empty string and every key for which the property read
   * yields undefined, which leaves the inherited members through.
   */
  predicate AcceptedAsWritten(key: string)
  {
    key != "" && (Lookup(key).Some? || key in InheritedMembers)
  }

  /** The guard as written lets "toString" through although no plan has that key. */
  lemma InheritedKeyPassesGuard()
    ensures AcceptedAsWritten("toString") && Lookup("toString").None?
  {
  }

  /**
   * The corrected guard, `Lookup`, accepts exactly the catalog's own keys and
   * agrees with the guard as written on every string that is not an
   * inherited member name.
   */
  lemma {:induction false} LookupIsIntendedGuard(key: string)
    ensures Lookup(key).Some? <==> exists p: Plan :: Key(p) == key
    ensures key !in InheritedMembers ==> (AcceptedAsWritten(key) <==> Lookup(key).Some?)
  {
    if Lookup(key).Some? {
      assert Key(Lookup(key).value) == key;
    }
  }
}
