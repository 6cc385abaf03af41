/** The referral tier-advancement engine run after a successful payment: starting at
    the paying customer's referrer it walks up at most four levels, and at level k
    compares the ancestor's depth-k downline count with the k-th leg-count threshold. */
module TierEngine {
  import opened Options
  import opened Customers

  /** `PRIMARY_LEG_COUNT` and the products the source derives from it. */
  function Threshold(p: int, k: nat): int
    requires 1 <= k <= 4
  {
    match k
    case 1 => p
    case 2 => p * p
    case 3 => p * p * p
    case _ => p * p * p * p
  }

  function Power(p: int, k: nat): int
    decreases k
  {
    if k == 0 then 1 else p * Power(p, k - 1)
  }

  /** The threshold of level k is the k-th power of the primary leg count. */
  lemma ThresholdIsPower(p: int, k: nat)
    requires 1 <= k <= 4
    ensures Threshold(p, k) == Power(p, k)
  {
    assert Power(p, 1) == p;
    assert Power(p, 2) == p * p;
    assert Power(p, 3) == p * (p * p);
    assert Power(p, 4) == p * (p * (p * p));
  }

  /** Level k of `c` completed at `now`; completing level 4 also ends the plan. */
  function Stamp(c: Customer, k: nat, now: Time): Customer
    requires 1 <= k <= 4
  {
    var done := Tier(true, Some(now));
    match k
    case 1 => c.(level1 := done)
    case 2 => c.(level2 := done)
    case 3 => c.(level3 := done)
    case _ => c.(level4 := done, planEnd := Some(now))
  }

  /** The source's check at level k for ancestor `a`: level 1 only when not yet
      completed, levels 2 to 4 whenever the count hits the threshold. */
  function CheckLevel(t: Table, a: Id, k: nat, p: int, now: Time): (r: Table)
    requires a in t && 1 <= k <= 4
    ensures SameShape(t, r)
    ensures forall i :: i in t && i != a ==> r[i] == t[i]
  {
    if k == 1 && t[a].level1.completed then t
    else if LegCount(t, a, k) == Threshold(p, k) then t[a := Stamp(t[a], k, now)]
    else t
  }

  /** Every hop the walk takes from level k upwards finds a customer: the source
      dereferences `.referrer` without a check at each of them. */
  predicate ChainOk(t: Table, a: Id, k: nat)
    requires 1 <= k <= 4
    decreases 4 - k
  {
    a in t && (k < 4 && !t[a].isAdmin ==> t[a].referrer.Some? && ChainOk(t, t[a].referrer.value, k + 1))
  }

  lemma {:induction false} ChainOkSameShape(t: Table, u: Table, a: Id, k: nat)
    requires 1 <= k <= 4 && SameShape(t, u) && ChainOk(t, a, k)
    ensures ChainOk(u, a, k)
    decreases 4 - k
  {
    if k < 4 && !t[a].isAdmin {
      ChainOkSameShape(t, u, t[a].referrer.value, k + 1);
    }
  }

  /** The walk from level k: process `a`, then stop after level 4 or at an admin,
      otherwise continue with `a`'s referrer at level k + 1. */
  function AdvanceFrom(t: Table, a: Id, k: nat, p: int, now: Time): (r: Table)
    requires 1 <= k <= 4 && ChainOk(t, a, k)
    ensures SameShape(t, r)
    decreases 4 - k
  {
    var t1 := CheckLevel(t, a, k, p, now);
    if k == 4 || t[a].isAdmin then t1
    else
      ChainOkSameShape(t, t1, t[a].referrer.value, k + 1);
      AdvanceFrom(t1, t[a].referrer.value, k + 1, p, now)
  }

  /** The ancestors the walk from level k visits, in order. It climbs one referrer
      link per level, stops early only after an admin, and has no admin check at level 4. */
  function Ancestors(t: Table, a: Id, k: nat): (chain: seq<Id>)
    requires 1 <= k <= 4 && ChainOk(t, a, k)
    ensures 1 <= |chain| <= 5 - k && chain[0] == a
    ensures forall j :: 0 <= j < |chain| ==> chain[j] in t
    ensures forall j :: 0 <= j < |chain| - 1 ==> !t[chain[j]].isAdmin && t[chain[j]].referrer == Some(chain[j + 1])
    ensures k + |chain| - 1 < 4 ==> t[chain[|chain| - 1]].isAdmin
    decreases 4 - k
  {
    if k == 4 || t[a].isAdmin then [a] else [a] + Ancestors(t, t[a].referrer.value, k + 1)
  }

  // ---------------------------------------------------------------------------
  // The entry point: update_referrer_level

  function FreshCustomersOf(t: Table, user: UserId): set<Id> {
    set i | i in t && t[i].user == user && Fresh(t[i])
  }

  /** The lowest-id record of the buyer with all four levels still open, if any. */
  function PayingCustomer(t: Table, user: UserId): (r: Option<Id>)
    ensures r.None? <==> forall i :: i in t && t[i].user == user ==> !Fresh(t[i])
    ensures r.Some? ==> r.value in t && t[r.value].user == user && Fresh(t[r.value])
    ensures r.Some? ==> forall i :: i in t && t[i].user == user && Fresh(t[i]) ==> r.value <= i
  {
    var candidates := FreshCustomersOf(t, user);
    assert forall i :: i in t && t[i].user == user && Fresh(t[i]) ==> i in candidates;
    if candidates == {} then None else Some(MinId(candidates))
  }

  /** What the engine needs to run without dereferencing a missing referrer. */
  predicate Ready(t: Table, user: UserId) {
    var payer := PayingCustomer(t, user);
    payer.Some? && t[payer.value].referrer.Some? && ChainOk(t, t[payer.value].referrer.value, 1)
  }

  function Payer(t: Table, user: UserId): (i: Id)
    requires Ready(t, user)
    ensures i in t
  {
    PayingCustomer(t, user).value
  }

  /** A1, ..., Am: the ancestors whose tiers the engine examines, m <= 4. */
  function Walk(t: Table, user: UserId): (chain: seq<Id>)
    requires Ready(t, user)
    ensures 1 <= |chain| <= 4 && Some(chain[0]) == t[Payer(t, user)].referrer
  {
    Ancestors(t, t[Payer(t, user)].referrer.value, 1)
  }

  /** `PostPaymentView.update_referrer_level` */
  function UpdateReferrerLevel(t: Table, user: UserId, p: int, now: Time): (r: Table)
    requires Ready(t, user)
    ensures SameShape(t, r)
  {
    AdvanceFrom(t, t[Payer(t, user)].referrer.value, 1, p, now)
  }

  // ---------------------------------------------------------------------------
  // What one level does, stated with the downline set

  /** The reference effect of level k on customer `c` whose depth-k downline has
      `count` members. */
  function LevelOutcome(c: Customer, k: nat, count: nat, p: int, now: Time): Customer
    requires 1 <= k <= 4
  {
    if k == 1 then (if !c.level1.completed && count == p then Stamp(c, 1, now) else c)
    else if count == Power(p, k) then Stamp(c, k, now)
    else c
  }

  lemma CheckLevelEffect(t: Table, a: Id, k: nat, p: int, now: Time)
    requires a in t && 1 <= k <= 4
    ensures CheckLevel(t, a, k, p, now) == t[a := Expected(t, a, k, p, now)]
  {
    LegCountIsDownline(t, a, k);
    ThresholdIsPower(p, k);
    if CheckLevel(t, a, k, p, now) == t {
      assert t[a := t[a]] == t;
    }
  }

  lemma {:induction false} AncestorsSameShape(t: Table, u: Table, a: Id, k: nat)
    requires 1 <= k <= 4 && SameShape(t, u) && ChainOk(t, a, k)
    ensures ChainOk(u, a, k) && Ancestors(u, a, k) == Ancestors(t, a, k)
    decreases 4 - k
  {
    ChainOkSameShape(t, u, a, k);
    if !(k == 4 || t[a].isAdmin) {
      AncestorsSameShape(t, u, t[a].referrer.value, k + 1);
    }
  }

  lemma {:induction false} AncestorsRankAbove(t: Table, a: Id, k: nat, rank: map<Id, nat>)
    requires 1 <= k <= 4 && ChainOk(t, a, k) && Ranked(t, rank) && a in rank
    ensures forall j :: 0 <= j < |Ancestors(t, a, k)| ==>
      Ancestors(t, a, k)[j] in rank && rank[a] + j <= rank[Ancestors(t, a, k)[j]]
    decreases 4 - k
  {
    if !(k == 4 || t[a].isAdmin) {
      var b := t[a].referrer.value;
      AncestorsRankAbove(t, b, k + 1, rank);
    }
  }

  lemma RankedSameShape(t: Table, u: Table, rank: map<Id, nat>)
    requires SameShape(t, u) && Ranked(t, rank)
    ensures Ranked(u, rank)
  {
  }

  /** The outcome the reference semantics assigns to customer `x` at level k. */
  function Expected(t: Table, x: Id, k: nat, p: int, now: Time): Customer
    requires x in t && 1 <= k <= 4
  {
    LevelOutcome(t[x], k, DownlineSize(t, x, k), p, now)
  }

  lemma ExpectedSameShape(t: Table, u: Table, x: Id, k: nat, k': nat, p: int, now: Time)
    requires x in t && 1 <= k <= 4 && k' == k
    requires SameShape(t, u) && u[x] == t[x]
    ensures Expected(u, x, k', p, now) == Expected(t, x, k, p, now)
  {
    SameShapeDownlineSize(t, u, x, k);
  }

  /** A customer the walk from level k does not visit is left unchanged. */
  lemma {:induction false} AdvanceFromFrame(t: Table, a: Id, k: nat, p: int, now: Time, i: Id)
    requires 1 <= k <= 4 && ChainOk(t, a, k)
    requires i in t && i !in Ancestors(t, a, k)
    ensures AdvanceFrom(t, a, k, p, now)[i] == t[i]
    decreases 4 - k
  {
    var t1 := CheckLevel(t, a, k, p, now);
    assert i != a;
    if !(k == 4 || t[a].isAdmin) {
      var b := t[a].referrer.value;
      AncestorsSameShape(t, t1, b, k + 1);
      assert Ancestors(t, a, k) == [a] + Ancestors(t, b, k + 1);
      AdvanceFromFrame(t1, b, k + 1, p, now, i);
    }
  }

  lemma VisitStop(t: Table, a: Id, k: nat, p: int, now: Time)
    requires 1 <= k <= 4 && ChainOk(t, a, k) && (k == 4 || t[a].isAdmin)
    ensures AdvanceFrom(t, a, k, p, now)[a] == Expected(t, a, k, p, now)
  {
    CheckLevelEffect(t, a, k, p, now);
  }

  lemma VisitHead(t: Table, a: Id, k: nat, p: int, now: Time, rank: map<Id, nat>)
    requires 1 <= k < 4 && ChainOk(t, a, k) && Ranked(t, rank) && !t[a].isAdmin
    ensures AdvanceFrom(t, a, k, p, now)[a] == Expected(t, a, k, p, now)
  {
    var t1 := CheckLevel(t, a, k, p, now);
    var b := t[a].referrer.value;
    AncestorsSameShape(t, t1, b, k + 1);
    AncestorsRankAbove(t, b, k + 1, rank);
    assert a !in Ancestors(t1, b, k + 1);
    AdvanceFromFrame(t1, b, k + 1, p, now, a);
    CheckLevelEffect(t, a, k, p, now);
  }

  /** One step of the walk below level 4 at a non-admin: check `a`, then continue. */
  lemma AdvanceFromStep(t: Table, a: Id, k: nat, p: int, now: Time)
    requires 1 <= k < 4 && ChainOk(t, a, k) && !t[a].isAdmin
    ensures ChainOk(CheckLevel(t, a, k, p, now), t[a].referrer.value, k + 1)
    ensures AdvanceFrom(t, a, k, p, now) == AdvanceFrom(CheckLevel(t, a, k, p, now), t[a].referrer.value, k + 1, p, now)
  {
    ChainOkSameShape(t, CheckLevel(t, a, k, p, now), t[a].referrer.value, k + 1);
  }

  /** With acyclic links, no later customer of the walk is its first one. */
  lemma TailNotHead(t: Table, a: Id, k: nat, rank: map<Id, nat>, j: nat)
    requires 1 <= k < 4 && ChainOk(t, a, k) && Ranked(t, rank) && !t[a].isAdmin
    requires 1 <= j < |Ancestors(t, a, k)|
    ensures Ancestors(t, a, k)[j] != a && Ancestors(t, a, k)[j] in t
  {
    var b := t[a].referrer.value;
    assert Ancestors(t, a, k) == [a] + Ancestors(t, b, k + 1);
    assert Ancestors(t, a, k)[j] == Ancestors(t, b, k + 1)[j - 1];
    AncestorsRankAbove(t, b, k + 1, rank);
  }

  /** A later customer of the walk is judged the same on the table before and after
      the first customer's check. */
  lemma TailExpected(t: Table, a: Id, k: nat, p: int, now: Time, rank: map<Id, nat>, j: nat, level: nat)
    requires 1 <= k < 4 && ChainOk(t, a, k) && Ranked(t, rank) && !t[a].isAdmin
    requires 1 <= j < |Ancestors(t, a, k)| && level == k + j
    ensures var x := Ancestors(t, a, k)[j];
      Expected(CheckLevel(t, a, k, p, now), x, level, p, now) == Expected(t, x, level, p, now)
  {
    var x := Ancestors(t, a, k)[j];
    TailNotHead(t, a, k, rank, j);
    ExpectedSameShape(t, CheckLevel(t, a, k, p, now), x, level, level, p, now);
  }

  /** The walk from level k continues at `b` on the checked table, where the j-th
      customer is the (j - 1)-th. */
  lemma TailStep(t: Table, a: Id, k: nat, p: int, now: Time, rank: map<Id, nat>, j: nat)
    requires 1 <= k < 4 && ChainOk(t, a, k) && Ranked(t, rank) && !t[a].isAdmin
    requires 1 <= j < |Ancestors(t, a, k)|
    ensures var t1 := CheckLevel(t, a, k, p, now);
      var b := t[a].referrer.value;
      ChainOk(t1, b, k + 1) && Ranked(t1, rank) &&
      j - 1 < |Ancestors(t1, b, k + 1)| && Ancestors(t1, b, k + 1)[j - 1] == Ancestors(t, a, k)[j]
  {
    var t1 := CheckLevel(t, a, k, p, now);
    var b := t[a].referrer.value;
    AncestorsSameShape(t, t1, b, k + 1);
    RankedSameShape(t, t1, rank);
    assert Ancestors(t, a, k) == [a] + Ancestors(t, b, k + 1);
  }

  /** The tail case of the walk: what the walk from `b` gives the j-th customer is
      what the walk from `a` gives it. */
  lemma VisitTail(t: Table, t1: Table, a: Id, b: Id, k: nat, p: int, now: Time, rank: map<Id, nat>, j: nat, level: nat)
    requires 1 <= k < 4 && ChainOk(t, a, k) && Ranked(t, rank) && !t[a].isAdmin
    requires t1 == CheckLevel(t, a, k, p, now) && Some(b) == t[a].referrer
    requires 1 <= j < |Ancestors(t, a, k)| && level == k + j
    requires ChainOk(t1, b, k + 1)
    requires AdvanceFrom(t1, b, k + 1, p, now)[Ancestors(t, a, k)[j]] == Expected(t1, Ancestors(t, a, k)[j], level, p, now)
    ensures AdvanceFrom(t, a, k, p, now)[Ancestors(t, a, k)[j]] == Expected(t, Ancestors(t, a, k)[j], level, p, now)
  {
    TailExpected(t, a, k, p, now, rank, j, level);
    AdvanceFromStep(t, a, k, p, now);
  }

  /** The tail case of `AdvanceFromVisit`: the j-th customer, j >= 1, is the
      (j - 1)-th of the walk from `a`'s referrer. */
  lemma {:induction false} VisitTailCase(t: Table, a: Id, k: nat, p: int, now: Time, rank: map<Id, nat>, j: nat, level: nat)
    requires 1 <= k < 4 && ChainOk(t, a, k) && Ranked(t, rank) && !t[a].isAdmin
    requires 1 <= j < |Ancestors(t, a, k)| && level == k + j
    ensures AdvanceFrom(t, a, k, p, now)[Ancestors(t, a, k)[j]] == Expected(t, Ancestors(t, a, k)[j], level, p, now)
    decreases 4 - k, 1
  {
    TailStep(t, a, k, p, now, rank, j);
    VisitTailFrom(t, CheckLevel(t, a, k, p, now), a, t[a].referrer.value, k, p, now, rank, j, level);
  }

  /** `VisitTailCase` with the checked table and the referrer named. */
  lemma {:induction false} VisitTailFrom(t: Table, t1: Table, a: Id, b: Id, k: nat, p: int, now: Time, rank: map<Id, nat>, j: nat, level: nat)
    requires 1 <= k < 4 && ChainOk(t, a, k) && Ranked(t, rank) && !t[a].isAdmin
    requires t1 == CheckLevel(t, a, k, p, now) && Some(b) == t[a].referrer
    requires 1 <= j < |Ancestors(t, a, k)| && level == k + j
    requires ChainOk(t1, b, k + 1) && Ranked(t1, rank)
    requires j - 1 < |Ancestors(t1, b, k + 1)| && Ancestors(t1, b, k + 1)[j - 1] == Ancestors(t, a, k)[j]
    ensures AdvanceFrom(t, a, k, p, now)[Ancestors(t, a, k)[j]] == Expected(t, Ancestors(t, a, k)[j], level, p, now)
    decreases 4 - k, 0
  {
    AdvanceFromVisit(t1, b, k + 1, p, now, rank, j - 1, level);
    VisitTail(t, t1, a, b, k, p, now, rank, j, level);
  }

  /** The j-th customer the walk from level k visits receives exactly its outcome at
      level k + j (`level`, passed along unchanged), judged on the table as it was
      before the walk. */
  lemma {:induction false} AdvanceFromVisit(t: Table, a: Id, k: nat, p: int, now: Time, rank: map<Id, nat>, j: nat, level: nat)
    requires 1 <= k <= 4 && ChainOk(t, a, k) && Ranked(t, rank)
    requires j < |Ancestors(t, a, k)| && level == k + j
    ensures AdvanceFrom(t, a, k, p, now)[Ancestors(t, a, k)[j]] == Expected(t, Ancestors(t, a, k)[j], level, p, now)
    decreases 4 - k, 2
  {
    if k == 4 || t[a].isAdmin {
      VisitStop(t, a, k, p, now);
    } else if j == 0 {
      VisitHead(t, a, k, p, now, rank);
    } else {
      VisitTailCase(t, a, k, p, now, rank, j, level);
    }
  }

  // ---------------------------------------------------------------------------
  // The walk visits distinct customers, none of them the payer

  /** The rank strictly grows from position n of the chain to position n + 1. */
  predicate RisesAt(chain: seq<Id>, rank: map<Id, nat>, n: nat)
    requires n + 1 < |chain|
  {
    chain[n] in rank && chain[n + 1] in rank && rank[chain[n]] < rank[chain[n + 1]]
  }

  /** Rank grows along a chain whose adjacent ranks grow. */
  lemma {:induction false} RankGrows(chain: seq<Id>, rank: map<Id, nat>, i: nat, j: nat)
    requires forall n: nat :: n + 1 < |chain| ==> RisesAt(chain, rank, n)
    requires i < j < |chain|
    ensures chain[i] in rank && chain[j] in rank && rank[chain[i]] < rank[chain[j]]
    decreases j - i
  {
    assert RisesAt(chain, rank, i);
    if i + 1 < j {
      RankGrows(chain, rank, i + 1, j);
    }
  }

  lemma AncestorsRankStep(t: Table, a: Id, k: nat, rank: map<Id, nat>)
    requires 1 <= k <= 4 && ChainOk(t, a, k) && Ranked(t, rank)
    ensures forall n: nat :: n + 1 < |Ancestors(t, a, k)| ==> RisesAt(Ancestors(t, a, k), rank, n)
  {
  }

  /** The walk never meets the same customer twice. */
  lemma WalkDistinct(t: Table, user: UserId, rank: map<Id, nat>)
    requires Ready(t, user) && Ranked(t, rank)
    ensures forall i, j :: 0 <= i < j < |Walk(t, user)| ==> Walk(t, user)[i] != Walk(t, user)[j]
  {
    var chain := Walk(t, user);
    AncestorsRankStep(t, chain[0], 1, rank);
    forall i, j | 0 <= i < j < |chain|
      ensures chain[i] != chain[j]
    {
      RankGrows(chain, rank, i, j);
    }
  }

  /** The paying customer is not one of its own ancestors. */
  lemma PayerNotInWalk(t: Table, user: UserId, rank: map<Id, nat>)
    requires Ready(t, user) && Ranked(t, rank)
    ensures Payer(t, user) !in Walk(t, user)
  {
    var payer := Payer(t, user);
    var chain := Walk(t, user);
    AncestorsRankStep(t, chain[0], 1, rank);
    assert payer in rank && chain[0] in rank && rank[payer] < rank[chain[0]];
    forall j | 0 <= j < |chain|
      ensures chain[j] != payer
    {
      if j > 0 {
        RankGrows(chain, rank, 0, j);
      }
    }
  }

  // ---------------------------------------------------------------------------
  // What update_referrer_level does to the table

  /** The j-th ancestor of the payer (level j + 1) receives its reference outcome. */
  lemma EngineVisit(t: Table, user: UserId, p: int, now: Time, rank: map<Id, nat>, j: nat)
    requires Ready(t, user) && Ranked(t, rank) && j < |Walk(t, user)|
    ensures UpdateReferrerLevel(t, user, p, now)[Walk(t, user)[j]]
            == Expected(t, Walk(t, user)[j], j + 1, p, now)
  {
    AdvanceFromVisit(t, t[Payer(t, user)].referrer.value, 1, p, now, rank, j, j + 1);
  }

  /** Every customer outside the walk, the payer included, is left unchanged. */
  lemma EngineFrame(t: Table, user: UserId, p: int, now: Time, i: Id)
    requires Ready(t, user) && i in t && i !in Walk(t, user)
    ensures UpdateReferrerLevel(t, user, p, now)[i] == t[i]
  {
    AdvanceFromFrame(t, t[Payer(t, user)].referrer.value, 1, p, now, i);
  }

  /** A customer nobody names as referrer is never on the walk, so it is left unchanged. */
  lemma UnreferencedUntouched(t: Table, user: UserId, p: int, now: Time, x: Id)
    requires Ready(t, user) && x in t
    requires forall i :: i in t ==> t[i].referrer != Some(x)
    ensures UpdateReferrerLevel(t, user, p, now)[x] == t[x]
  {
    var w := Walk(t, user);
    forall j | 0 <= j < |w|
      ensures w[j] != x
    {
      if j > 0 {
        assert t[w[j - 1]].referrer == Some(w[j]);
      }
    }
    EngineFrame(t, user, p, now, x);
  }

  /** Fields no level touches. */
  predicate SameIdentity(c: Customer, d: Customer) {
    d.uid == c.uid && d.number == c.number && d.user == c.user && d.referrer == c.referrer &&
    d.isAdmin == c.isAdmin && d.activePlan == c.activePlan && d.planStart == c.planStart
  }

  /** Level k only ever writes tier k (and, at level 4, the plan end). */
  lemma LevelOutcomeLocal(c: Customer, k: nat, count: nat, p: int, now: Time)
    requires 1 <= k <= 4
    ensures var d := LevelOutcome(c, k, count, p, now);
      SameIdentity(c, d) &&
      (forall i :: 1 <= i <= 4 && i != k ==> Level(d, i) == Level(c, i)) &&
      (k < 4 ==> d.planEnd == c.planEnd)
  {
  }

  lemma LevelOutcomeKeeps(c: Customer, k: nat, count: nat, p: int, now: Time, i: nat)
    requires 1 <= k <= 4 && 1 <= i <= 4 && Level(c, i).completed
    ensures Level(LevelOutcome(c, k, count, p, now), i).completed
  {
  }

  /** Level 1 of the first ancestor: the flag becomes true exactly when it already
      was or the direct downline has exactly P members; an already completed level
      keeps its date, and the customer is otherwise untouched. */
  lemma LevelOneRule(t: Table, user: UserId, p: int, now: Time, rank: map<Id, nat>)
    requires Ready(t, user) && Ranked(t, rank)
    ensures var a := Walk(t, user)[0];
      var c := UpdateReferrerLevel(t, user, p, now)[a];
      (c.level1.completed <==> t[a].level1.completed || DownlineSize(t, a, 1) == p) &&
      (t[a].level1.completed ==> c == t[a]) &&
      (!t[a].level1.completed && DownlineSize(t, a, 1) == p ==>
         c == t[a].(level1 := Tier(true, Some(now)))) &&
      (DownlineSize(t, a, 1) != p ==> c == t[a])
  {
    EngineVisit(t, user, p, now, rank, 0);
  }

  /** Levels 2 to 4: whenever the depth-k downline has exactly P^k members the level
      is (re-)stamped with `now`, whether or not it was completed before; level 4
      also ends the plan. Any other count leaves the customer untouched. */
  lemma HigherLevelRule(t: Table, user: UserId, p: int, now: Time, rank: map<Id, nat>, j: nat)
    requires Ready(t, user) && Ranked(t, rank) && 1 <= j < |Walk(t, user)|
    ensures var x := Walk(t, user)[j];
      var c := UpdateReferrerLevel(t, user, p, now)[x];
      (DownlineSize(t, x, j + 1) == Power(p, j + 1) ==>
         Level(c, j + 1) == Tier(true, Some(now)) && (j + 1 == 4 ==> c.planEnd == Some(now))) &&
      (DownlineSize(t, x, j + 1) != Power(p, j + 1) ==> c == t[x])
  {
    EngineVisit(t, user, p, now, rank, j);
  }

  /** The ancestor at level k has only tier k (and, at level 4, the plan end) written. */
  lemma OnlyLevelKChanges(t: Table, user: UserId, p: int, now: Time, rank: map<Id, nat>, j: nat)
    requires Ready(t, user) && Ranked(t, rank) && j < |Walk(t, user)|
    ensures var x := Walk(t, user)[j];
      var c := UpdateReferrerLevel(t, user, p, now)[x];
      SameIdentity(t[x], c) &&
      (forall i :: 1 <= i <= 4 && i != j + 1 ==> Level(c, i) == Level(t[x], i)) &&
      (j + 1 < 4 ==> c.planEnd == t[x].planEnd)
  {
    var x := Walk(t, user)[j];
    EngineVisit(t, user, p, now, rank, j);
    LevelOutcomeLocal(t[x], j + 1, DownlineSize(t, x, j + 1), p, now);
  }

  /** The engine never clears a flag and never changes who is in the table, who
      refers whom, or who is an admin. */
  lemma EngineMonotone(t: Table, user: UserId, p: int, now: Time)
    requires Ready(t, user)
    ensures var r := UpdateReferrerLevel(t, user, p, now);
      SameShape(t, r) &&
      forall i, k :: i in t && 1 <= k <= 4 && Level(t[i], k).completed ==> Level(r[i], k).completed
  {
    forall i, k | i in t && 1 <= k <= 4 && Level(t[i], k).completed
      ensures Level(UpdateReferrerLevel(t, user, p, now)[i], k).completed
    {
      EngineKeepsFlag(t, user, p, now, i, k);
    }
  }

  lemma EngineKeepsFlag(t: Table, user: UserId, p: int, now: Time, i: Id, k: nat)
    requires Ready(t, user) && i in t && 1 <= k <= 4 && Level(t[i], k).completed
    ensures Level(UpdateReferrerLevel(t, user, p, now)[i], k).completed
  {
    AdvanceFromKeepsFlag(t, t[Payer(t, user)].referrer.value, 1, p, now, i, k);
  }

  /** Stamping only ever sets flags. */
  lemma {:induction false} AdvanceFromKeepsFlag(t: Table, a: Id, k: nat, p: int, now: Time, i: Id, n: nat)
    requires 1 <= k <= 4 && ChainOk(t, a, k) && i in t && 1 <= n <= 4 && Level(t[i], n).completed
    ensures Level(AdvanceFrom(t, a, k, p, now)[i], n).completed
    decreases 4 - k
  {
    var t1 := CheckLevel(t, a, k, p, now);
    CheckLevelEffect(t, a, k, p, now);
    if i == a {
      LevelOutcomeKeeps(t[a], k, DownlineSize(t, a, k), p, now, n);
    }
    assert Level(t1[i], n).completed;
    if !(k == 4 || t[a].isAdmin) {
      ChainOkSameShape(t, t1, t[a].referrer.value, k + 1);
      AdvanceFromKeepsFlag(t1, t[a].referrer.value, k + 1, p, now, i, n);
    }
  }

  /** An admin among the first three ancestors ends the walk: nobody above it is
      examined, in particular not its own referrer. */
  lemma AdminShortCircuit(t: Table, user: UserId, p: int, now: Time, rank: map<Id, nat>, j: nat)
    requires Ready(t, user) && Ranked(t, rank) && j < |Walk(t, user)| && t[Walk(t, user)[j]].isAdmin
    ensures |Walk(t, user)| == j + 1
    ensures var x := Walk(t, user)[j];
      t[x].referrer.Some? && t[x].referrer.value in t ==>
        UpdateReferrerLevel(t, user, p, now)[t[x].referrer.value] == t[t[x].referrer.value]
  {
    var w := Walk(t, user);
    var x := w[j];
    if t[x].referrer.Some? && t[x].referrer.value in t {
      var b := t[x].referrer.value;
      AncestorsRankStep(t, w[0], 1, rank);
      forall n | 0 <= n < |w|
        ensures w[n] != b
      {
        if n < j {
          RankGrows(w, rank, n, j);
        }
      }
      EngineFrame(t, user, p, now, b);
    }
  }

  // ---------------------------------------------------------------------------
  // Running the engine twice

  lemma LevelOutcomeIdempotent(c: Customer, k: nat, count: nat, p: int, now: Time)
    requires 1 <= k <= 4
    ensures LevelOutcome(LevelOutcome(c, k, count, p, now), k, count, p, now) == LevelOutcome(c, k, count, p, now)
  {
  }

  /** A fresh customer of the user after the run was fresh before it. */
  lemma EngineKeepsFreshness(t: Table, user: UserId, p: int, now: Time, rank: map<Id, nat>, i: Id)
    requires Ready(t, user) && Ranked(t, rank) && i in t
    ensures var c := UpdateReferrerLevel(t, user, p, now)[i];
      c.user == t[i].user && (Fresh(c) ==> Fresh(t[i]))
  {
    EngineKeepsUser(t, user, p, now, i);
    if t[i].level1.completed {
      EngineKeepsFlag(t, user, p, now, i, 1);
    } else if t[i].level2.completed {
      EngineKeepsFlag(t, user, p, now, i, 2);
    } else if t[i].level3.completed {
      EngineKeepsFlag(t, user, p, now, i, 3);
    } else if t[i].level4.completed {
      EngineKeepsFlag(t, user, p, now, i, 4);
    }
  }

  lemma EngineKeepsUser(t: Table, user: UserId, p: int, now: Time, i: Id)
    requires Ready(t, user) && i in t
    ensures UpdateReferrerLevel(t, user, p, now)[i].user == t[i].user
  {
    AdvanceFromKeepsIdentity(t, t[Payer(t, user)].referrer.value, 1, p, now, i);
  }

  lemma {:induction false} AdvanceFromKeepsIdentity(t: Table, a: Id, k: nat, p: int, now: Time, i: Id)
    requires 1 <= k <= 4 && ChainOk(t, a, k) && i in t
    ensures SameIdentity(t[i], AdvanceFrom(t, a, k, p, now)[i])
    decreases 4 - k
  {
    var t1 := CheckLevel(t, a, k, p, now);
    CheckLevelEffect(t, a, k, p, now);
    if i == a {
      LevelOutcomeLocal(t[a], k, DownlineSize(t, a, k), p, now);
    }
    assert SameIdentity(t[i], t1[i]);
    if !(k == 4 || t[a].isAdmin) {
      ChainOkSameShape(t, t1, t[a].referrer.value, k + 1);
      AdvanceFromKeepsIdentity(t1, t[a].referrer.value, k + 1, p, now, i);
    }
  }

  /** The run does not change which customer pays next time, nor the walk. */
  lemma EngineKeepsPayer(t: Table, user: UserId, p: int, now: Time, rank: map<Id, nat>)
    requires Ready(t, user) && Ranked(t, rank)
    ensures var r := UpdateReferrerLevel(t, user, p, now);
      Ready(r, user) && Payer(r, user) == Payer(t, user) && Walk(r, user) == Walk(t, user)
  {
    var r := UpdateReferrerLevel(t, user, p, now);
    var payer := Payer(t, user);
    PayerNotInWalk(t, user, rank);
    EngineFrame(t, user, p, now, payer);
    forall i | i in r && r[i].user == user && Fresh(r[i])
      ensures payer <= i
    {
      EngineKeepsFreshness(t, user, p, now, rank, i);
    }
    var q := PayingCustomer(r, user);
    assert q.Some?;
    EngineKeepsFreshness(t, user, p, now, rank, q.value);
    assert q.value == payer;
    var b := t[payer].referrer.value;
    AncestorsSameShape(t, r, b, 1);
  }

  /** A visited customer is already at its outcome, so a second visit keeps it. */
  lemma IdempotentVisited(t: Table, user: UserId, p: int, now: Time, rank: map<Id, nat>, j: nat)
    requires Ready(t, user) && Ranked(t, rank) && j < |Walk(t, user)|
    requires var r := UpdateReferrerLevel(t, user, p, now);
      Ready(r, user) && Walk(r, user) == Walk(t, user)
    ensures var r := UpdateReferrerLevel(t, user, p, now);
      UpdateReferrerLevel(r, user, p, now)[Walk(t, user)[j]] == r[Walk(t, user)[j]]
  {
    var r := UpdateReferrerLevel(t, user, p, now);
    var i := Walk(t, user)[j];
    RankedSameShape(t, r, rank);
    EngineVisit(t, user, p, now, rank, j);
    assert r[i] == Expected(t, i, j + 1, p, now);
    EngineVisit(r, user, p, now, rank, j);
    assert UpdateReferrerLevel(r, user, p, now)[i] == Expected(r, i, j + 1, p, now);
    SameShapeDownlineSize(t, r, i, j + 1);
    LevelOutcomeIdempotent(t[i], j + 1, DownlineSize(t, i, j + 1), p, now);
  }

  lemma EngineIdempotentAt(t: Table, user: UserId, p: int, now: Time, rank: map<Id, nat>, i: Id)
    requires Ready(t, user) && Ranked(t, rank) && i in t
    ensures var r := UpdateReferrerLevel(t, user, p, now);
      Ready(r, user) && UpdateReferrerLevel(r, user, p, now)[i] == r[i]
  {
    var r := UpdateReferrerLevel(t, user, p, now);
    EngineKeepsPayer(t, user, p, now, rank);
    var w := Walk(t, user);
    if i in w {
      var j :| 0 <= j < |w| && w[j] == i;
      IdempotentVisited(t, user, p, now, rank, j);
    } else {
      assert i !in Walk(r, user);
      EngineFrame(r, user, p, now, i);
    }
  }

  /** Run again at the same instant, the engine changes nothing more. */
  lemma EngineIdempotent(t: Table, user: UserId, p: int, now: Time, rank: map<Id, nat>)
    requires Ready(t, user) && Ranked(t, rank)
    ensures var r := UpdateReferrerLevel(t, user, p, now);
      Ready(r, user) && UpdateReferrerLevel(r, user, p, now) == r
  {
    var r := UpdateReferrerLevel(t, user, p, now);
    EngineKeepsPayer(t, user, p, now, rank);
    var r2 := UpdateReferrerLevel(r, user, p, now);
    forall i | i in r
      ensures r2[i] == r[i]
    {
      EngineIdempotentAt(t, user, p, now, rank, i);
    }
    SameEntries(r2, r);
  }

  /** Two tables with the same ids and the same customer under each id are equal. */
  lemma SameEntries(u: Table, t: Table)
    requires SameShape(t, u) && forall i :: i in t ==> u[i] == t[i]
    ensures u == t
  {
  }

  /** Run again at a later instant, a qualifying level 2 to 4 is stamped anew: the
      flag update is not idempotent across calls. */
  lemma EngineRestamps(t: Table, user: UserId, p: int, now: Time, later: Time, rank: map<Id, nat>, j: nat)
    requires Ready(t, user) && Ranked(t, rank) && 1 <= j < |Walk(t, user)|
    requires DownlineSize(t, Walk(t, user)[j], j + 1) == Power(p, j + 1) && later != now
    ensures var r := UpdateReferrerLevel(t, user, p, now);
      Ready(r, user) && UpdateReferrerLevel(r, user, p, later) != r
  {
    var r := UpdateReferrerLevel(t, user, p, now);
    var x := Walk(t, user)[j];
    FirstRunStamped(t, user, p, now, rank, j);
    HigherLevelRule(r, user, p, later, rank, j);
    assert Level(UpdateReferrerLevel(r, user, p, later)[x], j + 1) != Level(r[x], j + 1);
  }

  /** After a run that stamps the j-th customer, the next run walks the same customers
      and finds the same downline count there. */
  lemma FirstRunStamped(t: Table, user: UserId, p: int, now: Time, rank: map<Id, nat>, j: nat)
    requires Ready(t, user) && Ranked(t, rank) && 1 <= j < |Walk(t, user)|
    requires DownlineSize(t, Walk(t, user)[j], j + 1) == Power(p, j + 1)
    ensures var r := UpdateReferrerLevel(t, user, p, now);
      var x := Walk(t, user)[j];
      Ready(r, user) && Ranked(r, rank) && Walk(r, user) == Walk(t, user) &&
      DownlineSize(r, x, j + 1) == Power(p, j + 1) && Level(r[x], j + 1) == Tier(true, Some(now))
  {
    var r := UpdateReferrerLevel(t, user, p, now);
    EngineKeepsPayer(t, user, p, now, rank);
    RankedSameShape(t, r, rank);
    HigherLevelRule(t, user, p, now, rank, j);
    SameShapeDownlineSize(t, r, Walk(t, user)[j], j + 1);
  }
}
