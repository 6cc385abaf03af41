/** The customer table of the referral tree and the downline counts the tier engine
    compares with its thresholds. */
module Customers {
  import opened Options

  type Id = nat
  type UserId = nat
  type Time = int

  /** One tier's completion flag and the time it was (last) stamped. */
  datatype Tier = Tier(completed: bool, date: Option<Time>)

  const Pending := Tier(false, None)

  /** A customer record: who referred it, whether it is an administrative root, and
      the four tier flags with their dates. */
  datatype Customer = Customer(
    uid: string,
    number: string,
    user: UserId,
    referrer: Option<Id>,
    isAdmin: bool,
    activePlan: string,
    planStart: Option<Time>,
    level1: Tier,
    level2: Tier,
    level3: Tier,
    level4: Tier,
    planEnd: Option<Time>)

  type Table = map<Id, Customer>

  /** Tier `k` of a customer, for `k` in 1..4. */
  function Level(c: Customer, k: nat): Tier
    requires 1 <= k <= 4
  {
    match k
    case 1 => c.level1
    case 2 => c.level2
    case 3 => c.level3
    case _ => c.level4
  }

  /** All four tier flags still false. */
  predicate Fresh(c: Customer) {
    !c.level1.completed && !c.level2.completed && !c.level3.completed && !c.level4.completed
  }

  /** A set of ids holding `y` has a least element: either `y` is one, or a
      smaller member is. */
  lemma {:induction false} HasMinimum(s: set<Id>, y: Id)
    requires y in s
    ensures exists m :: m in s && forall x :: x in s ==> m <= x
    decreases y
  {
    if forall x :: x in s ==> y <= x {
      assert y in s;
    } else {
      var z :| z in s && z < y;
      HasMinimum(s, z);
    }
  }

  /** The smallest id of a non-empty set: what Django's `.first()` returns from a
      query without an explicit ordering (it orders by primary key). */
  function MinId(s: set<Id>): (m: Id)
    requires s != {}
    ensures m in s && forall x :: x in s ==> m <= x
  {
    var y :| y in s;
    HasMinimum(s, y);
    var m :| m in s && forall x :: x in s ==> m <= x;
    m
  }

  /** Only the referrer link and the admin flag decide counts and walks. */
  predicate SameShape(t: Table, u: Table) {
    t.Keys == u.Keys &&
    forall i :: i in t ==> u[i].referrer == t[i].referrer && u[i].isAdmin == t[i].isAdmin
  }

  /** Every referrer points at a customer of the table (the foreign key). */
  predicate Linked(t: Table) {
    forall i :: i in t && t[i].referrer.Some? ==> t[i].referrer.value in t
  }

  /** Acyclicity of the referral tree, witnessed by a rank that strictly grows from
      every customer to its referrer. */
  predicate Ranked(t: Table, rank: map<Id, nat>) {
    forall i :: i in t && t[i].referrer.Some? ==>
      i in rank && t[i].referrer.value in rank && rank[i] < rank[t[i].referrer.value]
  }

  // ---------------------------------------------------------------------------
  // The downline at depth k, as a set

  /** One step up from `y`, allowed only through a present, non-admin customer. */
  function Hop(t: Table, y: Id): Option<Id> {
    if y in t && !t[y].isAdmin then t[y].referrer else None
  }

  /** The ancestor `j` steps above `d`, when `d` and every customer between them are
      present and non-admin. */
  function Up(t: Table, d: Id, j: nat): Option<Id>
    decreases j
  {
    if j == 0 then Some(d)
    else match Up(t, d, j - 1)
      case None => None
      case Some(y) => Hop(t, y)
  }

  /** The non-admin customers exactly `k` levels below `x`, reached through non-admin
      customers only. */
  function Downline(t: Table, x: Id, k: nat): set<Id> {
    set d | d in t && Up(t, d, k) == Some(x)
  }

  /** The number of customers in the depth-`k` downline of `x`. */
  function DownlineSize(t: Table, x: Id, k: nat): nat {
    |Downline(t, x, k)|
  }

  lemma SameShapeDownlineSize(t: Table, u: Table, x: Id, k: nat)
    requires SameShape(t, u)
    ensures DownlineSize(t, x, k) == DownlineSize(u, x, k)
  {
    SameShapeDownline(t, u, x, k);
  }

  /** The union of the depth-`j` downlines of all of `cs`. */
  function DownlineOfAll(t: Table, cs: set<Id>, j: nat): set<Id> {
    set d | d in t && Up(t, d, j).Some? && Up(t, d, j).value in cs
  }

  // ---------------------------------------------------------------------------
  // The downline count as the source computes it: nested loops over direct children

  /** The direct children of `x`: the customers naming `x` as referrer, admins excluded. */
  function Children(t: Table, x: Id): set<Id> {
    set c | c in t && !t[c].isAdmin && t[c].referrer == Some(x)
  }

  /** The leg count of `x` at depth `k`: one for `x` itself at depth 0, otherwise the
      sum of the depth-(k-1) leg counts of its non-admin children. At depth 1 this is
      the `.count()` of the children query; deeper it is the source's nested loops. */
  function LegCount(t: Table, x: Id, k: nat): nat
    decreases k, 0, 0
  {
    if k == 0 then 1 else SumLegs(t, Children(t, x), k - 1)
  }

  /** The sum of the depth-`j` leg counts of every customer of `cs`. */
  function SumLegs(t: Table, cs: set<Id>, j: nat): nat
    decreases j, 1, |cs|
  {
    if cs == {} then 0
    else
      var c := MinId(cs);
      LegCount(t, c, j) + SumLegs(t, cs - {c}, j)
  }

  /** Summing depth-0 counts, one per customer, counts the customers. */
  lemma {:induction false} SumLegsDepthZero(t: Table, cs: set<Id>)
    ensures SumLegs(t, cs, 0) == |cs|
    decreases |cs|
  {
    if cs != {} {
      SumLegsDepthZero(t, cs - {MinId(cs)});
    }
  }

  /** At depth 1 the count is the number of non-admin children: the `.count()` of the
      children query. */
  lemma LegCountDepthOne(t: Table, x: Id)
    ensures LegCount(t, x, 1) == |Children(t, x)|
  {
    SumLegsDepthZero(t, Children(t, x));
  }

  /** The nested-loop count is the size of the depth-`k` downline. */
  lemma {:induction false} LegCountIsDownline(t: Table, x: Id, k: nat)
    requires x in t || k > 0
    ensures LegCount(t, x, k) == |Downline(t, x, k)|
    decreases k, 0, 0
  {
    if k == 0 {
      assert Downline(t, x, 0) == {x};
    } else {
      SumLegsIsDownline(t, Children(t, x), k - 1);
      DownlineByChildren(t, x, k);
    }
  }

  /** The depth-k downline of `x` is the depth-(k-1) downline of its non-admin children. */
  lemma DownlineByChildren(t: Table, x: Id, k: nat)
    requires k > 0
    ensures Downline(t, x, k) == DownlineOfAll(t, Children(t, x), k - 1)
  {
    var cs := Children(t, x);
    forall d
      ensures d in Downline(t, x, k) <==> d in DownlineOfAll(t, cs, k - 1)
    {
      if d in t && Up(t, d, k - 1).Some? {
        var y := Up(t, d, k - 1).value;
        assert Up(t, d, k) == Hop(t, y);
      }
    }
  }

  lemma {:induction false} SumLegsIsDownline(t: Table, cs: set<Id>, j: nat)
    requires cs <= t.Keys
    ensures SumLegs(t, cs, j) == |DownlineOfAll(t, cs, j)|
    decreases j, 1, |cs|
  {
    if cs == {} {
      assert DownlineOfAll(t, cs, j) == {};
    } else {
      var c := MinId(cs);
      var rest := cs - {c};
      LegCountIsDownline(t, c, j);
      SumLegsIsDownline(t, rest, j);
      assert DownlineOfAll(t, cs, j) == Downline(t, c, j) + DownlineOfAll(t, rest, j);
      assert Downline(t, c, j) * DownlineOfAll(t, rest, j) == {};
    }
  }

  lemma {:induction false} SameShapeUp(t: Table, u: Table, d: Id, j: nat)
    requires SameShape(t, u)
    ensures Up(t, d, j) == Up(u, d, j)
    decreases j
  {
    if j > 0 {
      SameShapeUp(t, u, d, j - 1);
    }
  }

  /** Changing anything but referrer links and admin flags leaves every downline alone. */
  lemma SameShapeDownline(t: Table, u: Table, x: Id, k: nat)
    requires SameShape(t, u)
    ensures Downline(t, x, k) == Downline(u, x, k)
  {
    forall d | d in t
      ensures Up(t, d, k) == Up(u, d, k)
    {
      SameShapeUp(t, u, d, k);
    }
  }
}
