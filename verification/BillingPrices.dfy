/** The price map (`billing.py`): `billing_prices` under its two unique constraints. */
module BillingPrices {
  import opened Results
  import opened PyText
  import opened BillingTypes

  type PriceId = string

  /** The key of `billing_prices_plan_key`. */
  datatype Slot = Slot(provider: string, livemode: bool, plan: PlanCode)
  type PriceMap = map<Slot, PriceId>

  datatype PriceError = NoActivePlan | PriceRequired | MappedToAnotherPlan

  predicate SameSide(a: Slot, b: Slot) {
    a.provider == b.provider && a.livemode == b.livemode
  }

  /** `billing_prices_price_key` */
  ghost predicate PricesUnique(prices: PriceMap) {
    forall a <- prices, b <- prices :: SameSide(a, b) && prices[a] == prices[b] ==> a == b
  }

  function PriceForPlan(prices: PriceMap, slot: Slot): Option<PriceId> {
    if slot in prices then Some(prices[slot]) else None
  }

  predicate Maps(prices: PriceMap, provider: string, livemode: bool, plan: PlanCode, price: PriceId) {
    var slot := Slot(provider, livemode, plan);
    slot in prices && prices[slot] == price
  }

  ghost function PlanForPrice(prices: PriceMap, provider: string, livemode: bool, price: PriceId): (plan: Option<PlanCode>)
    ensures plan.Some? ==> Maps(prices, provider, livemode, plan.value, price)
    ensures plan.None? ==> forall p :: !Maps(prices, provider, livemode, p, price)
  {
    if p :| Maps(prices, provider, livemode, p, price) then Some(p) else None
  }

  ghost predicate TakenByAnother(prices: PriceMap, slot: Slot, price: PriceId) {
    exists other <- prices :: other != slot && SameSide(other, slot) && prices[other] == price
  }

  /** What `set_price` and `remove_price` leave. */
  ghost function AfterSet(prices: PriceMap, plans: set<PlanCode>, slot: Slot, price: PriceId): PriceMap {
    if slot.plan !in plans || Strip(price) == "" || TakenByAnother(prices, slot, Strip(price)) then prices
    else prices[slot := Strip(price)]
  }

  class PriceTable {
    var prices: PriceMap

    constructor ()
      ensures prices == map[]
    {
      prices := map[];
    }

    /** `plans` are the codes of the active plans. */
    method SetPrice(plans: set<PlanCode>, slot: Slot, price: PriceId) returns (error: Option<PriceError>)
      requires PricesUnique(prices)
      modifies this
      ensures PricesUnique(prices)
      ensures prices == AfterSet(old(prices), plans, slot, price)
      ensures error == Some(NoActivePlan) <==> slot.plan !in plans
      ensures error == Some(PriceRequired) <==> slot.plan in plans && Strip(price) == ""
      ensures error == Some(MappedToAnotherPlan) <==>
                slot.plan in plans && Strip(price) != "" && TakenByAnother(old(prices), slot, Strip(price))
      ensures prices == if error.None? then old(prices)[slot := Strip(price)] else old(prices)
      ensures error.None? ==> PriceForPlan(prices, slot) == Some(Strip(price))
    {
      hide Strip;
      if slot.plan !in plans {
        return Some(NoActivePlan);
      }
      var stripped := Strip(price);
      if stripped == "" {
        return Some(PriceRequired);
      }
      var violated := exists other <- prices :: other != slot && SameSide(other, slot) && prices[other] == stripped;
      if violated {
        return Some(MappedToAnotherPlan);
      }
      prices := prices[slot := stripped];
      error := None;
    }

    method RemovePrice(slot: Slot) returns (removed: bool)
      requires PricesUnique(prices)
      modifies this
      ensures PricesUnique(prices)
      ensures prices == old(prices) - {slot} && (removed <==> slot in old(prices))
      ensures PriceForPlan(prices, slot).None?
    {
      removed := slot in prices;
      prices := prices - {slot};
    }
  }

  // ------------------------------------------------------------------- runs

  datatype Op = Set(plans: set<PlanCode>, slot: Slot, price: PriceId) | Remove(slot: Slot)

  ghost function After(prices: PriceMap, ops: seq<Op>): PriceMap {
    if ops == [] then prices
    else
      var before := After(prices, ops[..|ops| - 1]);
      match ops[|ops| - 1]
      case Set(plans, slot, price) => AfterSet(before, plans, slot, price)
      case Remove(slot) => before - {slot}
  }

  lemma {:induction false} SettingKeepsUnique(prices: PriceMap, plans: set<PlanCode>, slot: Slot, price: PriceId)
    requires PricesUnique(prices)
    ensures PricesUnique(AfterSet(prices, plans, slot, price))
  {
    hide Strip;
  }

  lemma {:induction false} RunKeepsUnique(prices: PriceMap, ops: seq<Op>)
    requires PricesUnique(prices)
    ensures PricesUnique(After(prices, ops))
    decreases |ops|
  {
    if ops == [] {
    } else {
      hide Strip;
      RunKeepsUnique(prices, ops[..|ops| - 1]);
    }
  }

  /** After any mix of settings and removals, refused ones included, the map is a partial bijection between plans and
      prices for each provider and mode: each lookup undoes the other. */
  lemma {:induction false} LookupsAreInverse(ops: seq<Op>, provider: string, livemode: bool, plan: PlanCode, price: PriceId)
    ensures var prices := After(map[], ops);
      PriceForPlan(prices, Slot(provider, livemode, plan)) == Some(price) <==>
        PlanForPrice(prices, provider, livemode, price) == Some(plan)
  {
    RunKeepsUnique(map[], ops);
    var prices := After(map[], ops);
    assert Maps(prices, provider, livemode, plan, price) ==> PlanForPrice(prices, provider, livemode, price).Some?;
  }

  /** What a setting leaves, in a run: exactly that plan's price, without the white space around it, unless the plan is not offered,
      nothing is left of the price, or another plan of the same provider and mode has it. */
  lemma {:induction false} SetExactly(prices: PriceMap, ops: seq<Op>, plans: set<PlanCode>, slot: Slot, price: PriceId)
    ensures var before, stripped := After(prices, ops), Strip(price);
      After(prices, ops + [Set(plans, slot, price)]) ==
        if slot.plan !in plans || stripped == ""
           || (exists plan :: plan != slot.plan && Slot(slot.provider, slot.livemode, plan) in before
                              && before[Slot(slot.provider, slot.livemode, plan)] == stripped)
        then before else before[slot := stripped]
    ensures After(prices, ops + [Remove(slot)]) == After(prices, ops) - {slot}
  {
    hide Strip;
    var before, stripped := After(prices, ops), Strip(price);
    assert (ops + [Set(plans, slot, price)])[..|ops|] == ops && (ops + [Remove(slot)])[..|ops|] == ops;
    if other :| other in before && other != slot && SameSide(other, slot) && before[other] == stripped {
      assert other == Slot(slot.provider, slot.livemode, other.plan);
    }
    if plan :| plan != slot.plan && Slot(slot.provider, slot.livemode, plan) in before
               && before[Slot(slot.provider, slot.livemode, plan)] == stripped {
      assert SameSide(Slot(slot.provider, slot.livemode, plan), slot);
    }
  }
}
