/** What a verified event means (`billing.py`): checkout completion, subscription events, and the handling of any
    sequence of them one at a time. */
module Billing {
  import opened Results
  import opened BillingTypes
  import opened BillingPrices
  import opened Checkouts
  import opened Subscriptions

  /** The tables an event may change. `seen` has the events whose handling has ended. */
  datatype Ledger = Ledger(checkouts: CheckoutRows, subs: Subs, seen: map<string, Verdict>)

  /** What stays put while events are handled: the provider's name, the deployment's mode, the price map, the catalogue. */
  datatype Setting = Setting(provider: string, livemode: bool, prices: PriceMap, catalogue: Catalogue)

  /** The fields of an event's object that are read. A field that is missing, empty or of the wrong type is `None`;
      `price` is there only when the object has exactly one item, and `checkout` only when the metadata holds a uuid. */
  datatype Payload = Payload(id: Option<string>, subscription: Option<string>, paymentStatus: Option<string>,
                             status: Option<string>, price: Option<string>, checkout: Option<CheckoutId>,
                             start: Option<Time>, end: Option<Time>)
  datatype Event = Event(id: string, kind: string, livemode: bool, created: Time, obj: Payload)

  const CHECKOUT_COMPLETED := "checkout.session.completed"
  const SUBSCRIPTION_CREATED := "customer.subscription.created"
  const SUBSCRIPTION_UPDATED := "customer.subscription.updated"
  const SUBSCRIPTION_DELETED := "customer.subscription.deleted"

  predicate Handled(kind: string) {
    kind == CHECKOUT_COMPLETED || kind == SUBSCRIPTION_CREATED || kind == SUBSCRIPTION_UPDATED || kind == SUBSCRIPTION_DELETED
  }

  /** `stripe_api.STATUS_MAP` */
  function StatusMap(status: string): Option<SubState> {
    if status == "incomplete" then Some(Incomplete)
    else if status == "incomplete_expired" then Some(Canceled)
    else if status == "trialing" then Some(Trialing)
    else if status == "active" then Some(Active)
    else if status == "past_due" || status == "unpaid" || status == "paused" then Some(PastDue)
    else if status == "canceled" then Some(Canceled)
    else None
  }

  function StateFromPaymentStatus(paymentStatus: Option<string>): SubState {
    if paymentStatus == Some("paid") then Active
    else if paymentStatus == Some("no_payment_required") then Trialing
    else Incomplete
  }

  /** The state a subscription event asserts, if it can be told. */
  function AssertedState(e: Event): Option<SubState> {
    if e.kind == SUBSCRIPTION_DELETED then Some(Canceled)
    else if e.obj.status.None? then None
    else StatusMap(e.obj.status.value)
  }

  /** `_moment(created) or now` */
  function Moment(e: Event, now: Time): Time {
    if e.created == 0 then now else e.created
  }

  function VerdictOf(fault: Option<Fault>): Verdict {
    match fault
    case None => Applied
    case Some(PeriodOrder) => Failed
    case Some(_) => Refused
  }

  ghost function PricedPlan(st: Setting, e: Event): Option<PlanCode> {
    if e.obj.price.None? then None else PlanForPrice(st.prices, st.provider, e.livemode, e.obj.price.value)
  }

  /** The row a subscription opened by an event starts as. */
  function OpenedBy(st: Setting, checkout: Checkout, id: CheckoutId, state: SubState, asOf: Time, link: string,
                    start: Option<Time>, end: Option<Time>): Sub {
    Sub(checkout.project, checkout.plan, state, asOf, asOf, start, end, Some((st.provider, link)), Some(id))
  }

  /** `_on_checkout_completed`: the completion is committed before the subscription is created. */
  ghost function OnCheckoutCompleted(st: Setting, l: Ledger, e: Event, fresh_: SubId, now: Time): (Ledger, Verdict) {
    if e.obj.id.None? then (l, Refused)
    else
      var id := BySession(l.checkouts, st.provider, e.obj.id.value);
      if id.None? then (l, Refused)
      else if l.checkouts[id.value].state.Completed? then (l, Ignored)
      else
        var l1 := l.(checkouts := AfterSetState(l.checkouts, id.value, Completed));
        if e.obj.subscription.None? then (l1, Applied)
        else if ByProvider(l.subs, (st.provider, e.obj.subscription.value)).Some? then (l1, Ignored)
        else
          var sub := OpenedBy(st, l.checkouts[id.value], id.value, StateFromPaymentStatus(e.obj.paymentStatus),
                              Moment(e, now), e.obj.subscription.value, None, None);
          var fault := CreateFault(st.catalogue, l.subs, sub);
          (if fault.Some? then l1 else l1.(subs := l.subs[fresh_ := sub]), VerdictOf(fault))
  }

  ghost function CheckoutRowFor(st: Setting, l: Ledger, e: Event): Option<CheckoutId> {
    if e.obj.checkout.Some? && e.obj.checkout.value in l.checkouts && l.checkouts[e.obj.checkout.value].provider == st.provider
    then e.obj.checkout
    else None
  }

  /** `_on_subscription_event` */
  ghost function OnSubscriptionEvent(st: Setting, l: Ledger, e: Event, fresh_: SubId, now: Time): (Ledger, Verdict) {
    var state, priced := AssertedState(e), PricedPlan(st, e);
    if e.obj.id.None? || state.None? then (l, Refused)
    else
      var existing := ByProvider(l.subs, (st.provider, e.obj.id.value));
      if existing.Some? then
        if l.subs[existing.value].state.Canceled? then (l, Ignored)
        else if e.obj.price.Some? && priced.None? then (l, Refused)
        else
          var project := l.subs[existing.value].project;
          var moment := Moment(e, now);
          (l.(subs := AfterRecord(st.catalogue, l.subs, project, state.value, moment, priced, e.obj.start, e.obj.end)),
           VerdictOf(RecordFault(st.catalogue, l.subs, project, state.value, moment, priced, e.obj.start, e.obj.end)))
      else if state.value.Canceled? then (l, Ignored)
      else OpenFromEvent(st, l, e, state.value, priced, fresh_, now)
  }

  ghost function OpenFromEvent(st: Setting, l: Ledger, e: Event, state: SubState, priced: Option<PlanCode>, fresh_: SubId,
                               now: Time): (Ledger, Verdict)
    requires e.obj.id.Some?
  {
    var id := CheckoutRowFor(st, l, e);
    if id.None? || priced != Some(l.checkouts[id.value].plan) then (l, Refused)
    else
      var checkout := l.checkouts[id.value];
      var sub := OpenedBy(st, checkout, id.value, state, Moment(e, now), e.obj.id.value, e.obj.start, e.obj.end);
      var fault := CreateFault(st.catalogue, l.subs, sub);
      if fault.Some? then (l, VerdictOf(fault))
      else
        (l.(subs := l.subs[fresh_ := sub],
            checkouts := if checkout.state.Open? then AfterSetState(l.checkouts, id.value, Completed) else l.checkouts),
         Applied)
  }

  ghost function Acted(st: Setting, l: Ledger, e: Event, fresh_: SubId, now: Time): (Ledger, Verdict) {
    if e.livemode != st.livemode then (l, Refused)
    else if !Handled(e.kind) then (l, Ignored)
    else if e.kind == CHECKOUT_COMPLETED then OnCheckoutCompleted(st, l, e, fresh_, now)
    else OnSubscriptionEvent(st, l, e, fresh_, now)
  }

  /** `handle_event`, when every earlier handling has ended. */
  ghost function HandleEvent(st: Setting, l: Ledger, e: Event, fresh_: SubId, now: Time): Ledger {
    if e.id in l.seen then l
    else
      var (l', verdict) := Acted(st, l, e, fresh_, now);
      l'.(seen := l.seen[e.id := verdict])
  }

  /** The tables as a connection changes them. */
  class Endpoint {
    const st: Setting
    const table: SubscriptionTable
    var checkouts: CheckoutRows
    var seen: map<string, Verdict>

    constructor (st: Setting, table: SubscriptionTable)
      requires table.catalogue == st.catalogue
      ensures this.st == st && this.table == table && checkouts == map[] && seen == map[]
    {
      this.st, this.table, checkouts, seen := st, table, map[], map[];
    }

    ghost function Tables(): Ledger
      reads this, table
    {
      Ledger(checkouts, table.subs, seen)
    }

    ghost predicate Valid()
      reads this, table
    {
      table.catalogue == st.catalogue && IndexesHold(table.subs) && SessionsUnique(checkouts)
    }

    method FindSession(session: string) returns (id: Option<CheckoutId>)
      requires Valid()
      ensures id == BySession(checkouts, st.provider, session)
    {
      id := None;
      if c :| c in checkouts && HasSession(checkouts[c], st.provider, session) {
        return Some(c);
      }
    }

    method FindPlan(livemode: bool, price: PriceId) returns (plan: Option<PlanCode>)
      requires PricesUnique(st.prices)
      ensures plan == PlanForPrice(st.prices, st.provider, livemode, price)
    {
      plan := None;
      if slot :| slot in st.prices && slot.provider == st.provider && slot.livemode == livemode && st.prices[slot] == price {
        assert Maps(st.prices, st.provider, livemode, slot.plan, price);
        return Some(slot.plan);
      }
      assert forall p :: Maps(st.prices, st.provider, livemode, p, price) ==> Slot(st.provider, livemode, p) in st.prices;
    }

    method CompleteCheckout(e: Event, fresh_: SubId, now: Time) returns (verdict: Verdict)
      requires Valid() && fresh_ !in table.subs
      modifies this`checkouts, table
      ensures Valid()
      ensures (Tables(), verdict) == OnCheckoutCompleted(st, old(Tables()), e, fresh_, now)
    {
      hide IndexesHold, CreateFault, StateFromPaymentStatus;
      if e.obj.id.None? {
        return Refused;
      }
      var id := FindSession(e.obj.id.value);
      if id.None? {
        return Refused;
      }
      var row := checkouts[id.value];
      if row.state == Completed {
        return Ignored;
      }
      checkouts := AfterSetState(checkouts, id.value, Completed);
      if e.obj.subscription.None? {
        return Applied;
      }
      var existing := table.FindLinked((st.provider, e.obj.subscription.value));
      if existing.Some? {
        return Ignored;
      }
      var sub := OpenedBy(st, row, id.value, StateFromPaymentStatus(e.obj.paymentStatus), Moment(e, now),
                          e.obj.subscription.value, None, None);
      var fault := table.Create(fresh_, sub);
      verdict := VerdictOf(fault);
    }

    method ApplySubscription(e: Event, fresh_: SubId, now: Time) returns (verdict: Verdict)
      requires Valid() && PricesUnique(st.prices) && fresh_ !in table.subs
      modifies this`checkouts, table
      ensures Valid()
      ensures (Tables(), verdict) == OnSubscriptionEvent(st, old(Tables()), e, fresh_, now)
    {
      hide IndexesHold, CreateFault, AfterRecord, RecordFault, PricesUnique, StatusMap;
      if e.obj.id.None? {
        return Refused;
      }
      var state := AssertedState(e);
      if state.None? {
        return Refused;
      }
      var priced: Option<PlanCode> := None;
      if e.obj.price.Some? {
        priced := FindPlan(e.livemode, e.obj.price.value);
      }
      var existing := table.FindLinked((st.provider, e.obj.id.value));
      if existing.Some? {
        var current := table.subs[existing.value];
        if current.state == Canceled {
          return Ignored;
        }
        if e.obj.price.Some? && priced.None? {
          return Refused;
        }
        var fault := table.RecordState(current.project, state.value, Moment(e, now), priced, e.obj.start, e.obj.end);
        return VerdictOf(fault);
      }
      if state.value == Canceled {
        return Ignored;
      }
      verdict := OpenSubscription(e, state.value, priced, fresh_, now);
    }

    method OpenSubscription(e: Event, state: SubState, priced: Option<PlanCode>, fresh_: SubId, now: Time)
      returns (verdict: Verdict)
      requires Valid() && fresh_ !in table.subs && e.obj.id.Some?
      modifies this`checkouts, table
      ensures Valid()
      ensures (Tables(), verdict) == OpenFromEvent(st, old(Tables()), e, state, priced, fresh_, now)
    {
      hide IndexesHold, CreateFault;
      if e.obj.checkout.None? || e.obj.checkout.value !in checkouts || checkouts[e.obj.checkout.value].provider != st.provider {
        return Refused;
      }
      var id := e.obj.checkout.value;
      var row := checkouts[id];
      if priced.None? || priced.value != row.plan {
        return Refused;
      }
      var fault := table.Create(fresh_, OpenedBy(st, row, id, state, Moment(e, now), e.obj.id.value, e.obj.start, e.obj.end));
      if fault.Some? {
        return VerdictOf(fault);
      }
      if row.state == Open {
        checkouts := AfterSetState(checkouts, id, Completed);
      }
      verdict := Applied;
    }

    /** `handle_event` */
    method Handle(e: Event, fresh_: SubId, now: Time) returns (verdict: Verdict)
      requires Valid() && PricesUnique(st.prices) && fresh_ !in table.subs
      modifies this, table
      ensures Valid()
      ensures Tables() == HandleEvent(st, old(Tables()), e, fresh_, now)
      ensures verdict == if e.id in old(seen) then Ignored else seen[e.id]
    {
      hide IndexesHold, SessionsUnique, OnCheckoutCompleted, OnSubscriptionEvent, PricesUnique;
      if e.id in seen {
        return Ignored;
      }
      if e.livemode != st.livemode {
        verdict := Refused;
      } else if !Handled(e.kind) {
        verdict := Ignored;
      } else if e.kind == CHECKOUT_COMPLETED {
        verdict := CompleteCheckout(e, fresh_, now);
      } else {
        verdict := ApplySubscription(e, fresh_, now);
      }
      seen := seen[e.id := verdict];
    }
  }
}
