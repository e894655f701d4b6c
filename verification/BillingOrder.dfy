/** A checkout's completion and the subscription events it leads to, in either order (`billing.py`). */
module BillingOrder {
  import opened Results
  import opened BillingTypes
  import opened BillingPrices
  import opened Checkouts
  import opened Subscriptions
  import opened Billing
  import opened BillingEvents

  /** A completion `a` of the checkout `c` that names subscription `x`, both new to the platform. */
  ghost predicate Completes(st: Setting, l: Ledger, a: Event, c: CheckoutId, x: string) {
    && a.kind == CHECKOUT_COMPLETED && a.livemode == st.livemode && a.id !in l.seen
    && c in l.checkouts && !l.checkouts[c].state.Completed?
    && a.obj.id.Some? && HasSession(l.checkouts[c], st.provider, a.obj.id.value)
    && a.obj.subscription == Some(x)
    && ByProvider(l.subs, (st.provider, x)).None?
  }

  /** An event `b` about the subscription `x` that leads back to checkout `c`, at a price of the checkout's plan. */
  ghost predicate Subscribes(st: Setting, l: Ledger, b: Event, c: CheckoutId, x: string) {
    && (b.kind == SUBSCRIPTION_CREATED || b.kind == SUBSCRIPTION_UPDATED) && b.livemode == st.livemode && b.id !in l.seen
    && b.obj.id == Some(x) && b.obj.checkout == Some(c)
    && AssertedState(b).Some? && !AssertedState(b).value.Canceled?
    && c in l.checkouts && PricedPlan(st, b) == Some(l.checkouts[c].plan)
  }

  ghost function Opened(st: Setting, l: Ledger, c: CheckoutId, state: SubState, asOf: Time, x: string,
                        start: Option<Time>, end: Option<Time>): Sub
    requires c in l.checkouts
  {
    OpenedBy(st, l.checkouts[c], c, state, asOf, x, start, end)
  }

  /** Whether `create` would take the row is decided by the checkout alone, but for the periods. */
  ghost predicate CanOpen(st: Setting, l: Ledger, c: CheckoutId, x: string)
    requires c in l.checkouts
  {
    CreateFault(st.catalogue, l.subs, Opened(st, l, c, Active, 0, x, None, None)).None?
  }

  lemma {:induction false} CanOpenDecides(st: Setting, l: Ledger, c: CheckoutId, x: string, state: SubState, asOf: Time,
                                          start: Option<Time>, end: Option<Time>)
    requires c in l.checkouts && !state.Canceled?
    ensures CreateFault(st.catalogue, l.subs, Opened(st, l, c, state, asOf, x, start, end)).None? <==>
              CanOpen(st, l, c, x) && PeriodOk(start, end)
  {
  }

  lemma {:induction false} SessionIs(st: Setting, checkouts: CheckoutRows, c: CheckoutId, session: string)
    requires SessionsUnique(checkouts) && c in checkouts && HasSession(checkouts[c], st.provider, session)
    ensures BySession(checkouts, st.provider, session) == Some(c)
  {
  }

  /** A row just added is the one its link and its project lead to. */
  lemma {:induction false} NewRowIsFound(subs: Subs, id: SubId, sub: Sub)
    requires IndexesHold(subs) && id !in subs && sub.link.Some? && !sub.state.Canceled?
    requires ForProject(subs, sub.project).None? && !LinkTaken(subs, sub.link) && !CheckoutTaken(subs, sub.checkout)
    ensures ByProvider(subs[id := sub], sub.link.value) == Some(id)
    ensures ForProject(subs[id := sub], sub.project) == Some(id)
  {
    InsertKeepsIndexes(subs, id, sub);
    var after := subs[id := sub];
    assert after[id].link == sub.link && LiveFor(after[id], sub.project);
  }

  // ------------------------------------------------------------------- one event

  lemma {:induction false} CompletionAlone(st: Setting, l: Ledger, a: Event, c: CheckoutId, x: string, i: SubId, now: Time)
    requires Sound(l) && i !in l.subs && Completes(st, l, a, c, x)
    ensures var (l', _) := OnCheckoutCompleted(st, l, a, i, now);
      && l'.checkouts == AfterSetState(l.checkouts, c, Completed)
      && l'.subs == (if CanOpen(st, l, c, x)
                     then l.subs[i := Opened(st, l, c, StateFromPaymentStatus(a.obj.paymentStatus), Moment(a, now), x, None, None)]
                     else l.subs)
  {
    hide IndexesHold, CreateFault, StateFromPaymentStatus, CanOpen;
    SessionIs(st, l.checkouts, c, a.obj.id.value);
    assert !StateFromPaymentStatus(a.obj.paymentStatus).Canceled? by { PaymentNeverCancels(a.obj.paymentStatus); }
    CanOpenDecides(st, l, c, x, StateFromPaymentStatus(a.obj.paymentStatus), Moment(a, now), None, None);
  }

  lemma {:induction false} PaymentNeverCancels(paymentStatus: Option<string>)
    ensures !StateFromPaymentStatus(paymentStatus).Canceled? && !StateFromPaymentStatus(paymentStatus).PastDue?
  {
  }

  lemma {:induction false} SubscriptionAlone(st: Setting, l: Ledger, b: Event, c: CheckoutId, x: string, j: SubId, now: Time)
    requires Sound(l) && j !in l.subs && Subscribes(st, l, b, c, x)
    requires ByProvider(l.subs, (st.provider, x)).None? && l.checkouts[c].provider == st.provider
    ensures var (l', _) := OnSubscriptionEvent(st, l, b, j, now); var checkout := l.checkouts[c];
      if CanOpen(st, l, c, x) && PeriodOk(b.obj.start, b.obj.end) then
        && l'.subs == l.subs[j := Opened(st, l, c, AssertedState(b).value, Moment(b, now), x, b.obj.start, b.obj.end)]
        && l'.checkouts == if checkout.state.Open? then AfterSetState(l.checkouts, c, Completed) else l.checkouts
      else
        l'.subs == l.subs && l'.checkouts == l.checkouts
  {
    hide IndexesHold, CreateFault, CanOpen, StatusMap;
    CanOpenDecides(st, l, c, x, AssertedState(b).value, Moment(b, now), b.obj.start, b.obj.end);
  }

  lemma {:induction false} HandledCompletion(st: Setting, l: Ledger, a: Event, i: SubId, now: Time)
    requires a.kind == CHECKOUT_COMPLETED && a.livemode == st.livemode && a.id !in l.seen
    ensures var l' := HandleEvent(st, l, a, i, now); var done := OnCheckoutCompleted(st, l, a, i, now).0;
      l'.subs == done.subs && l'.checkouts == done.checkouts && l'.seen.Keys == l.seen.Keys + {a.id}
  {
    hide CreateFault, StateFromPaymentStatus, ByProvider, BySession;
  }

  lemma {:induction false} HandledSubscription(st: Setting, l: Ledger, b: Event, j: SubId, now: Time)
    requires b.kind == SUBSCRIPTION_CREATED || b.kind == SUBSCRIPTION_UPDATED || b.kind == SUBSCRIPTION_DELETED
    requires b.livemode == st.livemode && b.id !in l.seen
    ensures var l' := HandleEvent(st, l, b, j, now); var done := OnSubscriptionEvent(st, l, b, j, now).0;
      l'.subs == done.subs && l'.checkouts == done.checkouts && l'.seen.Keys == l.seen.Keys + {b.id}
  {
    hide CreateFault, AfterRecord, RecordFault, ByProvider, StatusMap;
    assert |SUBSCRIPTION_CREATED| == |SUBSCRIPTION_UPDATED| == |SUBSCRIPTION_DELETED| == 29 && |CHECKOUT_COMPLETED| == 26;
  }

  // ------------------------------------------------------------------- the second event

  /** Whether the state of `b` is taken on a row opened with state `sa` as of `ma`. */
  predicate Takes(sa: SubState, ma: Time, b: Event, mb: Time) {
    AssertedState(b).Some? && AssertedState(b).value in Transitions(sa) && ma <= mb && PeriodOk(b.obj.start, b.obj.end)
  }

  lemma {:induction false} SubscriptionSecond(st: Setting, l: Ledger, b: Event, c: CheckoutId, x: string, i: SubId, j: SubId,
                                              sa: SubState, ma: Time, now: Time)
    requires IndexesHold(l.subs) && i !in l.subs && Subscribes(st, l, b, c, x) && CanOpen(st, l, c, x) && !sa.Canceled?
    ensures var subA := Opened(st, l, c, sa, ma, x, None, None); var l1 := l.(subs := l.subs[i := subA]);
      var l2 := OnSubscriptionEvent(st, l1, b, j, now).0;
      && l2.checkouts == l1.checkouts
      && l2.subs == if Takes(sa, ma, b, Moment(b, now))
                    then l.subs[i := Asserted(subA, AssertedState(b).value, Moment(b, now), Some(l.checkouts[c].plan),
                                              b.obj.start, b.obj.end)]
                    else l1.subs
  {
    hide IndexesHold, StatusMap;
    var subA := Opened(st, l, c, sa, ma, x, None, None);
    var subs := l.subs[i := subA];
    NewRowIsFound(l.subs, i, subA);
    assert ByProvider(subs, (st.provider, x)) == Some(i) && ForProject(subs, subA.project) == Some(i);
    var fault := AssertFault(st.catalogue, subA, AssertedState(b).value, Moment(b, now), Some(l.checkouts[c].plan),
                             b.obj.start, b.obj.end);
    assert fault.None? <==> Takes(sa, ma, b, Moment(b, now));
  }

  lemma {:induction false} CompletionSecond(st: Setting, l: Ledger, a: Event, c: CheckoutId, x: string, i: SubId, now: Time)
    requires SessionsUnique(l.checkouts) && c in l.checkouts && a.obj.id.Some? && a.obj.subscription == Some(x)
    requires HasSession(l.checkouts[c], st.provider, a.obj.id.value)
    requires ByProvider(l.subs, (st.provider, x)).Some?
    ensures var l' := OnCheckoutCompleted(st, l, a, i, now).0;
      l'.subs == l.subs && l'.checkouts == AfterSetState(l.checkouts, c, Completed)
  {
    hide CreateFault, StateFromPaymentStatus;
    SessionIs(st, l.checkouts, c, a.obj.id.value);
  }

  // ------------------------------------------------------------------- both orders

  ghost function CheckoutFirst(st: Setting, l: Ledger, a: Event, b: Event, i: SubId, j: SubId, na: Time, nb: Time): Ledger {
    HandleEvent(st, HandleEvent(st, l, a, i, na), b, j, nb)
  }

  ghost function SubscriptionFirst(st: Setting, l: Ledger, a: Event, b: Event, i: SubId, j: SubId, na: Time, nb: Time): Ledger {
    HandleEvent(st, HandleEvent(st, l, b, j, nb), a, i, na)
  }

  ghost predicate Pair(st: Setting, l: Ledger, a: Event, b: Event, c: CheckoutId, x: string, i: SubId, j: SubId) {
    && Sound(l) && i !in l.subs && j !in l.subs && i != j && a.id != b.id
    && Completes(st, l, a, c, x) && Subscribes(st, l, b, c, x)
  }

  function OpeningState(a: Event): SubState {
    StateFromPaymentStatus(a.obj.paymentStatus)
  }

  lemma {:induction false} CheckoutFirstIs(st: Setting, l: Ledger, a: Event, b: Event, c: CheckoutId, x: string,
                                           i: SubId, j: SubId, na: Time, nb: Time)
    requires Pair(st, l, a, b, c, x, i, j)
    ensures var end := CheckoutFirst(st, l, a, b, i, j, na, nb);
      var subA := Opened(st, l, c, OpeningState(a), Moment(a, na), x, None, None);
      && end.checkouts == AfterSetState(l.checkouts, c, Completed)
      && end.subs ==
           if !CanOpen(st, l, c, x) then l.subs
           else if Takes(OpeningState(a), Moment(a, na), b, Moment(b, nb)) then
             l.subs[i := Asserted(subA, AssertedState(b).value, Moment(b, nb), Some(l.checkouts[c].plan), b.obj.start, b.obj.end)]
           else l.subs[i := subA]
  {
    hide HandleEvent, OnCheckoutCompleted, OnSubscriptionEvent, StateFromPaymentStatus, StatusMap, Takes, Asserted, CreateFault,
         IndexesHold;
    PaymentNeverCancels(a.obj.paymentStatus);
    HandledCompletion(st, l, a, i, na);
    CompletionAlone(st, l, a, c, x, i, na);
    var l1 := HandleEvent(st, l, a, i, na);
    HandledSubscription(st, l1, b, j, nb);
    if CanOpen(st, l, c, x) {
      var done := l.(checkouts := l1.checkouts, seen := l1.seen);
      assert CanOpen(st, done, c, x) by { SameCanOpen(st, l, done, c, x); }
      SubscriptionSecond(st, done, b, c, x, i, j, OpeningState(a), Moment(a, na), nb);
      assert done.(subs := done.subs[i := Opened(st, done, c, OpeningState(a), Moment(a, na), x, None, None)]) == l1;
    } else {
      SameCanOpen(st, l, l1, c, x);
      SessionsAfter(l.checkouts, c);
      SubscriptionAlone(st, l1, b, c, x, j, nb);
    }
  }

  lemma {:induction false} SessionsAfter(checkouts: CheckoutRows, c: CheckoutId)
    requires SessionsUnique(checkouts) && c in checkouts
    ensures SessionsUnique(AfterSetState(checkouts, c, Completed))
  {
  }

  lemma {:induction false} SameCanOpen(st: Setting, l: Ledger, l': Ledger, c: CheckoutId, x: string)
    requires c in l.checkouts && c in l'.checkouts && l'.subs == l.subs
    requires l'.checkouts[c].project == l.checkouts[c].project && l'.checkouts[c].plan == l.checkouts[c].plan
    ensures CanOpen(st, l', c, x) <==> CanOpen(st, l, c, x)
  {
  }

  lemma {:induction false} SubscriptionFirstIs(st: Setting, l: Ledger, a: Event, b: Event, c: CheckoutId, x: string,
                                               i: SubId, j: SubId, na: Time, nb: Time)
    requires Pair(st, l, a, b, c, x, i, j)
    ensures var end := SubscriptionFirst(st, l, a, b, i, j, na, nb);
      && end.checkouts == AfterSetState(l.checkouts, c, Completed)
      && end.subs ==
           if !CanOpen(st, l, c, x) then l.subs
           else if PeriodOk(b.obj.start, b.obj.end) then
             l.subs[j := Opened(st, l, c, AssertedState(b).value, Moment(b, nb), x, b.obj.start, b.obj.end)]
           else l.subs[i := Opened(st, l, c, OpeningState(a), Moment(a, na), x, None, None)]
  {
    hide HandleEvent, OnCheckoutCompleted, OnSubscriptionEvent, StateFromPaymentStatus, StatusMap, CreateFault, IndexesHold;
    HandledSubscription(st, l, b, j, nb);
    SubscriptionAlone(st, l, b, c, x, j, nb);
    var l1 := HandleEvent(st, l, b, j, nb);
    HandledCompletion(st, l1, a, i, na);
    if CanOpen(st, l, c, x) && PeriodOk(b.obj.start, b.obj.end) {
      SessionsAfter(l.checkouts, c);
      FoundAfterOpening(st, l, c, x, j, AssertedState(b).value, Moment(b, nb), b.obj.start, b.obj.end);
      CompletionSecond(st, l1, a, c, x, i, na);
    } else {
      SameCanOpen(st, l, l1, c, x);
      CompletionAlone(st, l1, a, c, x, i, na);
    }
  }

  lemma {:induction false} FoundAfterOpening(st: Setting, l: Ledger, c: CheckoutId, x: string, id: SubId, state: SubState,
                                             asOf: Time, start: Option<Time>, end: Option<Time>)
    requires IndexesHold(l.subs) && id !in l.subs && c in l.checkouts && !state.Canceled? && CanOpen(st, l, c, x)
    ensures var subs := l.subs[id := Opened(st, l, c, state, asOf, x, start, end)];
      ByProvider(subs, (st.provider, x)) == Some(id) && ForProject(subs, l.checkouts[c].project) == Some(id)
  {
    hide IndexesHold;
    NewRowIsFound(l.subs, id, Opened(st, l, c, state, asOf, x, start, end));
  }

  /** A live row for `x` under checkout `c`, found by the provider's id and by the project alike. */
  ghost predicate SoldAs(st: Setting, l: Ledger, c: CheckoutId, x: string, plan: PlanCode, project: ProjectId) {
    var id := ByProvider(l.subs, (st.provider, x));
    && id.Some? && id == ForProject(l.subs, project)
    && l.subs[id.value].project == project && l.subs[id.value].plan == plan
    && l.subs[id.value].checkout == Some(c) && !l.subs[id.value].state.Canceled?
  }

  ghost function StateOf(st: Setting, l: Ledger, x: string): Option<SubState> {
    var id := ByProvider(l.subs, (st.provider, x));
    if id.None? then None else Some(l.subs[id.value].state)
  }

  lemma {:induction false} SoldByOne(st: Setting, l: Ledger, c: CheckoutId, x: string, id: SubId, sub: Sub, end: Ledger)
    requires IndexesHold(l.subs) && id !in l.subs && c in l.checkouts && CanOpen(st, l, c, x)
    requires ByProvider(l.subs, (st.provider, x)).None?
    requires sub.project == l.checkouts[c].project && sub.plan == l.checkouts[c].plan && sub.checkout == Some(c)
    requires sub.link == Some((st.provider, x)) && !sub.state.Canceled?
    requires end.subs == l.subs[id := sub]
    ensures SoldAs(st, end, c, x, l.checkouts[c].plan, l.checkouts[c].project)
    ensures StateOf(st, end, x) == Some(sub.state)
  {
    hide IndexesHold;
    NewRowIsFound(l.subs, id, sub);
  }

  /** Checkout first or subscription first, both orders end with the checkout completed, and with the same project on the
      same plan under the same checkout, or with no subscription in either. Their states agree exactly when the event's
      periods are refused, or its state is the opening state, or it may follow the opening state and is no older. */
  lemma {:induction false} OrdersAgree(st: Setting, l: Ledger, a: Event, b: Event, c: CheckoutId, x: string,
                                       i: SubId, j: SubId, na: Time, nb: Time)
    requires Pair(st, l, a, b, c, x, i, j)
    ensures var ab, ba := CheckoutFirst(st, l, a, b, i, j, na, nb), SubscriptionFirst(st, l, a, b, i, j, na, nb);
      var plan, project := l.checkouts[c].plan, l.checkouts[c].project;
      && ab.checkouts == ba.checkouts == AfterSetState(l.checkouts, c, Completed)
      && (!CanOpen(st, l, c, x) ==> ab.subs == ba.subs == l.subs)
      && (CanOpen(st, l, c, x) ==> SoldAs(st, ab, c, x, plan, project) && SoldAs(st, ba, c, x, plan, project))
      && (CanOpen(st, l, c, x) ==>
            (StateOf(st, ab, x) == StateOf(st, ba, x) <==>
               || !PeriodOk(b.obj.start, b.obj.end)
               || AssertedState(b).value == OpeningState(a)
               || (AssertedState(b).value in Transitions(OpeningState(a)) && Moment(a, na) <= Moment(b, nb))))
  {
    hide CheckoutFirst, SubscriptionFirst, IndexesHold, CanOpen, StateFromPaymentStatus, StatusMap, SoldAs, StateOf;
    CheckoutFirstIs(st, l, a, b, c, x, i, j, na, nb);
    SubscriptionFirstIs(st, l, a, b, c, x, i, j, na, nb);
    PaymentNeverCancels(a.obj.paymentStatus);
    if CanOpen(st, l, c, x) {
      var ab, ba := CheckoutFirst(st, l, a, b, i, j, na, nb), SubscriptionFirst(st, l, a, b, i, j, na, nb);
      SoldByOne(st, l, c, x, i, ab.subs[i], ab);
      if PeriodOk(b.obj.start, b.obj.end) {
        SoldByOne(st, l, c, x, j, ba.subs[j], ba);
      } else {
        SoldByOne(st, l, c, x, i, ba.subs[i], ba);
      }
    }
  }

  /** The orders can disagree: a trial that a checkout opened as paid never becomes a trial again. */
  lemma {:induction false} OrdersMayDisagree(st: Setting, l: Ledger, a: Event, b: Event, c: CheckoutId, x: string,
                                             i: SubId, j: SubId, na: Time, nb: Time)
    requires Pair(st, l, a, b, c, x, i, j) && CanOpen(st, l, c, x) && PeriodOk(b.obj.start, b.obj.end)
    requires a.obj.paymentStatus == Some("paid") && b.obj.status == Some("trialing")
    ensures StateOf(st, CheckoutFirst(st, l, a, b, i, j, na, nb), x) == Some(Active)
    ensures StateOf(st, SubscriptionFirst(st, l, a, b, i, j, na, nb), x) == Some(Trialing)
  {
    hide CheckoutFirst, SubscriptionFirst, IndexesHold, CanOpen, SoldAs, StateOf;
    CheckoutFirstIs(st, l, a, b, c, x, i, j, na, nb);
    SubscriptionFirstIs(st, l, a, b, c, x, i, j, na, nb);
    TrialAsserted(b);
    var ab, ba := CheckoutFirst(st, l, a, b, i, j, na, nb), SubscriptionFirst(st, l, a, b, i, j, na, nb);
    SoldByOne(st, l, c, x, i, ab.subs[i], ab);
    SoldByOne(st, l, c, x, j, ba.subs[j], ba);
  }

  lemma {:induction false} TrialAsserted(b: Event)
    requires b.obj.status == Some("trialing") && b.kind != SUBSCRIPTION_DELETED
    ensures AssertedState(b) == Some(Trialing)
  {
    assert |"incomplete"| == 10 && |"incomplete_expired"| == 18 && |"trialing"| == 8;
  }

  // ------------------------------------------------------------------- deletions and crashes

  /** An event `d` that ends subscription `x`. */
  ghost predicate Ends(st: Setting, l: Ledger, d: Event, x: string) {
    d.kind == SUBSCRIPTION_DELETED && d.livemode == st.livemode && d.id !in l.seen && d.obj.id == Some(x)
  }

  /** Whether a deletion is taken on a live row: it names no price or one that maps to an active plan, it is no older than the
      row, and the periods it leaves are in order. */
  ghost predicate EndsRow(st: Setting, d: Event, sub: Sub, moment: Time) {
    && (d.obj.price.None? || (PricedPlan(st, d).Some? && PricedPlan(st, d).value in st.catalogue.plans))
    && sub.asOf <= moment
    && PeriodOk(if d.obj.start.Some? then d.obj.start else sub.start, if d.obj.end.Some? then d.obj.end else sub.end)
  }

  lemma {:induction false} DeletionRecords(st: Setting, l: Ledger, d: Event, x: string, j: SubId, now: Time, id: SubId)
    requires IndexesHold(l.subs) && Ends(st, l, d, x)
    requires ByProvider(l.subs, (st.provider, x)) == Some(id) && !l.subs[id].state.Canceled?
    ensures var after := OnSubscriptionEvent(st, l, d, j, now).0.subs;
      && after.Keys == l.subs.Keys && (forall s <- after :: s != id ==> after[s] == l.subs[s])
      && after[id].link == l.subs[id].link
      && (after[id].state.Canceled? <==> EndsRow(st, d, l.subs[id], Moment(d, now)))
      && (!after[id].state.Canceled? ==> after[id] == l.subs[id])
  {
    hide IndexesHold, StatusMap, PeriodOk, PlanForPrice, ByProvider;
    LinkedRowIsTheProjects(l.subs, (st.provider, x));
  }

  lemma {:induction false} StillLinked(before: Subs, link: (string, string), id: SubId, after: Subs)
    requires IndexesHold(before) && ByProvider(before, link) == Some(id) && after.Keys == before.Keys
    requires (forall s <- after :: s != id ==> after[s] == before[s]) && after[id].link == before[id].link
    ensures ByProvider(after, link) == Some(id)
  {
  }

  /** A deletion ends the live row of its subscription exactly when it names no price, or one that still maps to an active
      plan, and is no older than the row, and its periods are accepted. A plan taken off the price map keeps the rows of
      subscriptions that end afterwards alive. */
  lemma {:induction false} DeletionEndsIff(st: Setting, l: Ledger, d: Event, x: string, j: SubId, now: Time, id: SubId)
    requires IndexesHold(l.subs) && Ends(st, l, d, x)
    requires ByProvider(l.subs, (st.provider, x)) == Some(id) && !l.subs[id].state.Canceled?
    ensures StateOf(st, HandleEvent(st, l, d, j, now), x) ==
              Some(if EndsRow(st, d, l.subs[id], Moment(d, now)) then Canceled else l.subs[id].state)
  {
    hide HandleEvent, IndexesHold, OnSubscriptionEvent, EndsRow, ByProvider;
    HandledSubscription(st, l, d, j, now);
    DeletionRecords(st, l, d, x, j, now, id);
    StillLinked(l.subs, (st.provider, x), id, OnSubscriptionEvent(st, l, d, j, now).0.subs);
  }

  /** A deletion that arrives before the completion is forgotten: the completion then opens a live row for a subscription
      the provider has already ended. In the other order the row ends as any deletion ends it. */
  lemma {:induction false} DeletionFirstIsForgotten(st: Setting, l: Ledger, a: Event, d: Event, c: CheckoutId, x: string,
                                                    i: SubId, j: SubId, na: Time, nd: Time)
    requires Sound(l) && i !in l.subs && j !in l.subs && a.id != d.id
    requires Completes(st, l, a, c, x) && Ends(st, l, d, x) && CanOpen(st, l, c, x)
    ensures StateOf(st, HandleEvent(st, HandleEvent(st, l, d, j, nd), a, i, na), x) == Some(OpeningState(a))
    ensures StateOf(st, HandleEvent(st, HandleEvent(st, l, a, i, na), d, j, nd), x) ==
              Some(if EndsRow(st, d, Opened(st, l, c, OpeningState(a), Moment(a, na), x, None, None), Moment(d, nd))
                   then Canceled else OpeningState(a))
  {
    hide HandleEvent, OnCheckoutCompleted, OnSubscriptionEvent, StateFromPaymentStatus, StatusMap, CreateFault, IndexesHold,
         CanOpen, StateOf, SoldAs, EndsRow;
    PaymentNeverCancels(a.obj.paymentStatus);
    DeletionOfUnknown(st, l, d, x, j, nd);
    HandledSubscription(st, l, d, j, nd);
    var ld := HandleEvent(st, l, d, j, nd);
    HandledCompletion(st, ld, a, i, na);
    SameCanOpen(st, l, ld, c, x);
    CompletionAlone(st, ld, a, c, x, i, na);
    var sub := Opened(st, l, c, OpeningState(a), Moment(a, na), x, None, None);
    SoldByOne(st, l, c, x, i, sub, HandleEvent(st, ld, a, i, na));
    DeletionAfterCompletion(st, l, a, d, c, x, i, j, na, nd);
  }

  lemma {:induction false} DeletionAfterCompletion(st: Setting, l: Ledger, a: Event, d: Event, c: CheckoutId, x: string,
                                                   i: SubId, j: SubId, na: Time, nd: Time)
    requires Sound(l) && i !in l.subs && j !in l.subs && a.id != d.id
    requires Completes(st, l, a, c, x) && Ends(st, l, d, x) && CanOpen(st, l, c, x)
    ensures StateOf(st, HandleEvent(st, HandleEvent(st, l, a, i, na), d, j, nd), x) ==
              Some(if EndsRow(st, d, Opened(st, l, c, OpeningState(a), Moment(a, na), x, None, None), Moment(d, nd))
                   then Canceled else OpeningState(a))
  {
    hide HandleEvent, OnCheckoutCompleted, OnSubscriptionEvent, StateFromPaymentStatus, StatusMap, CreateFault, IndexesHold,
         CanOpen, StateOf, EndsRow;
    PaymentNeverCancels(a.obj.paymentStatus);
    HandledCompletion(st, l, a, i, na);
    CompletionAlone(st, l, a, c, x, i, na);
    var la := HandleEvent(st, l, a, i, na);
    var sub := Opened(st, l, c, OpeningState(a), Moment(a, na), x, None, None);
    FoundAfterOpening(st, l, c, x, i, OpeningState(a), Moment(a, na), None, None);
    OpeningKeepsIndexes(st, l, c, x, i, sub);
    DeletionEndsIff(st, la, d, x, j, nd, i);
  }

  lemma {:induction false} OpeningKeepsIndexes(st: Setting, l: Ledger, c: CheckoutId, x: string, id: SubId, sub: Sub)
    requires IndexesHold(l.subs) && id !in l.subs && c in l.checkouts && CanOpen(st, l, c, x)
    requires sub.project == l.checkouts[c].project && sub.link == Some((st.provider, x)) && sub.checkout == Some(c)
    ensures IndexesHold(l.subs[id := sub])
  {
    hide IndexesHold;
    InsertKeepsIndexes(l.subs, id, sub);
  }

  lemma {:induction false} DeletionOfUnknown(st: Setting, l: Ledger, d: Event, x: string, j: SubId, now: Time)
    requires Ends(st, l, d, x) && ByProvider(l.subs, (st.provider, x)).None?
    ensures OnSubscriptionEvent(st, l, d, j, now).0 == l
  {
  }

  /** A handler that dies right after committing the completion leaves the checkout completed and nothing opened. Its
      redelivery then opens nothing either; the next event about the subscription does, as if the completion had not
      been lost. */
  lemma {:induction false} DeathAfterCompletion(st: Setting, l: Ledger, a: Event, b: Event, c: CheckoutId, x: string,
                                                i: SubId, j: SubId, na: Time, nb: Time)
    requires Pair(st, l, a, b, c, x, i, j)
    ensures var dead := l.(checkouts := AfterSetState(l.checkouts, c, Completed));
      var again := HandleEvent(st, dead, a, i, na);
      var end := HandleEvent(st, again, b, j, nb);
      && again.subs == l.subs && again.checkouts == dead.checkouts
      && end.checkouts == dead.checkouts
      && end.subs == if CanOpen(st, l, c, x) && PeriodOk(b.obj.start, b.obj.end)
                     then l.subs[j := Opened(st, l, c, AssertedState(b).value, Moment(b, nb), x, b.obj.start, b.obj.end)]
                     else l.subs
  {
    hide HandleEvent, OnSubscriptionEvent, StateFromPaymentStatus, StatusMap, CreateFault, IndexesHold, CanOpen;
    SessionsAfter(l.checkouts, c);
    var dead := l.(checkouts := AfterSetState(l.checkouts, c, Completed));
    SessionIs(st, dead.checkouts, c, a.obj.id.value);
    HandledCompletion(st, dead, a, i, na);
    var again := HandleEvent(st, dead, a, i, na);
    HandledSubscription(st, again, b, j, nb);
    SameCanOpen(st, l, again, c, x);
    SubscriptionAlone(st, again, b, c, x, j, nb);
  }
}
