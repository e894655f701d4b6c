/** What one billing event may do to the tables (`billing.py`), whatever it says. */
module BillingEvents {
  import opened Results
  import opened BillingTypes
  import opened BillingPrices
  import opened Checkouts
  import opened Subscriptions
  import opened Billing

  ghost predicate Sound(l: Ledger) {
    IndexesHold(l.subs) && SessionsUnique(l.checkouts)
  }

  predicate SameCheckout(a: Checkout, b: Checkout) {
    && b == a.(state := b.state)
    && (a.state.Completed? ==> b.state.Completed?)
    && (b.state.Open? ==> a.state.Open?)
  }

  ghost predicate CheckoutsKept(before: CheckoutRows, after: CheckoutRows) {
    before.Keys == after.Keys && forall c <- before :: SameCheckout(before[c], after[c])
  }

  /** A subscription as a checkout row says it must be: its project, its plan, its provider. */
  predicate OpenedFrom(st: Setting, checkouts: CheckoutRows, sub: Sub) {
    && sub.checkout.Some? && sub.checkout.value in checkouts
    && sub.project == checkouts[sub.checkout.value].project
    && sub.plan == checkouts[sub.checkout.value].plan
    && checkouts[sub.checkout.value].provider == st.provider
    && sub.link.Some? && sub.link.value.0 == st.provider
    && !sub.state.Canceled?
  }

  ghost predicate Advances(st: Setting, l: Ledger, l': Ledger, fresh_: SubId) {
    && Sound(l')
    && CheckoutsKept(l.checkouts, l'.checkouts)
    && SubsKept(l.subs, l'.subs)
    && l'.subs.Keys <= l.subs.Keys + {fresh_}
    && (fresh_ in l'.subs ==> OpenedFrom(st, l.checkouts, l'.subs[fresh_]))
  }

  lemma {:induction false} CompletingKeeps(checkouts: CheckoutRows, id: CheckoutId)
    requires SessionsUnique(checkouts) && id in checkouts
    ensures SessionsUnique(AfterSetState(checkouts, id, Completed))
    ensures CheckoutsKept(checkouts, AfterSetState(checkouts, id, Completed))
  {
  }

  lemma {:induction false} OpeningKeeps(catalogue: Catalogue, subs: Subs, id: SubId, sub: Sub)
    requires IndexesHold(subs) && id !in subs && CreateFault(catalogue, subs, sub).None?
    ensures IndexesHold(subs[id := sub]) && SubsKept(subs, subs[id := sub])
    ensures !sub.state.Canceled?
  {
    hide IndexesHold;
    InsertKeepsIndexes(subs, id, sub);
  }

  lemma {:induction false} RecordingKeeps(catalogue: Catalogue, subs: Subs, project: ProjectId, state: SubState, asOf: Time,
                                          plan: Option<PlanCode>, start: Option<Time>, end: Option<Time>)
    requires IndexesHold(subs)
    ensures var after := AfterRecord(catalogue, subs, project, state, asOf, plan, start, end);
      IndexesHold(after) && SubsKept(subs, after) && after.Keys == subs.Keys
  {
    hide IndexesHold;
    var id := ForProject(subs, project);
    if id.Some? {
      AssertKeepsIndexes(subs, id.value, state, asOf, plan, start, end);
    }
  }

  lemma {:induction false} CheckoutAdvances(st: Setting, l: Ledger, e: Event, fresh_: SubId, now: Time)
    requires Sound(l) && fresh_ !in l.subs
    ensures Advances(st, l, OnCheckoutCompleted(st, l, e, fresh_, now).0, fresh_)
  {
    hide IndexesHold, SessionsUnique, CreateFault, CheckoutsKept, SubsKept, StateFromPaymentStatus;
    NothingChanged(l);
    if e.obj.id.Some? {
      var id := BySession(l.checkouts, st.provider, e.obj.id.value);
      if id.Some? {
        CompletingKeeps(l.checkouts, id.value);
        if e.obj.subscription.Some? {
          var sub := OpenedBy(st, l.checkouts[id.value], id.value, StateFromPaymentStatus(e.obj.paymentStatus),
                              Moment(e, now), e.obj.subscription.value, None, None);
          if CreateFault(st.catalogue, l.subs, sub).None? {
            OpeningKeeps(st.catalogue, l.subs, fresh_, sub);
          }
        }
      }
    }
  }

  lemma {:induction false} NothingChanged(l: Ledger)
    ensures CheckoutsKept(l.checkouts, l.checkouts) && SubsKept(l.subs, l.subs)
  {
  }

  lemma {:induction false} OpenAdvances(st: Setting, l: Ledger, e: Event, state: SubState, priced: Option<PlanCode>,
                                        fresh_: SubId, now: Time)
    requires Sound(l) && fresh_ !in l.subs && e.obj.id.Some?
    ensures Advances(st, l, OpenFromEvent(st, l, e, state, priced, fresh_, now).0, fresh_)
  {
    hide IndexesHold, SessionsUnique, CreateFault, CheckoutsKept, SubsKept;
    NothingChanged(l);
    var id := CheckoutRowFor(st, l, e);
    if id.Some? {
      CompletingKeeps(l.checkouts, id.value);
      var sub := OpenedBy(st, l.checkouts[id.value], id.value, state, Moment(e, now), e.obj.id.value, e.obj.start, e.obj.end);
      if CreateFault(st.catalogue, l.subs, sub).None? {
        OpeningKeeps(st.catalogue, l.subs, fresh_, sub);
      }
    }
  }

  lemma {:induction false} SubscriptionAdvances(st: Setting, l: Ledger, e: Event, fresh_: SubId, now: Time)
    requires Sound(l) && fresh_ !in l.subs
    ensures Advances(st, l, OnSubscriptionEvent(st, l, e, fresh_, now).0, fresh_)
  {
    hide IndexesHold, SessionsUnique, CheckoutsKept, SubsKept, OpenFromEvent, AfterRecord, RecordFault, StatusMap;
    NothingChanged(l);
    var state, priced := AssertedState(e), PricedPlan(st, e);
    if e.obj.id.Some? && state.Some? {
      var existing := ByProvider(l.subs, (st.provider, e.obj.id.value));
      if existing.Some? {
        RecordingKeeps(st.catalogue, l.subs, l.subs[existing.value].project, state.value, Moment(e, now), priced,
                       e.obj.start, e.obj.end);
      } else {
        OpenAdvances(st, l, e, state.value, priced, fresh_, now);
      }
    }
  }

  lemma {:induction false} EventAdvances(st: Setting, l: Ledger, e: Event, fresh_: SubId, now: Time)
    requires Sound(l) && fresh_ !in l.subs
    ensures Advances(st, l, HandleEvent(st, l, e, fresh_, now), fresh_)
  {
    hide Sound, CheckoutsKept, SubsKept, OnCheckoutCompleted, OnSubscriptionEvent, Handled;
    NothingChanged(l);
    CheckoutAdvances(st, l, e, fresh_, now);
    SubscriptionAdvances(st, l, e, fresh_, now);
    SeenDoesNotMatter(l, l.seen);
    var acted := Acted(st, l, e, fresh_, now).0;
    SeenDoesNotMatter(acted, HandleEvent(st, l, e, fresh_, now).seen);
  }

  lemma {:induction false} SeenDoesNotMatter(l: Ledger, seen: map<string, Verdict>)
    ensures Sound(l.(seen := seen)) <==> Sound(l)
  {
  }

  // ------------------------------------------------------------------- checkout rows

  /** The checkout rows an event leaves: as they were, or with one of them completed. */
  ghost predicate AtMostCompletes(before: CheckoutRows, after: CheckoutRows) {
    after == before || exists c <- before :: after == AfterSetState(before, c, Completed)
  }

  lemma {:induction false} EventCompletesAtMostOne(st: Setting, l: Ledger, e: Event, fresh_: SubId, now: Time)
    ensures AtMostCompletes(l.checkouts, HandleEvent(st, l, e, fresh_, now).checkouts)
  {
    hide CreateFault, AfterRecord, RecordFault, StatusMap, StateFromPaymentStatus, Handled;
    var after := HandleEvent(st, l, e, fresh_, now).checkouts;
    if after != l.checkouts {
      var c := if e.kind == CHECKOUT_COMPLETED then BySession(l.checkouts, st.provider, e.obj.id.value).value
               else CheckoutRowFor(st, l, e).value;
      assert after == AfterSetState(l.checkouts, c, Completed);
    }
  }

  /** To the checkout rows an event is the look-up and the completion of one of the two handlers, with nothing in between,
      or nothing at all. */
  lemma {:induction false} EventIsACheckoutStep(st: Setting, l: Ledger, e: Event, fresh_: SubId, now: Time, s: State, h: Handler)
    requires s.rows == l.checkouts && h !in s.decided
    ensures var after := HandleEvent(st, l, e, fresh_, now).checkouts;
      || after == s.rows
      || (exists session :: after == Do(Do(s, FindSession(h, st.provider, session)), Complete(h)).rows)
      || (exists c :: after == Do(Do(s, FindRow(h, st.provider, c)), Complete(h)).rows)
  {
    hide CreateFault, AfterRecord, RecordFault, StatusMap, StateFromPaymentStatus, Handled;
    var after := HandleEvent(st, l, e, fresh_, now).checkouts;
    if after != s.rows {
      if e.kind == CHECKOUT_COMPLETED {
        var session := e.obj.id.value;
        assert after == Do(Do(s, FindSession(h, st.provider, session)), Complete(h)).rows;
      } else {
        var c := CheckoutRowFor(st, l, e).value;
        assert after == Do(Do(s, FindRow(h, st.provider, c)), Complete(h)).rows;
      }
    }
  }

  // ------------------------------------------------------------------- plans

  lemma {:induction false} RecordedPlan(st: Setting, l: Ledger, e: Event, project: ProjectId, state: SubState, asOf: Time, s: SubId)
    requires s in l.subs && e.livemode == st.livemode
    ensures var after := AfterRecord(st.catalogue, l.subs, project, state, asOf, PricedPlan(st, e), e.obj.start, e.obj.end);
      s in after && (after[s].plan == l.subs[s].plan || Slot(st.provider, st.livemode, after[s].plan) in st.prices)
  {
    hide AssertFault;
  }

  /** An event changes the plan of a row only to one its own provider and mode has a price for. */
  lemma {:induction false} EventPlan(st: Setting, l: Ledger, e: Event, fresh_: SubId, now: Time, s: SubId)
    requires Sound(l) && fresh_ !in l.subs && s in l.subs
    ensures var after := HandleEvent(st, l, e, fresh_, now).subs;
      s in after && (after[s].plan == l.subs[s].plan || Slot(st.provider, st.livemode, after[s].plan) in st.prices)
  {
    hide Sound, OnCheckoutCompleted, OnSubscriptionEvent, Handled;
    CompletionLeavesRows(st, l, e, fresh_, now, s);
    if e.livemode == st.livemode {
      SubscriptionEventPlan(st, l, e, fresh_, now, s);
    }
  }

  lemma {:induction false} SubscriptionEventPlan(st: Setting, l: Ledger, e: Event, fresh_: SubId, now: Time, s: SubId)
    requires fresh_ !in l.subs && s in l.subs && e.livemode == st.livemode
    ensures var after := OnSubscriptionEvent(st, l, e, fresh_, now).0.subs;
      s in after && (after[s].plan == l.subs[s].plan || Slot(st.provider, st.livemode, after[s].plan) in st.prices)
  {
    hide OpenFromEvent, AfterRecord, RecordFault, AssertedState, PricedPlan;
    var state := AssertedState(e);
    if e.obj.id.Some? && state.Some? {
      OpeningLeavesRows(st, l, e, state.value, PricedPlan(st, e), fresh_, now, s);
      var existing := ByProvider(l.subs, (st.provider, e.obj.id.value));
      if existing.Some? {
        RecordedPlan(st, l, e, l.subs[existing.value].project, state.value, Moment(e, now), s);
      }
    }
  }

  // ------------------------------------------------------------------- whose row

  /** The provider's id of the subscription an event is about. */
  function Subject(e: Event): Option<string> {
    if e.kind == CHECKOUT_COMPLETED then e.obj.subscription else e.obj.id
  }

  ghost predicate OthersKept(st: Setting, before: Subs, after: Subs, subject: Option<string>) {
    forall s <- before :: (subject.None? || before[s].link != Some((st.provider, subject.value))) ==>
                            s in after && after[s] == before[s]
  }

  lemma {:induction false} RecordTouchesOne(st: Setting, subs: Subs, link: string, state: SubState, asOf: Time,
                                            plan: Option<PlanCode>, start: Option<Time>, end: Option<Time>)
    requires IndexesHold(subs)
    requires var id := ByProvider(subs, (st.provider, link)); id.Some? && !subs[id.value].state.Canceled?
    ensures var id := ByProvider(subs, (st.provider, link)).value;
      OthersKept(st, subs, AfterRecord(st.catalogue, subs, subs[id].project, state, asOf, plan, start, end), Some(link))
  {
    hide IndexesHold, AssertFault;
    LinkedRowIsTheProjects(subs, (st.provider, link));
  }

  lemma {:induction false} OpeningLeavesRows(st: Setting, l: Ledger, e: Event, state: SubState, priced: Option<PlanCode>, fresh_: SubId,
                                             now: Time, s: SubId)
    requires fresh_ !in l.subs && s in l.subs && e.obj.id.Some?
    ensures var after := OpenFromEvent(st, l, e, state, priced, fresh_, now).0.subs; s in after && after[s] == l.subs[s]
  {
    hide CreateFault;
  }

  lemma {:induction false} CompletionLeavesRows(st: Setting, l: Ledger, e: Event, fresh_: SubId, now: Time, s: SubId)
    requires fresh_ !in l.subs && s in l.subs
    ensures var after := OnCheckoutCompleted(st, l, e, fresh_, now).0.subs; s in after && after[s] == l.subs[s]
  {
    hide CreateFault, StateFromPaymentStatus;
  }

  lemma {:induction false} SubscriptionEventTouchesOne(st: Setting, l: Ledger, e: Event, fresh_: SubId, now: Time, s: SubId)
    requires Sound(l) && fresh_ !in l.subs && s in l.subs
    requires e.obj.id.None? || l.subs[s].link != Some((st.provider, e.obj.id.value))
    ensures var after := OnSubscriptionEvent(st, l, e, fresh_, now).0.subs; s in after && after[s] == l.subs[s]
  {
    hide IndexesHold, SessionsUnique, OpenFromEvent, AfterRecord, RecordFault, AssertedState, PricedPlan;
    var state := AssertedState(e);
    if e.obj.id.Some? && state.Some? {
      OpeningLeavesRows(st, l, e, state.value, PricedPlan(st, e), fresh_, now, s);
      var existing := ByProvider(l.subs, (st.provider, e.obj.id.value));
      if existing.Some? && !l.subs[existing.value].state.Canceled? {
        RecordTouchesOne(st, l.subs, e.obj.id.value, state.value, Moment(e, now), PricedPlan(st, e), e.obj.start, e.obj.end);
      }
    }
  }

  /** An event changes no row but that of the subscription it names, although states are recorded by project. */
  lemma {:induction false} OnlyItsOwnRow(st: Setting, l: Ledger, e: Event, fresh_: SubId, now: Time)
    requires Sound(l) && fresh_ !in l.subs
    ensures OthersKept(st, l.subs, HandleEvent(st, l, e, fresh_, now).subs, Subject(e))
  {
    hide Sound, OnCheckoutCompleted, OnSubscriptionEvent, Handled;
    var after := HandleEvent(st, l, e, fresh_, now).subs;
    forall s | s in l.subs && (Subject(e).None? || l.subs[s].link != Some((st.provider, Subject(e).value)))
      ensures s in after && after[s] == l.subs[s]
    {
      CompletionLeavesRows(st, l, e, fresh_, now, s);
      if e.kind != CHECKOUT_COMPLETED {
        SubscriptionEventTouchesOne(st, l, e, fresh_, now, s);
      }
    }
  }

  // ------------------------------------------------------------------- ending

  /** Only two of the provider's statuses end a subscription; one that is unpaid or paused is past due, so that its grace
      begins; and an unknown one asserts nothing. */
  lemma {:induction false} StatusesThatEnd(status: string)
    ensures StatusMap(status) == Some(Canceled) <==> status == "canceled" || status == "incomplete_expired"
    ensures StatusMap(status) == Some(PastDue) <==> status == "past_due" || status == "unpaid" || status == "paused"
    ensures StatusMap(status).None? <==>
              status !in {"incomplete", "incomplete_expired", "trialing", "active", "past_due", "unpaid", "paused", "canceled"}
  {
    assert |"incomplete"| == 10 && |"incomplete_expired"| == 18 && |"active"| == |"unpaid"| == |"paused"| == 6;
    assert |"trialing"| == |"past_due"| == |"canceled"| == 8;
    assert "active"[0] == 'a' && "unpaid"[0] == 'u' && "paused"[0] == 'p';
    assert "trialing"[0] == 't' && "past_due"[0] == 'p' && "canceled"[0] == 'c';
  }

  /** An event that ends a subscription: its deletion, or one of the two statuses that say it is over. */
  predicate SaysEnded(e: Event) {
    || e.kind == SUBSCRIPTION_DELETED
    || e.obj.status == Some("canceled") || e.obj.status == Some("incomplete_expired")
  }

  lemma {:induction false} RecordedState(catalogue: Catalogue, subs: Subs, project: ProjectId, state: SubState, asOf: Time,
                                         plan: Option<PlanCode>, start: Option<Time>, end: Option<Time>, s: SubId)
    requires s in subs
    ensures var after := AfterRecord(catalogue, subs, project, state, asOf, plan, start, end);
      s in after && (after[s].state == subs[s].state || after[s].state == state)
  {
    hide AssertFault;
  }

  /** A live row is canceled only by an event about its own subscription that says it has ended; being unpaid or paused
      never does it. */
  lemma {:induction false} OnlyEndingsCancel(st: Setting, l: Ledger, e: Event, fresh_: SubId, now: Time, s: SubId)
    requires Sound(l) && fresh_ !in l.subs && s in l.subs && !l.subs[s].state.Canceled?
    ensures var after := HandleEvent(st, l, e, fresh_, now).subs;
      && s in after
      && (after[s].state.Canceled? ==>
            SaysEnded(e) && Subject(e).Some? && l.subs[s].link == Some((st.provider, Subject(e).value)))
  {
    hide IndexesHold, SessionsUnique, CreateFault, AfterRecord, RecordFault, StatusMap, StateFromPaymentStatus, Handled;
    OnlyItsOwnRow(st, l, e, fresh_, now);
    var state := AssertedState(e);
    if e.obj.status.Some? {
      StatusesThatEnd(e.obj.status.value);
    }
    if e.obj.id.Some? && state.Some? {
      var existing := ByProvider(l.subs, (st.provider, e.obj.id.value));
      if existing.Some? {
        RecordedState(st.catalogue, l.subs, l.subs[existing.value].project, state.value, Moment(e, now), PricedPlan(st, e),
                      e.obj.start, e.obj.end, s);
      }
    }
  }

  // ------------------------------------------------------------------- what an event does, in full

  lemma {:induction false} PricedIs(st: Setting, e: Event, plan: PlanCode)
    requires PricesUnique(st.prices)
    ensures PricedPlan(st, e) == Some(plan) <==>
      && e.obj.price.Some? && Slot(st.provider, e.livemode, plan) in st.prices
      && st.prices[Slot(st.provider, e.livemode, plan)] == e.obj.price.value
  {
    if e.obj.price.Some? && Maps(st.prices, st.provider, e.livemode, plan, e.obj.price.value) {
      assert PricedPlan(st, e).Some?;
    }
  }

  /** What a subscription event says, status by status; and its moment. */
  lemma {:induction false} AssertedIs(e: Event, now: Time)
    requires e.kind in {"customer.subscription.created", "customer.subscription.updated", "customer.subscription.deleted"}
    ensures
      var says :=
        if e.kind == "customer.subscription.deleted" || e.obj.status == Some("canceled")
           || e.obj.status == Some("incomplete_expired") then Some(Canceled)
        else if e.obj.status == Some("incomplete") then Some(Incomplete)
        else if e.obj.status == Some("trialing") then Some(Trialing)
        else if e.obj.status == Some("active") then Some(Active)
        else if e.obj.status == Some("past_due") || e.obj.status == Some("unpaid") || e.obj.status == Some("paused") then Some(PastDue)
        else None;
      AssertedState(e) == says && Moment(e, now) == if e.created == 0 then now else e.created
    ensures Handled(e.kind) && e.kind != CHECKOUT_COMPLETED
  {
    assert |"customer.subscription.created"| == |"customer.subscription.updated"| == |"customer.subscription.deleted"| == 29;
    assert |"checkout.session.completed"| == 26;
    assert "customer.subscription.created"[22] == 'c' && "customer.subscription.updated"[22] == 'u'
           && "customer.subscription.deleted"[22] == 'd';
  }

  /** An event about a recorded, live subscription: the state it says, at its moment, with the plan its price maps to, as far
      as `record_state` takes it. One that says nothing known, or names a price that is not on the map, is refused. */
  lemma {:induction false} LiveRowAfterEvent(st: Setting, l: Ledger, e: Event, fresh_: SubId, now: Time, s: SubId)
    requires Sound(l) && e.id !in l.seen && e.livemode == st.livemode
    requires e.kind in {"customer.subscription.created", "customer.subscription.updated", "customer.subscription.deleted"}
    requires s in l.subs && l.subs[s].state != Canceled
    requires e.obj.id.Some? && l.subs[s].link == Some((st.provider, e.obj.id.value))
    ensures var a, after := l.subs[s], HandleEvent(st, l, e, fresh_, now);
      var says :=
        if e.kind == "customer.subscription.deleted" || e.obj.status == Some("canceled")
           || e.obj.status == Some("incomplete_expired") then Some(Canceled)
        else if e.obj.status == Some("incomplete") then Some(Incomplete)
        else if e.obj.status == Some("trialing") then Some(Trialing)
        else if e.obj.status == Some("active") then Some(Active)
        else if e.obj.status == Some("past_due") || e.obj.status == Some("unpaid") || e.obj.status == Some("paused") then Some(PastDue)
        else None;
      var at := if e.created == 0 then now else e.created;
      var plan := PricedPlan(st, e);
      && after.checkouts == l.checkouts
      && (says == None || (e.obj.price != None && plan == None) ==>
            after.subs == l.subs && after.seen == l.seen[e.id := Refused])
      && (says != None && (e.obj.price == None || plan != None) ==>
            var fault := RecordFault(st.catalogue, l.subs, a.project, says.value, at, plan, e.obj.start, e.obj.end);
            && after.subs == (if fault != None then l.subs else l.subs[s :=
                 Sub(a.project, if plan == None then a.plan else plan.value, says.value, at,
                     if a.state == says.value then a.since else at, if e.obj.start == None then a.start else e.obj.start,
                     if e.obj.end == None then a.end else e.obj.end, a.link, a.checkout)])
            && after.seen == l.seen[e.id := if fault == None then Applied else if fault == Some(PeriodOrder) then Failed else Refused])
  {
    hide IndexesHold, SessionsUnique, AfterRecord, RecordFault, AssertedState, Moment, Handled, PricedPlan, OnCheckoutCompleted, OpenFromEvent;
    AssertedIs(e, now);
    LinkIsFound(l.subs, (st.provider, e.obj.id.value), s);
    if AssertedState(e).Some? {
      RecordedExactly(st.catalogue, l.subs, s, AssertedState(e).value, Moment(e, now), PricedPlan(st, e), e.obj.start, e.obj.end);
    }
  }

  lemma {:induction false} LinkIsFound(subs: Subs, link: (string, string), s: SubId)
    requires IndexesHold(subs) && s in subs && subs[s].link == Some(link)
    ensures ByProvider(subs, link) == Some(s)
  {
    var found := ByProvider(subs, link);
    assert subs[found.value].link == subs[s].link;
  }

  lemma {:induction false} OpenFromEventIs(st: Setting, l: Ledger, e: Event, state: SubState, fresh_: SubId, now: Time)
    requires PricesUnique(st.prices) && e.obj.id.Some? && e.livemode == st.livemode
    ensures var r := OpenFromEvent(st, l, e, state, PricedPlan(st, e), fresh_, now);
      if e.obj.checkout == None || e.obj.checkout.value !in l.checkouts || l.checkouts[e.obj.checkout.value].provider != st.provider
      then r == (l, Refused)
      else
        var c := e.obj.checkout.value;
        var row := l.checkouts[c];
        var slot := Slot(st.provider, st.livemode, row.plan);
        if slot !in st.prices || e.obj.price != Some(st.prices[slot]) then r == (l, Refused)
        else
          var sub := Sub(row.project, row.plan, state, Moment(e, now), Moment(e, now), e.obj.start, e.obj.end,
                         Some((st.provider, e.obj.id.value)), Some(c));
          var fault := CreateFault(st.catalogue, l.subs, sub);
          if fault != None then r == (l, if fault == Some(PeriodOrder) then Failed else Refused)
          else r == (Ledger(if row.state == Open then l.checkouts[c := row.(state := Completed)] else l.checkouts,
                            l.subs[fresh_ := sub], l.seen), Applied)
  {
    hide CreateFault, PricesUnique, PricedPlan, Moment;
    if e.obj.checkout.Some? && e.obj.checkout.value in l.checkouts {
      PricedIs(st, e, l.checkouts[e.obj.checkout.value].plan);
    }
  }

  /** An event about a subscription nothing is recorded for: it opens one exactly if it says a live state, the checkout row it
      names is the provider's, its price maps to the very plan that row sold, and `create` takes it; the row is then as
      the checkout says, with the event's state, moment and period, and an open checkout is completed. */
  lemma {:induction false} EventOpens(st: Setting, l: Ledger, e: Event, fresh_: SubId, now: Time)
    requires Sound(l) && PricesUnique(st.prices) && fresh_ !in l.subs && e.id !in l.seen && e.livemode == st.livemode
    requires e.kind in {"customer.subscription.created", "customer.subscription.updated", "customer.subscription.deleted"}
    requires e.obj.id.Some? && forall s <- l.subs :: l.subs[s].link != Some((st.provider, e.obj.id.value))
    ensures var after := HandleEvent(st, l, e, fresh_, now);
      var says :=
        if e.kind == "customer.subscription.deleted" || e.obj.status == Some("canceled")
           || e.obj.status == Some("incomplete_expired") then Some(Canceled)
        else if e.obj.status == Some("incomplete") then Some(Incomplete)
        else if e.obj.status == Some("trialing") then Some(Trialing)
        else if e.obj.status == Some("active") then Some(Active)
        else if e.obj.status == Some("past_due") || e.obj.status == Some("unpaid") || e.obj.status == Some("paused") then Some(PastDue)
        else None;
      var at := if e.created == 0 then now else e.created;
      && (says == None ==> after == l.(seen := l.seen[e.id := Refused]))
      && (says == Some(Canceled) ==> after == l.(seen := l.seen[e.id := Ignored]))
      && (says != None && says != Some(Canceled) ==>
            if e.obj.checkout == None || e.obj.checkout.value !in l.checkouts || l.checkouts[e.obj.checkout.value].provider != st.provider
            then after == l.(seen := l.seen[e.id := Refused])
            else
              var c := e.obj.checkout.value;
              var row := l.checkouts[c];
              var slot := Slot(st.provider, st.livemode, row.plan);
              if slot !in st.prices || e.obj.price != Some(st.prices[slot]) then after == l.(seen := l.seen[e.id := Refused])
              else
                var sub := Sub(row.project, row.plan, says.value, at, at, e.obj.start, e.obj.end,
                               Some((st.provider, e.obj.id.value)), Some(c));
                var fault := CreateFault(st.catalogue, l.subs, sub);
                if fault != None
                then after == l.(seen := l.seen[e.id := if fault == Some(PeriodOrder) then Failed else Refused])
                else after == Ledger(if row.state == Open then l.checkouts[c := row.(state := Completed)] else l.checkouts,
                                     l.subs[fresh_ := sub], l.seen[e.id := Applied]))
  {
    hide Sound, CreateFault, AfterRecord, RecordFault, AssertedState, Moment, Handled, PricedPlan, OnCheckoutCompleted, OpenFromEvent,
         PricesUnique;
    AssertedIs(e, now);
    NoRowLinked(l.subs, (st.provider, e.obj.id.value));
    if AssertedState(e).Some? {
      OpenFromEventIs(st, l, e, AssertedState(e).value, fresh_, now);
    }
  }

  lemma {:induction false} NoRowLinked(subs: Subs, link: (string, string))
    ensures ByProvider(subs, link).None? <==> forall s <- subs :: subs[s].link != Some(link)
  {
  }

  /** A completed checkout: its row is completed whatever follows; if it names a subscription that nothing is recorded for, and
      `create` takes it, one is opened on what the row sold, active if it was paid, trialing if nothing was to be paid,
      and else incomplete. */
  lemma {:induction false} CompletionOpens(st: Setting, l: Ledger, e: Event, fresh_: SubId, now: Time, c: CheckoutId)
    requires Sound(l) && fresh_ !in l.subs && e.id !in l.seen && e.livemode == st.livemode
    requires e.kind == "checkout.session.completed"
    requires c in l.checkouts && l.checkouts[c].provider == st.provider && e.obj.id == Some(l.checkouts[c].session)
    ensures var row, after := l.checkouts[c], HandleEvent(st, l, e, fresh_, now);
      var at := if e.created == 0 then now else e.created;
      var state := if e.obj.paymentStatus == Some("paid") then Active
                   else if e.obj.paymentStatus == Some("no_payment_required") then Trialing else Incomplete;
      if row.state == Completed then after == l.(seen := l.seen[e.id := Ignored])
      else
        && after.checkouts == l.checkouts[c := row.(state := Completed)]
        && if e.obj.subscription == None then after.subs == l.subs && after.seen == l.seen[e.id := Applied]
           else if exists s <- l.subs :: l.subs[s].link == Some((st.provider, e.obj.subscription.value))
           then after.subs == l.subs && after.seen == l.seen[e.id := Ignored]
           else
             var sub := Sub(row.project, row.plan, state, at, at, None, None, Some((st.provider, e.obj.subscription.value)), Some(c));
             var fault := CreateFault(st.catalogue, l.subs, sub);
             && after.subs == (if fault == None then l.subs[fresh_ := sub] else l.subs)
             && after.seen == l.seen[e.id := if fault == None then Applied else if fault == Some(PeriodOrder) then Failed else Refused]
  {
    hide CreateFault, OnSubscriptionEvent, IndexesHold, ByProvider, BySession;
    SessionIsFound(l.checkouts, c);
    if e.obj.subscription.Some? {
      NoRowLinked(l.subs, (st.provider, e.obj.subscription.value));
    }
  }

  lemma {:induction false} SessionIsFound(checkouts: CheckoutRows, c: CheckoutId)
    requires SessionsUnique(checkouts) && c in checkouts
    ensures BySession(checkouts, checkouts[c].provider, checkouts[c].session) == Some(c)
  {
    assert HasSession(checkouts[c], checkouts[c].provider, checkouts[c].session);
  }

  /** Events that only leave a record, or not even that: one whose handling has ended, one of the other mode, one of a kind that
      is not handled, and a completion whose session is not known. */
  lemma {:induction false} OnlyRecorded(st: Setting, l: Ledger, e: Event, fresh_: SubId, now: Time)
    ensures var after := HandleEvent(st, l, e, fresh_, now);
      && (e.id in l.seen ==> after == l)
      && (e.id !in l.seen && e.livemode != st.livemode ==> after == l.(seen := l.seen[e.id := Refused]))
      && (e.id !in l.seen && e.livemode == st.livemode
          && e.kind !in {"checkout.session.completed", "customer.subscription.created", "customer.subscription.updated",
                         "customer.subscription.deleted"} ==>
            after == l.(seen := l.seen[e.id := Ignored]))
      && (e.id !in l.seen && e.livemode == st.livemode && e.kind == "checkout.session.completed"
          && (e.obj.id == None || forall c <- l.checkouts ::
                l.checkouts[c].provider != st.provider || l.checkouts[c].session != e.obj.id.value) ==>
            after == l.(seen := l.seen[e.id := Refused]))
      && (e.id !in l.seen && e.livemode == st.livemode && e.obj.id == None
          && e.kind in {"customer.subscription.created", "customer.subscription.updated", "customer.subscription.deleted"} ==>
            after == l.(seen := l.seen[e.id := Refused]))
      && (e.id !in l.seen && e.livemode == st.livemode && e.obj.id != None
          && e.kind in {"customer.subscription.created", "customer.subscription.updated", "customer.subscription.deleted"}
          && ByProvider(l.subs, (st.provider, e.obj.id.value)).Some?
          && l.subs[ByProvider(l.subs, (st.provider, e.obj.id.value)).value].state == Canceled ==>
            after == l.(seen := l.seen[e.id := if AssertedState(e).None? then Refused else Ignored]))
  {
    hide CreateFault, AssertedState, Moment, PricedPlan, OpenFromEvent, AfterRecord, RecordFault;
    if e.kind in {"customer.subscription.created", "customer.subscription.updated", "customer.subscription.deleted"} {
      AssertedIs(e, now);
    }
  }
}
