/** Whole histories of billing (`billing.py`): events handled one at a time in any order, with any duplicates, between
    checkouts that are started, attached, closed and expired, and prices and plans that come and go. */
module BillingHistory {
  import opened Results
  import opened BillingTypes
  import opened BillingPrices
  import opened Checkouts
  import opened Subscriptions
  import opened Billing
  import opened BillingEvents

  /** The tables, with the checkouts that are being started, and what the handlers read beside them. */
  datatype World = World(st: Setting, desk: Checkouts.State, subs: Subs, seen: map<string, Verdict>)

  datatype Happening =
    | Arrival(event: Event, fresh_: SubId, now: Time)
    | Desk(step: Step)
    | SetPrice(slot: Slot, price: PriceId)
    | RemovePrice(slot: Slot)
    | Offer(catalogue: Catalogue)

  type Story = seq<Happening>

  function LedgerOf(w: World): Ledger {
    Ledger(w.desk.rows, w.subs, w.seen)
  }

  ghost function Next(w: World, h: Happening): World {
    match h
    case Arrival(event, fresh_, now) =>
      var l := HandleEvent(w.st, LedgerOf(w), event, fresh_, now);
      w.(desk := w.desk.(rows := l.checkouts), subs := l.subs, seen := l.seen)
    case Desk(step) => w.(desk := Checkouts.Do(w.desk, step))
    case SetPrice(slot, price) => w.(st := w.st.(prices := AfterSet(w.st.prices, w.st.catalogue.plans, slot, price)))
    case RemovePrice(slot) => w.(st := w.st.(prices := w.st.prices - {slot}))
    case Offer(catalogue) => w.(st := w.st.(catalogue := catalogue))
  }

  ghost function Run(w: World, story: Story): World {
    if story == [] then w else Next(Run(w, story[..|story| - 1]), story[|story| - 1])
  }

  /** A new row gets an id no row has, and the provider's session ids are its own. */
  ghost predicate Possible(w: World, h: Happening) {
    match h
    case Arrival(_, fresh_, _) => fresh_ !in w.subs
    case Desk(step) => IsGenuine(step)
    case _ => true
  }

  ghost predicate AllPossible(w: World, story: Story) {
    forall i :: 0 <= i < |story| ==> Possible(Run(w, story[..i]), story[i])
  }

  ghost predicate SoundWorld(w: World) {
    IndexesHold(w.subs) && Checkouts.Inv(w.desk) && PricesUnique(w.st.prices)
  }

  /** Everything a history never undoes. */
  ghost predicate Remains(w: World, w': World) {
    && w'.st.provider == w.st.provider && w'.st.livemode == w.st.livemode
    && Kept(w.desk.rows, w'.desk.rows)
    && SubsKept(w.subs, w'.subs)
  }

  lemma {:induction false} PrefixPossible(w: World, story: Story, n: nat)
    requires AllPossible(w, story) && n <= |story|
    ensures AllPossible(w, story[..n])
    ensures n < |story| ==> Possible(Run(w, story[..n]), story[n])
    ensures forall i :: 0 <= i <= n ==> story[..n][..i] == story[..i]
  {
    hide Possible, Run;
    forall i | 0 <= i < n ensures Possible(Run(w, story[..n][..i]), story[..n][i]) {
      assert story[..n][..i] == story[..i];
    }
  }

  lemma {:induction false} EventSound(w: World, event: Event, fresh_: SubId, now: Time)
    requires SoundWorld(w) && fresh_ !in w.subs
    ensures var w' := Next(w, Arrival(event, fresh_, now));
      SoundWorld(w') && Remains(w, w') && Advances(w.st, LedgerOf(w), LedgerOf(w'), fresh_)
  {
    hide HandleEvent, IndexesHold, OneOpen, SessionsUnique, SubsKept, Kept, AfterSetState;
    var l' := HandleEvent(w.st, LedgerOf(w), event, fresh_, now);
    EventAdvances(w.st, LedgerOf(w), event, fresh_, now);
    EventCompletesAtMostOne(w.st, LedgerOf(w), event, fresh_, now);
    NoRowChanged(w.desk.rows);
    if c :| c in w.desk.rows && l'.checkouts == AfterSetState(w.desk.rows, c, Completed) {
      SetStateKeeps(w.desk, c, Completed);
    } else {
      assert w.desk.(rows := l'.checkouts) == w.desk;
    }
  }

  lemma {:induction false} NoRowChanged(rows: CheckoutRows)
    ensures Kept(rows, rows)
  {
  }

  lemma {:induction false} NoSubChanged(subs: Subs)
    ensures SubsKept(subs, subs)
  {
  }

  lemma {:induction false} NextSound(w: World, h: Happening)
    requires SoundWorld(w) && Possible(w, h)
    ensures SoundWorld(Next(w, h)) && Remains(w, Next(w, h))
  {
    hide HandleEvent, IndexesHold, Checkouts.Inv, Checkouts.Do, SubsKept, Kept, IsGenuine;
    NoRowChanged(w.desk.rows);
    NoSubChanged(w.subs);
    match h
    case Arrival(event, fresh_, now) => EventSound(w, event, fresh_, now);
    case Desk(step) => StepKeeps(w.desk, step);
    case SetPrice(slot, price) => SettingKeepsUnique(w.st.prices, w.st.catalogue.plans, slot, price);
    case _ =>
  }

  lemma {:induction false} RemainsTransitive(a: World, b: World, c: World)
    requires Remains(a, b) && Remains(b, c)
    ensures Remains(a, c)
  {
    hide Kept, SubsKept;
    Checkouts.KeptTransitive(a.desk.rows, b.desk.rows, c.desk.rows);
    SubsKeptTransitive(a.subs, b.subs, c.subs);
  }

  /** Over every history: the unique indexes hold, so there is at most one row per provider id and per checkout, ended rows
      included, and one live row per project, and one open checkout per project; a subscription keeps its project, its
      provider id and its checkout, its moment never moves back, and a canceled one is never touched again; a checkout
      keeps its project and plan and never returns to open. */
  lemma {:induction false} HistoryIsKept(w: World, story: Story)
    requires SoundWorld(w) && AllPossible(w, story)
    ensures SoundWorld(Run(w, story)) && Remains(w, Run(w, story))
    decreases |story|
  {
    if story == [] {
      NoRowChanged(w.desk.rows);
      NoSubChanged(w.subs);
    } else {
      hide SoundWorld, Remains, Next, AllPossible;
      var n := |story| - 1;
      PrefixPossible(w, story, n);
      HistoryIsKept(w, story[..n]);
      NextSound(Run(w, story[..n]), story[n]);
      RemainsTransitive(w, Run(w, story[..n]), Run(w, story));
    }
  }

  // ------------------------------------------------------------------- checkouts stay completed

  lemma {:induction false} NextKeepsFinal(w: World, h: Happening, c: CheckoutId)
    requires SoundWorld(w) && Possible(w, h) && Final(w.desk, c)
    ensures Final(Next(w, h).desk, c)
  {
    hide HandleEvent, IndexesHold, Checkouts.Inv, Checkouts.Do, IsGenuine, SubsKept;
    match h
    case Arrival(event, fresh_, now) => EventSound(w, event, fresh_, now);
    case Desk(step) => StepKeepsFinal(w.desk, step, c);
    case _ =>
  }

  /** A checkout that is completed once its start is over stays completed for the rest of the history. */
  lemma {:induction false} CompletedCheckoutStays(w: World, story: Story, c: CheckoutId)
    requires SoundWorld(w) && AllPossible(w, story) && Final(w.desk, c)
    ensures Final(Run(w, story).desk, c)
    decreases |story|
  {
    if story == [] {
    } else {
      hide SoundWorld, Final, Next, AllPossible;
      var n := |story| - 1;
      PrefixPossible(w, story, n);
      HistoryIsKept(w, story[..n]);
      CompletedCheckoutStays(w, story[..n], c);
      NextKeepsFinal(Run(w, story[..n]), story[n], c);
    }
  }

  // ------------------------------------------------------------------- where subscriptions come from

  /** The happening that opened a subscription: an arrival, from a checkout row that was there when it came. */
  ghost predicate OpenedAt(w: World, story: Story, id: SubId, k: nat) {
    && k < |story| && story[k].Arrival?
    && id !in Run(w, story[..k]).subs
    && id in Run(w, story[..k + 1]).subs
    && OpenedFrom(Run(w, story[..k]).st, Run(w, story[..k]).desk.rows, Run(w, story[..k + 1]).subs[id])
  }

  lemma {:induction false} NextOpens(w: World, h: Happening, id: SubId)
    requires SoundWorld(w) && Possible(w, h)
    requires id !in w.subs && id in Next(w, h).subs
    ensures h.Arrival? && OpenedFrom(w.st, w.desk.rows, Next(w, h).subs[id])
  {
    hide HandleEvent, IndexesHold, Checkouts.Inv, Checkouts.Do, SubsKept, Kept, OpenedFrom;
    match h
    case Arrival(event, fresh_, now) => EventSound(w, event, fresh_, now);
    case _ =>
  }

  /** Every subscription that any history opens was opened with the project, the plan and the provider of a checkout row
      that was there when the event arrived: an event never names them. */
  lemma {:induction false} OpenedOnlyFromCheckouts(w: World, story: Story, id: SubId)
    requires SoundWorld(w) && AllPossible(w, story)
    requires id !in w.subs && id in Run(w, story).subs
    ensures exists k :: 0 <= k < |story| && OpenedAt(w, story, id, k)
    decreases |story|
  {
    hide SoundWorld, Next, AllPossible, OpenedFrom;
    var n := |story| - 1;
    PrefixPossible(w, story, n);
    assert story[..n + 1] == story;
    if id in Run(w, story[..n]).subs {
      OpenedOnlyFromCheckouts(w, story[..n], id);
      var k :| 0 <= k < n && OpenedAt(w, story[..n], id, k);
      assert OpenedAt(w, story, id, k);
    } else {
      HistoryIsKept(w, story[..n]);
      NextOpens(Run(w, story[..n]), story[n], id);
      assert OpenedAt(w, story, id, n);
    }
  }

  predicate SameSale(row: Checkout, project: ProjectId, plan: PlanCode, provider: string) {
    row.project == project && row.plan == plan && row.provider == provider
  }

  predicate Starts(h: Happening, project: ProjectId, plan: PlanCode, provider: string) {
    h.Desk? && h.step.Begin? && h.step.project == project && h.step.plan == plan && h.step.provider == provider
  }

  /** A checkout of this project, plan and provider was there at first, or was started before moment `k`. */
  ghost predicate StartedBy(w: World, story: Story, k: nat, project: ProjectId, plan: PlanCode, provider: string) {
    || (exists c <- w.desk.rows :: SameSale(w.desk.rows[c], project, plan, provider))
    || (exists j :: 0 <= j < k && j < |story| && Starts(story[j], project, plan, provider))
  }

  lemma {:induction false} NextRow(w: World, h: Happening, c: CheckoutId)
    requires SoundWorld(w) && Possible(w, h) && c in Next(w, h).desk.rows
    ensures var row := Next(w, h).desk.rows[c];
      || (c in w.desk.rows && SameSale(w.desk.rows[c], row.project, row.plan, row.provider))
      || Starts(h, row.project, row.plan, row.provider)
  {
    hide HandleEvent, IndexesHold, SubsKept, Checkouts.Do, Checkouts.Inv, IsGenuine;
    NextSound(w, h);
    if c !in w.desk.rows {
      match h
      case Arrival(event, fresh_, now) => EventSound(w, event, fresh_, now);
      case Desk(step) => NewRowIsBegun(w.desk, step, c);
      case _ =>
    }
  }

  /** Every checkout row at any moment is one that was there at first or that `start_checkout` wrote, with its project, plan
      and provider. */
  lemma {:induction false} RowsComeFromStarts(w: World, story: Story, k: nat, c: CheckoutId)
    requires SoundWorld(w) && AllPossible(w, story) && k <= |story| && c in Run(w, story[..k]).desk.rows
    ensures var row := Run(w, story[..k]).desk.rows[c]; StartedBy(w, story, k, row.project, row.plan, row.provider)
    decreases k
  {
    if k == 0 {
      assert story[..0] == [];
    } else {
      hide SoundWorld, Next, AllPossible, Possible, Starts, SameSale;
      PrefixPossible(w, story, k - 1);
      assert story[..k][..k - 1] == story[..k - 1];
      var before := Run(w, story[..k - 1]);
      HistoryIsKept(w, story[..k - 1]);
      NextRow(before, story[k - 1], c);
      if c in before.desk.rows {
        RowsComeFromStarts(w, story, k - 1, c);
        SameSaleIsSame(before.desk.rows[c], Run(w, story[..k]).desk.rows[c]);
      }
    }
  }

  lemma {:induction false} SameSaleIsSame(a: Checkout, b: Checkout)
    ensures SameSale(a, b.project, b.plan, b.provider) <==> a.project == b.project && a.plan == b.plan && a.provider == b.provider
  {
  }

  /** So every subscription opened in a history has the project and plan somebody started a checkout for before. */
  lemma {:induction false} SoldAsStarted(w: World, story: Story, id: SubId)
    requires SoundWorld(w) && AllPossible(w, story)
    requires id !in w.subs && id in Run(w, story).subs
    ensures exists k :: 0 <= k < |story| && OpenedAt(w, story, id, k)
                        && var sub := Run(w, story[..k + 1]).subs[id]; StartedBy(w, story, k, sub.project, sub.plan, w.st.provider)
  {
    hide SoundWorld, Next, AllPossible, Run, StartedBy;
    OpenedOnlyFromCheckouts(w, story, id);
    var k :| 0 <= k < |story| && OpenedAt(w, story, id, k);
    var sub := Run(w, story[..k + 1]).subs[id];
    RowsComeFromStarts(w, story, k, sub.checkout.value);
    PrefixPossible(w, story, k);
    HistoryIsKept(w, story[..k]);
  }

  // ------------------------------------------------------------------- plans

  /** The price map had a price for the plan, for this provider and mode, at some moment up to now. */
  ghost predicate WasPriced(w: World, story: Story, plan: PlanCode) {
    exists k :: 0 <= k <= |story| && Slot(w.st.provider, w.st.livemode, plan) in Run(w, story[..k]).st.prices
  }

  /** Where a plan of a row comes from: the row as it first was, its checkout, or the price map. */
  ghost predicate PlanIsOurs(w: World, story: Story, id: SubId) {
    var end := Run(w, story);
    && id in end.subs
    && var sub := end.subs[id];
       || (id in w.subs && sub.plan == w.subs[id].plan)
       || (sub.checkout.Some? && sub.checkout.value in end.desk.rows && sub.plan == end.desk.rows[sub.checkout.value].plan)
       || WasPriced(w, story, sub.plan)
  }

  lemma {:induction false} NextPlan(w: World, h: Happening, id: SubId)
    requires SoundWorld(w) && Possible(w, h) && id in w.subs
    ensures id in Next(w, h).subs
    ensures var plan := Next(w, h).subs[id].plan; plan == w.subs[id].plan || Slot(w.st.provider, w.st.livemode, plan) in w.st.prices
  {
    hide HandleEvent, IndexesHold, SessionsUnique, OneOpen, Checkouts.Do, SubsKept, Kept;
    match h
    case Arrival(event, fresh_, now) => EventPlan(w.st, LedgerOf(w), event, fresh_, now, id);
    case _ =>
  }

  lemma {:induction false} WasPricedLater(w: World, story: Story, plan: PlanCode)
    requires story != [] && WasPriced(w, story[..|story| - 1], plan)
    ensures WasPriced(w, story, plan)
  {
    hide Run;
    var n := |story| - 1;
    var k :| 0 <= k <= n && Slot(w.st.provider, w.st.livemode, plan) in Run(w, story[..n][..k]).st.prices;
    assert story[..n][..k] == story[..k];
  }

  lemma {:induction false} PlanStaysOurs(w: World, story: Story, id: SubId)
    requires SoundWorld(w) && AllPossible(w, story) && story != [] && PlanIsOurs(w, story[..|story| - 1], id)
    ensures PlanIsOurs(w, story, id)
  {
    hide SoundWorld, AllPossible, WasPriced, Next, SubsKept;
    var n := |story| - 1;
    PrefixPossible(w, story, n);
    HistoryIsKept(w, story[..n]);
    var before, end := Run(w, story[..n]), Run(w, story);
    NextPlan(before, story[n], id);
    NextSound(before, story[n]);
    SubRemains(before.subs, end.subs, id);
    if WasPriced(w, story[..n], before.subs[id].plan) {
      WasPricedLater(w, story, before.subs[id].plan);
    }
    if end.subs[id].plan != before.subs[id].plan {
      PricedNow(w, story, end.subs[id].plan, n);
    }
  }

  lemma {:induction false} SubRemains(before: Subs, after: Subs, id: SubId)
    requires SubsKept(before, after) && id in before
    ensures id in after && after[id].checkout == before[id].checkout
  {
  }

  lemma {:induction false} PricedNow(w: World, story: Story, plan: PlanCode, k: nat)
    requires k <= |story| && Slot(w.st.provider, w.st.livemode, plan) in Run(w, story[..k]).st.prices
    ensures WasPriced(w, story, plan)
  {
    hide Run;
  }

  /** Whatever the events say, the plan of every row is always the one it had at first, its checkout's, or one that the
      price map had a price for, of its own provider and mode. */
  lemma {:induction false} PlanNeverFromPayload(w: World, story: Story, id: SubId)
    requires SoundWorld(w) && AllPossible(w, story) && id in Run(w, story).subs
    ensures PlanIsOurs(w, story, id)
    decreases |story|
  {
    if story == [] {
    } else {
      hide SoundWorld, AllPossible, Next, WasPriced;
      var n := |story| - 1;
      PrefixPossible(w, story, n);
      var before := Run(w, story[..n]);
      if id in before.subs {
        PlanNeverFromPayload(w, story[..n], id);
        PlanStaysOurs(w, story, id);
      } else {
        HistoryIsKept(w, story[..n]);
        NextOpens(before, story[n], id);
        NextSound(before, story[n]);
      }
    }
  }

  // ------------------------------------------------------------------- a sale that goes through

  lemma {:induction false} RunThree(w: World, a: Happening, b: Happening, c: Happening)
    ensures Run(w, [a, b, c]) == Next(Next(Next(w, a), b), c)
  {
    hide Next;
    assert [a][..0] == [] && [a, b][..1] == [a] && [a, b, c][..2] == [a, b];
    assert Run(w, []) == w;
    assert Run(w, [a]) == Next(w, a);
    assert Run(w, [a, b]) == Next(Next(w, a), b);
  }

  /** No checkout of the project is open, and no row has the provider's session. */
  ghost predicate FreeToStart(w: World, project: ProjectId, session: string) {
    && (forall c <- w.desk.rows :: w.desk.rows[c].state != Open || w.desk.rows[c].project != project)
    && (forall c <- w.desk.rows :: w.desk.rows[c].provider != w.st.provider || w.desk.rows[c].session != session)
  }

  /** The row a start and its session leave, with the provider's session on it. */
  lemma {:induction false} Shopped(w: World, project: ProjectId, plan: PlanCode, began: Time, session: string, expiresAt: Time)
    requires SoundWorld(w) && Genuine(session)
    requires FreeToStart(w, project, session)
    ensures var id := w.desk.next;
      var after := Next(Next(w, Desk(Begin(project, plan, w.st.provider, w.st.livemode, began))), Desk(Attach(id, session, expiresAt)));
      && after == w.(desk := after.desk) && Checkouts.Inv(after.desk) && id !in w.desk.rows
      && after.desk.rows == w.desk.rows[id :=
           Checkout(project, plan, w.st.provider, w.st.livemode, session, Open, expiresAt)]
  {
    hide IndexesHold, Checkouts.Inv, PricesUnique, Genuine, Checkouts.Do;
    var begin, attach := Begin(project, plan, w.st.provider, w.st.livemode, began), Attach(w.desk.next, session, expiresAt);
    StartWrites(w.desk, project, plan, w.st.provider, w.st.livemode, began, session, expiresAt);
    StepKeeps(w.desk, begin);
    StepKeeps(Checkouts.Do(w.desk, begin), attach);
  }

  /** The paid completion of an open checkout of a project that may have a subscription. */
  lemma {:induction false} PaidArrives(w: World, c: CheckoutId, e: Event, fresh_: SubId, now: Time)
    requires SoundWorld(w) && fresh_ !in w.subs && c in w.desk.rows && w.desk.rows[c].state == Open
    requires w.desk.rows[c].provider == w.st.provider && e.obj.id == Some(w.desk.rows[c].session)
    requires e.id !in w.seen && e.livemode == w.st.livemode && e.kind == "checkout.session.completed"
    requires e.obj.paymentStatus == Some("paid") && e.obj.subscription.Some?
    requires w.desk.rows[c].project in w.st.catalogue.projects && w.st.catalogue.projects[w.desk.rows[c].project]
    requires w.desk.rows[c].plan in w.st.catalogue.plans
    requires Untaken(w, w.desk.rows[c].project, e.obj.subscription.value, c)
    ensures var row, after := w.desk.rows[c], Next(w, Arrival(e, fresh_, now));
      var at := if e.created == 0 then now else e.created;
      && after.desk.rows == w.desk.rows[c := row.(state := Completed)] && after.st == w.st
      && after.subs == w.subs[fresh_ := Sub(row.project, row.plan, Active, at, at, None, None,
                                            Some((w.st.provider, e.obj.subscription.value)), Some(c))]
      && after.seen == w.seen[e.id := Applied]
  {
    InvIsSound(w);
    hide SoundWorld, Sound, HandleEvent, CreateFault, Checkouts.Inv;
    CompletionOpens(w.st, LedgerOf(w), e, fresh_, now, c);
    var row, at := w.desk.rows[c], if e.created == 0 then now else e.created;
    var sub := Sub(row.project, row.plan, Active, at, at, None, None, Some((w.st.provider, e.obj.subscription.value)), Some(c));
    CreatedExactly(w.st.catalogue, w.subs, sub);
  }

  /** The project has no live subscription, and nothing is recorded for the provider's id or the checkout. */
  ghost predicate Untaken(w: World, project: ProjectId, link: string, c: CheckoutId) {
    forall s <- w.subs ::
      && (w.subs[s].project != project || w.subs[s].state == Canceled)
      && w.subs[s].link != Some((w.st.provider, link)) && w.subs[s].checkout != Some(c)
  }

  /** From the start to the subscription: a project without a live subscription or an open checkout starts one, the provider gives
      it a session and reports it paid; then the checkout is completed and the project has an active subscription on the
      plan it chose. */
  lemma {:induction false} PaidCheckoutSells(w: World, project: ProjectId, plan: PlanCode, began: Time, session: string,
                                             expiresAt: Time, e: Event, fresh_: SubId, now: Time)
    requires SoundWorld(w) && fresh_ !in w.subs && Genuine(session)
    requires FreeToStart(w, project, session)
    requires project in w.st.catalogue.projects && w.st.catalogue.projects[project] && plan in w.st.catalogue.plans
    requires e.id !in w.seen && e.livemode == w.st.livemode && e.kind == "checkout.session.completed"
    requires e.obj.id == Some(session) && e.obj.paymentStatus == Some("paid") && e.obj.subscription.Some?
    requires Untaken(w, project, e.obj.subscription.value, w.desk.next)
    ensures var id := w.desk.next;
      var end := Run(w, [Desk(Begin(project, plan, w.st.provider, w.st.livemode, began)), Desk(Attach(id, session, expiresAt)),
                         Arrival(e, fresh_, now)]);
      var at := if e.created == 0 then now else e.created;
      && end.desk.rows == w.desk.rows[id :=
           Checkout(project, plan, w.st.provider, w.st.livemode, session, Completed, expiresAt)]
      && end.subs == w.subs[fresh_ := Sub(project, plan, Active, at, at, None, None,
                                          Some((w.st.provider, e.obj.subscription.value)), Some(id))]
      && end.seen == w.seen[e.id := Applied] && end.st == w.st
  {
    hide *;
    var id := w.desk.next;
    var begin, attach := Desk(Begin(project, plan, w.st.provider, w.st.livemode, began)), Desk(Attach(id, session, expiresAt));
    Shopped(w, project, plan, began, session, expiresAt);
    RunThree(w, begin, attach, Arrival(e, fresh_, now));
    PaidAfterStart(w, Next(Next(w, begin), attach), id,
                   Checkout(project, plan, w.st.provider, w.st.livemode, session, Open, expiresAt), e, fresh_, now);
  }

  lemma {:induction false} PaidAfterStart(w: World, w': World, c: CheckoutId, row: Checkout, e: Event, fresh_: SubId, now: Time)
    requires SoundWorld(w) && fresh_ !in w.subs && c !in w.desk.rows
    requires w' == w.(desk := w'.desk) && Checkouts.Inv(w'.desk) && w'.desk.rows == w.desk.rows[c := row]
    requires row.state == Open && row.provider == w.st.provider && e.obj.id == Some(row.session)
    requires e.id !in w.seen && e.livemode == w.st.livemode && e.kind == "checkout.session.completed"
    requires e.obj.paymentStatus == Some("paid") && e.obj.subscription.Some?
    requires row.project in w.st.catalogue.projects && w.st.catalogue.projects[row.project] && row.plan in w.st.catalogue.plans
    requires Untaken(w, row.project, e.obj.subscription.value, c)
    ensures var after := Next(w', Arrival(e, fresh_, now));
      var at := if e.created == 0 then now else e.created;
      && after.desk.rows == w.desk.rows[c := row.(state := Completed)] && after.st == w.st
      && after.subs == w.subs[fresh_ := Sub(row.project, row.plan, Active, at, at, None, None,
                                            Some((w.st.provider, e.obj.subscription.value)), Some(c))]
      && after.seen == w.seen[e.id := Applied]
  {
    SameUntaken(w, w', row.project, e.obj.subscription.value, c);
    StillSound(w, w');
    hide Next, SoundWorld, Checkouts.Inv, Untaken;
    PaidArrives(w', c, e, fresh_, now);
    TwiceTheSame(w.desk.rows, c, row, row.(state := Completed));
  }

  lemma {:induction false} StillSound(w: World, w': World)
    requires SoundWorld(w) && w' == w.(desk := w'.desk) && Checkouts.Inv(w'.desk)
    ensures SoundWorld(w')
  {
    hide IndexesHold, Checkouts.Inv, PricesUnique;
  }

  lemma {:induction false} TwiceTheSame(rows: CheckoutRows, c: CheckoutId, a: Checkout, b: Checkout)
    ensures rows[c := a][c := b] == rows[c := b]
  {
  }

  lemma {:induction false} SameUntaken(w: World, w': World, project: ProjectId, link: string, c: CheckoutId)
    requires Untaken(w, project, link, c) && w'.subs == w.subs && w'.st == w.st
    ensures Untaken(w', project, link, c)
  {
  }

  lemma {:induction false} InvIsSound(w: World)
    requires IndexesHold(w.subs) && Checkouts.Inv(w.desk)
    ensures Sound(LedgerOf(w))
  {
  }

  /** The shop between events: what is set, removed or offered is what the next event finds. */
  lemma {:induction false} ShopIsKept(w: World, slot: Slot, price: PriceId, catalogue: Catalogue, ops: seq<Op>)
    requires w.st.prices == After(map[], ops)
    ensures Next(w, SetPrice(slot, price))
            == w.(st := w.st.(prices := After(map[], ops + [Set(w.st.catalogue.plans, slot, price)])))
    ensures Next(w, RemovePrice(slot)) == w.(st := w.st.(prices := After(map[], ops + [Remove(slot)])))
    ensures Next(w, Offer(catalogue)) == w.(st := w.st.(catalogue := catalogue))
  {
    hide AfterSet;
    assert (ops + [Set(w.st.catalogue.plans, slot, price)])[..|ops|] == ops && (ops + [Remove(slot)])[..|ops|] == ops;
  }
}
