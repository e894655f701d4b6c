/** Checkout rows (`billing.py`): `start_checkout` in its three transactions around the call to the provider, expiry by
    time, and completion by events, all interleaved. */
module Checkouts {
  import opened Results
  import opened Spacing
  import opened PyText
  import opened BillingTypes
  import opened BillingPrices
  import opened Subscriptions

  const CHECKOUT_TTL := 60 * MINUTE

  /** The code of the default plan, which is not sold. */
  const FREE: PlanCode := "free"

  datatype CheckoutState = Open | Completed | Expired

  /** A row of `checkout_sessions`. */
  datatype Checkout = Checkout(project: ProjectId, plan: PlanCode, provider: string, livemode: bool, session: string,
                               state: CheckoutState, expiresAt: Time)
  type CheckoutRows = map<CheckoutId, Checkout>

  datatype CheckoutError = NoSuchProject | ProjectEnding | PlanNotOffered | FreePlan | SamePlan | HasSubscription | NotPriced
                         | AlreadyOpen | ProviderFailed | WrongMode
                         | SessionTaken  // the database's own error, which nothing catches

  /** What the provider answers: a session with its id, mode and expiry, or an error. */
  datatype Answer = Session(id: string, livemode: bool, expiresAt: Option<Time>) | ProviderError

  /** What `start_checkout` reads before it writes. */
  datatype Shop = Shop(catalogue: Catalogue, onPlan: map<ProjectId, PlanCode>, prices: PriceMap, subs: Subs)

  /** Why nothing is started, before any row is written. */
  ghost function StartFault(shop: Shop, project: ProjectId, plan: PlanCode, provider: string, livemode: bool): Option<CheckoutError> {
    if project !in shop.catalogue.projects then Some(NoSuchProject)
    else if !shop.catalogue.projects[project] then Some(ProjectEnding)
    else if plan !in shop.catalogue.plans then Some(PlanNotOffered)
    else if plan == FREE then Some(FreePlan)
    else if project in shop.onPlan && shop.onPlan[project] == plan then Some(SamePlan)
    else if ForProject(shop.subs, project).Some? then Some(HasSubscription)
    else if PriceForPlan(shop.prices, Slot(provider, livemode, plan)).None? then Some(NotPriced)
    else None
  }

  /** `checkout_sessions_one_open_per_project` */
  ghost predicate OneOpen(rows: CheckoutRows) {
    forall a <- rows, b <- rows :: rows[a].state.Open? && rows[b].state.Open? && rows[a].project == rows[b].project ==> a == b
  }

  ghost predicate HasOpen(rows: CheckoutRows, project: ProjectId) {
    exists a <- rows :: rows[a].state.Open? && rows[a].project == project
  }

  /** `checkout_sessions_session_key` */
  ghost predicate SessionsUnique(rows: CheckoutRows) {
    forall a <- rows, b <- rows :: rows[a].provider == rows[b].provider && rows[a].session == rows[b].session ==> a == b
  }

  predicate HasSession(checkout: Checkout, provider: string, session: string) {
    checkout.provider == provider && checkout.session == session
  }

  ghost function BySession(rows: CheckoutRows, provider: string, session: string): (id: Option<CheckoutId>)
    ensures id.Some? ==> id.value in rows && HasSession(rows[id.value], provider, session)
    ensures id.None? ==> forall c <- rows :: !HasSession(rows[c], provider, session)
  {
    if c :| c in rows && HasSession(rows[c], provider, session) then Some(c) else None
  }

  const PENDING := "pending:"

  /** The placeholder a row carries until the provider has answered. */
  function Pending(id: CheckoutId): string {
    PENDING + Decimal(id)
  }

  /** A session id as the provider makes them, which is never a placeholder. */
  predicate Genuine(session: string) {
    !StartsWith(session, PENDING)
  }

  lemma {:induction false} PendingIsOwn(a: CheckoutId, b: CheckoutId)
    ensures Pending(a) == Pending(b) <==> a == b
    ensures !Genuine(Pending(a))
  {
    assert Pending(a)[|PENDING|..] == Decimal(a) && Pending(b)[|PENDING|..] == Decimal(b);
    DecimalIsRead(a);
    DecimalIsRead(b);
  }

  ghost predicate SessionKnown(rows: CheckoutRows, provider: string, session: string) {
    exists c <- rows :: HasSession(rows[c], provider, session)
  }

  ghost function AfterInsert(rows: CheckoutRows, id: CheckoutId, row: Checkout): CheckoutRows {
    if HasOpen(rows, row.project) then rows else rows[id := row]
  }

  /** `_close_checkout`, and the completions: an update by id, whatever the row's state. */
  function AfterSetState(rows: CheckoutRows, id: CheckoutId, state: CheckoutState): CheckoutRows {
    if id in rows then rows[id := rows[id].(state := state)] else rows
  }

  /** Attaching the provider's session; the session key refuses one that another row has. */
  ghost function AfterAttach(rows: CheckoutRows, id: CheckoutId, session: string, expiresAt: Time): CheckoutRows
    requires id in rows
  {
    if SessionKnown(rows - {id}, rows[id].provider, session) then rows
    else rows[id := rows[id].(session := session, expiresAt := expiresAt)]
  }

  predicate IsStale(row: Checkout, now: Time) {
    row.state.Open? && row.expiresAt < now
  }

  function StaleIds(rows: CheckoutRows, now: Time): set<CheckoutId> {
    set id | id in rows && IsStale(rows[id], now)
  }

  function Aged(row: Checkout, now: Time): Checkout {
    if IsStale(row, now) then row.(state := Expired) else row
  }

  function AfterExpiry(rows: CheckoutRows, now: Time): CheckoutRows {
    map id | id in rows :: Aged(rows[id], now)
  }

  lemma {:induction false} ExpiryKeepsOneOpen(rows: CheckoutRows, now: Time)
    requires OneOpen(rows)
    ensures OneOpen(AfterExpiry(rows, now))
  {
  }

  lemma {:induction false} StaleAre(rows: CheckoutRows, now: Time)
    ensures StaleIds(rows, now) == set id | id in rows && rows[id].state == Open && rows[id].expiresAt < now
  {
  }

  class CheckoutTable {
    var rows: CheckoutRows

    constructor ()
      ensures rows == map[]
    {
      rows := map[];
    }

    method Insert(id: CheckoutId, row: Checkout) returns (violated: bool)
      requires OneOpen(rows) && id !in rows && row.state.Open?
      modifies this
      ensures OneOpen(rows) && rows == AfterInsert(old(rows), id, row)
      ensures violated <==> HasOpen(old(rows), row.project)
    {
      if exists a <- rows :: rows[a].state.Open? && rows[a].project == row.project {
        return true;
      }
      rows := rows[id := row];
      violated := false;
    }

    method SetState(id: CheckoutId, state: CheckoutState)
      requires OneOpen(rows) && state != Open
      modifies this
      ensures OneOpen(rows) && rows == AfterSetState(old(rows), id, state)
    {
      if id in rows {
        rows := rows[id := rows[id].(state := state)];
      }
    }

    /** `start_checkout` with nobody in between; `answer` is what the provider will say. */
    method StartCheckout(shop: Shop, id: CheckoutId, project: ProjectId, plan: PlanCode, provider: string, livemode: bool,
                         now: Time, answer: Answer)
      returns (r: Result<CheckoutId, CheckoutError>)
      requires OneOpen(rows) && id !in rows
      modifies this
      ensures OneOpen(rows)
      ensures var fault := StartFault(shop, project, plan, provider, livemode);
        var opened_ := Checkout(project, plan, provider, livemode, Pending(id), Open, now + CHECKOUT_TTL);
        if fault.Some? then r == Raised(fault.value) && rows == old(rows)
        else if HasOpen(old(rows), project) then r == Raised(AlreadyOpen) && rows == old(rows)
        else if answer.ProviderError? || answer.livemode != livemode then
          && r == Raised(if answer.ProviderError? then ProviderFailed else WrongMode)
          && rows == old(rows)[id := opened_.(state := Expired)]
        else if SessionKnown(old(rows), provider, answer.id) then r == Raised(SessionTaken) && rows == old(rows)[id := opened_]
        else
          && r == Ok(id)
          && rows == old(rows)[id := opened_.(session := answer.id,
                                              expiresAt := if answer.expiresAt.Some? then answer.expiresAt.value else opened_.expiresAt)]
    {
      hide Pending, OneOpen;
      var fault := Refusal(shop, project, plan, provider, livemode);
      if fault.Some? {
        return Raised(fault.value);
      }
      var violated := Insert(id, Checkout(project, plan, provider, livemode, Pending(id), Open, now + CHECKOUT_TTL));
      if violated {
        return Raised(AlreadyOpen);
      }
      if answer.ProviderError? {
        SetState(id, Expired);
        return Raised(ProviderFailed);
      }
      if answer.livemode != livemode {
        SetState(id, Expired);
        return Raised(WrongMode);
      }
      assert rows - {id} == old(rows);
      var taken := Attach(id, answer.id, if answer.expiresAt.Some? then answer.expiresAt.value else now + CHECKOUT_TTL);
      if taken {
        return Raised(SessionTaken);
      }
      r := Ok(id);
    }

    /** The checks before the insert, in their order. */
    method Refusal(shop: Shop, project: ProjectId, plan: PlanCode, provider: string, livemode: bool)
      returns (fault: Option<CheckoutError>)
      ensures fault == StartFault(shop, project, plan, provider, livemode)
    {
      if project !in shop.catalogue.projects {
        return Some(NoSuchProject);
      }
      if !shop.catalogue.projects[project] {
        return Some(ProjectEnding);
      }
      if plan !in shop.catalogue.plans {
        return Some(PlanNotOffered);
      }
      if plan == FREE {
        return Some(FreePlan);
      }
      if project in shop.onPlan && shop.onPlan[project] == plan {
        return Some(SamePlan);
      }
      if exists a <- shop.subs :: LiveFor(shop.subs[a], project) {
        return Some(HasSubscription);
      }
      if Slot(provider, livemode, plan) !in shop.prices {
        return Some(NotPriced);
      }
      fault := None;
    }

    method Attach(id: CheckoutId, session: string, expiresAt: Time) returns (taken: bool)
      requires OneOpen(rows) && id in rows
      modifies this
      ensures OneOpen(rows) && rows == AfterAttach(old(rows), id, session, expiresAt)
      ensures taken <==> SessionKnown(old(rows) - {id}, old(rows)[id].provider, session)
    {
      var others := rows - {id};
      taken := exists other <- others :: HasSession(others[other], rows[id].provider, session);
      if !taken {
        rows := rows[id := rows[id].(session := session, expiresAt := expiresAt)];
      }
    }

    /** `expire_stale_checkouts`, one statement. */
    method ExpireStale(now: Time) returns (closed: nat)
      requires OneOpen(rows)
      modifies this
      ensures OneOpen(rows) && rows == AfterExpiry(old(rows), now)
      ensures closed == |StaleIds(old(rows), now)|
      ensures closed == |set id | id in old(rows) && old(rows)[id].state == Open && old(rows)[id].expiresAt < now|
    {
      closed := |StaleIds(rows, now)|;
      StaleAre(rows, now);
      ExpiryKeepsOneOpen(rows, now);
      rows := AfterExpiry(rows, now);
    }
  }

  // ------------------------------------------------------------------- interleavings

  type Handler = nat

  /** A handler that has looked a row up and is about to complete it by id. */
  datatype Decision = Decision(id: CheckoutId, bySession: bool)

  /** One statement or transaction of somebody. `Attach`, `Close` and `Die` end a `start_checkout` whose insert made the
      row. `FindSession` and `FindRow` are the look-ups of the two event handlers, `Complete` the update either makes. */
  datatype Step =
    | Begin(project: ProjectId, plan: PlanCode, provider: string, livemode: bool, now: Time)
    | Attach(id: CheckoutId, session: string, expiresAt: Time)
    | Close(id: CheckoutId)
    | Die(id: CheckoutId)
    | ExpireAll(now: Time)
    | FindSession(h: Handler, provider: string, session: string)
    | FindRow(h: Handler, provider: string, id: CheckoutId)
    | Complete(h: Handler)
    | Forget(h: Handler)

  /** Row ids are fresh: the next one is greater than every one before. `starts` are the rows whose `start_checkout` is
      still waiting for the provider. */
  datatype State = State(rows: CheckoutRows, next: CheckoutId, starts: set<CheckoutId>, decided: map<Handler, Decision>)

  ghost function Do(s: State, step: Step): State {
    match step
    case Begin(project, plan, provider, livemode, now) => DoBegin(s, project, plan, provider, livemode, now)
    case Attach(id, session, expiresAt) =>
      if id in s.starts && id in s.rows
      then s.(rows := AfterAttach(s.rows, id, session, expiresAt), starts := s.starts - {id})
      else s
    case Close(id) => if id in s.starts then s.(rows := AfterSetState(s.rows, id, Expired), starts := s.starts - {id}) else s
    case Die(id) => s.(starts := s.starts - {id})
    case ExpireAll(now) => s.(rows := AfterExpiry(s.rows, now))
    case FindSession(h, provider, session) =>
      var id := BySession(s.rows, provider, session);
      if id.Some? && !s.rows[id.value].state.Completed? then s.(decided := s.decided[h := Decision(id.value, true)]) else s
    case FindRow(h, provider, id) =>
      if id in s.rows && s.rows[id].provider == provider && s.rows[id].state.Open?
      then s.(decided := s.decided[h := Decision(id, false)])
      else s
    case Complete(h) =>
      if h in s.decided then s.(rows := AfterSetState(s.rows, s.decided[h].id, Completed), decided := s.decided - {h}) else s
    case Forget(h) => s.(decided := s.decided - {h})
  }

  ghost function DoBegin(s: State, project: ProjectId, plan: PlanCode, provider: string, livemode: bool, now: Time): State {
    if HasOpen(s.rows, project) then s.(next := s.next + 1)
    else
      s.(rows := s.rows[s.next := Checkout(project, plan, provider, livemode, Pending(s.next), Open, now + CHECKOUT_TTL)],
         next := s.next + 1, starts := s.starts + {s.next})
  }

  type Steps = seq<Step>

  ghost function Run(s: State, steps: Steps): State {
    if steps == [] then s else Do(Run(s, steps[..|steps| - 1]), steps[|steps| - 1])
  }

  /** The session ids that come from the provider are its own. */
  predicate IsGenuine(step: Step) {
    match step
    case Attach(_, session, _) => Genuine(session)
    case FindSession(_, _, session) => Genuine(session)
    case _ => true
  }

  ghost predicate AllGenuine(steps: Steps) {
    forall step <- steps :: IsGenuine(step)
  }

  ghost predicate SessionsSound(s: State) {
    && SessionsUnique(s.rows)
    && (forall id <- s.rows :: s.rows[id].session == Pending(id) || Genuine(s.rows[id].session))
    && (forall id <- s.starts :: id in s.rows && s.rows[id].session == Pending(id))
  }

  ghost predicate Inv(s: State) {
    && OneOpen(s.rows) && SessionsSound(s)
    && (forall id <- s.rows :: id < s.next)
    && (forall h <- s.decided :: s.decided[h].id in s.rows && (s.decided[h].bySession ==> s.decided[h].id !in s.starts))
  }

  ghost predicate Empty(s: State) {
    s.rows == map[] && s.starts == {} && s.decided == map[]
  }

  lemma {:induction false} EmptyIsSound(s: State)
    requires Empty(s)
    ensures Inv(s)
  {
  }

  /** What nothing undoes: the row, its project, plan, provider and mode; and a row that is not open never opens again. */
  predicate SameRow(before: Checkout, after: Checkout) {
    && after.project == before.project && after.plan == before.plan
    && after.provider == before.provider && after.livemode == before.livemode
    && (after.state.Open? ==> before.state.Open?)
  }

  ghost predicate Kept(before: CheckoutRows, after: CheckoutRows) {
    forall id <- before :: id in after && SameRow(before[id], after[id])
  }

  lemma {:induction false} InsertKeepsRows(rows: CheckoutRows, id: CheckoutId, row: Checkout)
    requires OneOpen(rows) && SessionsUnique(rows) && id !in rows && !HasOpen(rows, row.project)
    requires forall c <- rows :: rows[c].session != row.session
    ensures OneOpen(rows[id := row]) && SessionsUnique(rows[id := row]) && Kept(rows, rows[id := row])
  {
  }

  lemma {:induction false} BeginKeeps(s: State, project: ProjectId, plan: PlanCode, provider: string, livemode: bool, now: Time)
    requires Inv(s)
    ensures var s' := DoBegin(s, project, plan, provider, livemode, now); Inv(s') && Kept(s.rows, s'.rows)
  {
    hide Pending, Genuine, OneOpen, SessionsUnique, HasOpen;
    PendingIsOwn(s.next, s.next);
    forall id | id in s.rows ensures s.rows[id].session != Pending(s.next) {
      PendingIsOwn(id, s.next);
    }
    if !HasOpen(s.rows, project) {
      InsertKeepsRows(s.rows, s.next,
                      Checkout(project, plan, provider, livemode, Pending(s.next), Open, now + CHECKOUT_TTL));
    }
  }

  /** Changing states alone, never to open, breaks nothing. */
  lemma {:induction false} QuietKeepsRows(rows: CheckoutRows, after: CheckoutRows)
    requires OneOpen(rows) && SessionsUnique(rows) && after.Keys == rows.Keys
    requires forall id <- rows :: SameRow(rows[id], after[id]) && after[id].session == rows[id].session
    ensures OneOpen(after) && SessionsUnique(after) && Kept(rows, after)
  {
  }

  lemma {:induction false} QuietKeeps(s: State, after: CheckoutRows)
    requires Inv(s) && after.Keys == s.rows.Keys
    requires forall id <- s.rows :: SameRow(s.rows[id], after[id]) && after[id].session == s.rows[id].session
    ensures Inv(s.(rows := after)) && Kept(s.rows, after)
  {
    hide Pending, Genuine, OneOpen, SessionsUnique, SameRow, Kept;
    QuietKeepsRows(s.rows, after);
  }

  lemma {:induction false} AttachKeepsRows(rows: CheckoutRows, id: CheckoutId, session: string, expiresAt: Time)
    requires OneOpen(rows) && SessionsUnique(rows) && id in rows
    ensures var after := AfterAttach(rows, id, session, expiresAt);
      && OneOpen(after) && SessionsUnique(after) && after.Keys == rows.Keys && Kept(rows, after)
      && (forall c <- rows :: c != id ==> after[c] == rows[c])
      && (after[id].session == rows[id].session || after[id].session == session)
  {
    var others := rows - {id};
    assert forall other <- rows :: other != id ==> other in others && others[other] == rows[other];
  }

  lemma {:induction false} AttachKeeps(s: State, id: CheckoutId, session: string, expiresAt: Time)
    requires Inv(s) && id in s.starts && Genuine(session)
    ensures id in s.rows
    ensures var s' := Do(s, Attach(id, session, expiresAt)); Inv(s') && Kept(s.rows, s'.rows)
  {
    hide Pending, Genuine, AfterAttach, SessionsUnique, OneOpen;
    AttachKeepsRows(s.rows, id, session, expiresAt);
  }

  lemma {:induction false} SetStateKeeps(s: State, id: CheckoutId, state: CheckoutState)
    requires Inv(s) && !state.Open?
    ensures var s' := s.(rows := AfterSetState(s.rows, id, state)); Inv(s') && Kept(s.rows, s'.rows)
  {
    hide Inv, Kept;
    QuietKeeps(s, AfterSetState(s.rows, id, state));
  }

  lemma {:induction false} LeavingKeeps(s: State, id: CheckoutId)
    requires Inv(s)
    ensures Inv(s.(starts := s.starts - {id}))
  {
    hide Pending, Genuine;
  }

  lemma {:induction false} ExpiryKeeps(s: State, now: Time)
    requires Inv(s)
    ensures var s' := s.(rows := AfterExpiry(s.rows, now)); Inv(s') && Kept(s.rows, s'.rows)
  {
    hide Inv, Kept;
    QuietKeeps(s, AfterExpiry(s.rows, now));
  }

  /** A look-up by a genuine session finds a row whose start is over. */
  lemma {:induction false} FoundIsAttached(s: State, provider: string, session: string)
    requires Inv(s) && Genuine(session) && BySession(s.rows, provider, session).Some?
    ensures BySession(s.rows, provider, session).value !in s.starts
  {
    hide Pending, Genuine;
    var id := BySession(s.rows, provider, session).value;
    PendingIsOwn(id, id);
  }

  lemma {:induction false} DecidedKeeps(s: State, step: Step)
    requires Inv(s) && IsGenuine(step)
    requires step.FindSession? || step.FindRow? || step.Complete? || step.Forget?
    ensures Inv(Do(s, step)) && Kept(s.rows, Do(s, step).rows) && Do(s, step).starts == s.starts
  {
    hide Pending, Genuine, OneOpen, SessionsUnique;
    match step
    case FindSession(h, provider, session) =>
      if BySession(s.rows, provider, session).Some? {
        FoundIsAttached(s, provider, session);
      }
    case Complete(h) => if h in s.decided { SetStateKeeps(s, s.decided[h].id, Completed); }
    case _ =>
  }

  lemma {:induction false} StepKeeps(s: State, step: Step)
    requires Inv(s) && IsGenuine(step)
    ensures Inv(Do(s, step)) && Kept(s.rows, Do(s, step).rows)
  {
    hide Inv, Pending, Genuine, AfterSetState, AfterExpiry, AfterAttach, DoBegin;
    match step
    case Begin(project, plan, provider, livemode, now) => BeginKeeps(s, project, plan, provider, livemode, now);
    case Attach(id, session, expiresAt) => if id in s.starts { AttachKeeps(s, id, session, expiresAt); }
    case Close(id) =>
      if id in s.starts {
        SetStateKeeps(s, id, Expired);
        LeavingKeeps(s.(rows := AfterSetState(s.rows, id, Expired)), id);
      }
    case Die(id) => LeavingKeeps(s, id);
    case ExpireAll(now) => ExpiryKeeps(s, now);
    case _ => DecidedKeeps(s, step);
  }

  /** A row that was not there is one that a start has just written. */
  lemma {:induction false} NewRowIsBegun(s: State, step: Step, c: CheckoutId)
    requires c !in s.rows && c in Do(s, step).rows
    ensures step.Begin?
    ensures var row := Do(s, step).rows[c];
      row.project == step.project && row.plan == step.plan && row.provider == step.provider
  {
    hide Pending, HasOpen, SessionKnown, BySession, Aged;
  }

  lemma {:induction false} PrefixGenuine(steps: Steps)
    requires AllGenuine(steps) && steps != []
    ensures AllGenuine(steps[..|steps| - 1]) && IsGenuine(steps[|steps| - 1])
  {
  }

  lemma {:induction false} KeptTransitive(a: CheckoutRows, b: CheckoutRows, c: CheckoutRows)
    requires Kept(a, b) && Kept(b, c)
    ensures Kept(a, c)
  {
  }

  /** Over every interleaving: at most one checkout is open per project, no two rows share a session, no row returns to
      open or is lost, and none changes the project, plan, provider or mode it was started with. */
  lemma {:induction false} RunKeeps(s: State, steps: Steps)
    requires Inv(s) && AllGenuine(steps)
    ensures Inv(Run(s, steps)) && Kept(s.rows, Run(s, steps).rows)
    decreases |steps|
  {
    if steps == [] {
    } else {
      hide Do, Inv, AllGenuine;
      PrefixGenuine(steps);
      var before := Run(s, steps[..|steps| - 1]);
      RunKeeps(s, steps[..|steps| - 1]);
      StepKeeps(before, steps[|steps| - 1]);
      KeptTransitive(s.rows, before.rows, Run(s, steps).rows);
    }
  }

  // ------------------------------------------------------------------- completions

  /** Completed, and not in the middle of a start. */
  predicate Final(s: State, id: CheckoutId) {
    id in s.rows && s.rows[id].state.Completed? && id !in s.starts
  }

  lemma {:induction false} StepKeepsFinal(s: State, step: Step, id: CheckoutId)
    requires Inv(s) && Final(s, id)
    ensures Final(Do(s, step), id)
  {
    hide Pending, SessionsUnique, OneOpen, HasOpen, Genuine;
    assert id < s.next;
  }

  /** A row that is completed when its start is over stays completed through anything. */
  lemma {:induction false} FinalForever(s: State, steps: Steps, id: CheckoutId)
    requires Inv(s) && AllGenuine(steps) && Final(s, id)
    ensures Final(Run(s, steps), id)
    decreases |steps|
  {
    if steps == [] {
    } else {
      hide Do, Inv, AllGenuine, Final;
      PrefixGenuine(steps);
      RunKeeps(s, steps[..|steps| - 1]);
      FinalForever(s, steps[..|steps| - 1], id);
      StepKeepsFinal(Run(s, steps[..|steps| - 1]), steps[|steps| - 1], id);
    }
  }

  /** A row completed by its session id never leaves `completed`, whatever happens between the look-up and the update and
      whatever comes after. */
  lemma {:induction false} SessionCompletionIsFinal(s: State, h: Handler, provider: string, session: string, between: Steps, after: Steps)
    requires Inv(s) && Genuine(session) && AllGenuine(between) && AllGenuine(after)
    requires var id := BySession(s.rows, provider, session); id.Some? && !s.rows[id.value].state.Completed?
    requires var mid := Run(Do(s, FindSession(h, provider, session)), between);
      h in mid.decided && mid.decided[h] == Decision(BySession(s.rows, provider, session).value, true)
    ensures var mid := Run(Do(s, FindSession(h, provider, session)), between);
      Final(Run(Do(mid, Complete(h)), after), BySession(s.rows, provider, session).value)
  {
    hide Run, Pending, OneOpen, SessionsSound, Genuine;
    var found := Do(s, FindSession(h, provider, session));
    StepKeeps(s, FindSession(h, provider, session));
    RunKeeps(found, between);
    var mid := Run(found, between);
    StepKeeps(mid, Complete(h));
    FinalForever(Do(mid, Complete(h)), after, mid.decided[h].id);
  }

  /** Some later steps take the row out of `completed`. */
  ghost predicate Undoable(s: State, id: CheckoutId) {
    exists steps: Steps :: AllGenuine(steps) && id in Run(s, steps).rows && !Run(s, steps).rows[id].state.Completed?
  }

  /** A completed row can leave `completed` exactly while its start still waits for the provider: then it carries the
      placeholder, so that only a subscription event that names the row can have completed it, and closing undoes that. */
  lemma {:induction false} UndoneExactlyWhileStarting(s: State, id: CheckoutId)
    requires Inv(s) && id in s.rows && s.rows[id].state.Completed?
    ensures Undoable(s, id) <==> id in s.starts
    ensures id in s.starts ==> s.rows[id].session == Pending(id)
  {
    hide Pending, OneOpen;
    if id in s.starts {
      var steps: Steps := [Close(id)];
      assert steps[..0] == [];
      assert Run(s, steps[..0]) == s;
      assert Run(s, steps) == Do(s, Close(id));
      assert AllGenuine(steps);
    }
    if steps: Steps :| AllGenuine(steps) && id in Run(s, steps).rows && !Run(s, steps).rows[id].state.Completed? {
      if id !in s.starts {
        FinalForever(s, steps, id);
      }
    }
  }

  /** The completion a subscription event makes by the row's id, undisturbed: exactly when the row is the provider's and
      open; and it lasts exactly when the row's start is over. */
  lemma {:induction false} MetadataCompletes(s: State, h: Handler, provider: string, id: CheckoutId)
    requires Inv(s) && id in s.rows && !s.rows[id].state.Completed? && h !in s.decided
    ensures var s' := Do(Do(s, FindRow(h, provider, id)), Complete(h));
      && id in s'.rows
      && (s'.rows[id].state.Completed? <==> s.rows[id].provider == provider && s.rows[id].state.Open?)
      && (s'.rows[id].state.Completed? ==> (Undoable(s', id) <==> id in s.starts))
  {
    hide Pending, OneOpen, SessionsSound, Genuine, Undoable;
    var found := Do(s, FindRow(h, provider, id));
    StepKeeps(s, FindRow(h, provider, id));
    StepKeeps(found, Complete(h));
    if Do(found, Complete(h)).rows[id].state.Completed? {
      UndoneExactlyWhileStarting(Do(found, Complete(h)), id);
    }
  }

  /** The completion by a session, undisturbed: the row that has it is completed unless it is already, and nothing else is
      touched; a session no row has completes nothing. */
  lemma {:induction false} SessionCompletes(s: State, h: Handler, provider: string, session: string, c: CheckoutId)
    requires Inv(s) && h !in s.decided
    ensures var found := Do(s, FindSession(h, provider, session));
      && ((forall d <- s.rows :: s.rows[d].provider != provider || s.rows[d].session != session) ==> found == s)
      && (c in s.rows && s.rows[c].provider == provider && s.rows[c].session == session ==>
            if s.rows[c].state == Completed then found == s
            else
              && found == s.(decided := s.decided[h := Decision(c, true)]) && Do(found, Forget(h)) == s
              && Do(found, Complete(h)) == s.(rows := s.rows[c := s.rows[c].(state := Completed)]))
  {
    hide OneOpen, Pending, Genuine;
    var id := BySession(s.rows, provider, session);
    if c in s.rows && s.rows[c].provider == provider && s.rows[c].session == session {
      assert HasSession(s.rows[c], provider, session);
      assert id == Some(c);
      assert s.decided[h := Decision(c, true)] - {h} == s.decided;
    }
  }

  // ------------------------------------------------------------------- starting

  /** A start is refused exactly while a checkout of the project is open, and an open one is out of the way at the first
      expiry pass after its time. */
  lemma {:induction false} StartedExactlyWhenNoneOpen(s: State, project: ProjectId, plan: PlanCode, provider: string, livemode: bool,
                                                      now: Time, later: Time)
    requires Inv(s)
    ensures s.next in Do(s, Begin(project, plan, provider, livemode, now)).rows <==> !HasOpen(s.rows, project)
    ensures s.next in Do(Do(s, ExpireAll(later)), Begin(project, plan, provider, livemode, now)).rows <==>
              forall id <- s.rows :: s.rows[id].project == project && s.rows[id].state.Open? ==> s.rows[id].expiresAt < later
  {
    hide Pending, SessionsSound;
    var expired := AfterExpiry(s.rows, later);
    assert HasOpen(expired, project) <==>
             exists id <- s.rows :: s.rows[id].project == project && s.rows[id].state.Open? && s.rows[id].expiresAt >= later by {
      if id :| id in s.rows && s.rows[id].project == project && s.rows[id].state.Open? && s.rows[id].expiresAt >= later {
        assert expired[id] == s.rows[id];
      }
    }
  }

  /** Why nothing is started: the first of these that applies, read off the catalogue, the live subscriptions and the prices; the
      free plan is never sold. */
  lemma {:induction false} RefusedBecause(shop: Shop, project: ProjectId, plan: PlanCode, provider: string, livemode: bool)
    ensures var fault := StartFault(shop, project, plan, provider, livemode);
      var live := exists s <- shop.subs :: shop.subs[s].project == project && shop.subs[s].state != Canceled;
      fault == if project !in shop.catalogue.projects then Some(NoSuchProject)
               else if shop.catalogue.projects[project] == false then Some(ProjectEnding)
               else if plan !in shop.catalogue.plans then Some(PlanNotOffered)
               else if plan == "free" then Some(FreePlan)
               else if project in shop.onPlan && shop.onPlan[project] == plan then Some(SamePlan)
               else if live then Some(HasSubscription)
               else if Slot(provider, livemode, plan) !in shop.prices then Some(NotPriced) else None
  {
    hide ForProject;
    LiveIs(shop.subs, project);
  }

  /** What a start writes, and what becomes of it: for an hour it holds the project's one open checkout under a placeholder of
      its own; the provider's session takes the placeholder's place unless another row has it; and a start that fails
      leaves it expired. */
  lemma {:induction false} StartWrites(s: State, project: ProjectId, plan: PlanCode, provider: string, livemode: bool, now: Time,
                                       session: string, expiresAt: Time)
    requires Inv(s)
    ensures var begun := Do(s, Begin(project, plan, provider, livemode, now));
      if exists c <- s.rows :: s.rows[c].project == project && s.rows[c].state == Open then begun == s.(next := s.next + 1)
      else
        var row := Checkout(project, plan, provider, livemode, "pending:" + Decimal(s.next), Open, now + 60 * 60 * 1_000_000);
        && s.next !in s.rows
        && begun == State(s.rows[s.next := row], s.next + 1, s.starts + {s.next}, s.decided)
        && Do(begun, Close(s.next)).rows == s.rows[s.next := row.(state := Expired)]
        && Do(begun, Close(s.next)).starts == Do(begun, Die(s.next)).starts == s.starts
        && Do(begun, Die(s.next)).rows == begun.rows
        && var attached := Do(begun, Attach(s.next, session, expiresAt));
           && attached.starts == s.starts
           && attached.rows == if exists c <- s.rows :: s.rows[c].provider == provider && s.rows[c].session == session then begun.rows
                               else s.rows[s.next := row.(session := session, expiresAt := expiresAt)]
  {
    hide OneOpen, SessionsSound;
    assert s.next !in s.starts by { StartsAreRows(s); }
    var begun := Do(s, Begin(project, plan, provider, livemode, now));
    assert s.starts + {s.next} - {s.next} == s.starts;
    assert HasOpen(s.rows, project) <==> exists c <- s.rows :: s.rows[c].project == project && s.rows[c].state == Open;
    if !HasOpen(s.rows, project) {
      assert begun.rows - {s.next} == s.rows;
      assert SessionKnown(s.rows, provider, session)
        <==> exists c <- s.rows :: s.rows[c].provider == provider && s.rows[c].session == session;
    }
  }

  lemma {:induction false} StartsAreRows(s: State)
    requires Inv(s)
    ensures s.starts <= s.rows.Keys && s.next !in s.rows
  {
  }

  /** A pass over stale checkouts, row by row. */
  lemma {:induction false} ExpiredExactly(s: State, now: Time, id: CheckoutId)
    requires id in s.rows
    ensures var after := Do(s, ExpireAll(now));
      && after.rows.Keys == s.rows.Keys && after.starts == s.starts && after.decided == s.decided && after.next == s.next
      && after.rows[id] == if s.rows[id].state == Open && s.rows[id].expiresAt < now then s.rows[id].(state := Expired) else s.rows[id]
  {
  }
}
