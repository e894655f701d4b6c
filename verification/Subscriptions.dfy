/** `subscriptions.py`: rows of `subscriptions` under its three unique indexes, `create` and `record_state`.
    Times are microseconds; the caller passes the clock. */
module Subscriptions {
  import opened Results
  import opened BillingTypes

  type SubId = nat

  datatype SubState = Incomplete | Trialing | Active | PastDue | Canceled

  /** `link` is the provider and its own id for the subscription, which are null together. */
  datatype Sub = Sub(project: ProjectId, plan: PlanCode, state: SubState, asOf: Time, since: Time,
                     start: Option<Time>, end: Option<Time>, link: Option<(string, string)>,
                     checkout: Option<CheckoutId>)
  type Subs = map<SubId, Sub>

  /** The active plans, and the projects, each with whether it is not being deleted. */
  datatype Catalogue = Catalogue(plans: set<PlanCode>, projects: map<ProjectId, bool>)

  datatype Fault = CreatedCanceled | NoProject | BeingDeleted | NoActivePlan | AlreadyLive | ProviderIdTaken | CheckoutUsed
                 | NoLiveSubscription | ForbiddenTransition | Stale
                 | PeriodOrder  // the check constraint, not a `SubscriptionError`

  function Transitions(state: SubState): set<SubState> {
    match state
    case Incomplete => {Incomplete, Trialing, Active, Canceled}
    case Trialing => {Trialing, Active, PastDue, Canceled}
    case Active => {Active, PastDue, Canceled}
    case PastDue => {PastDue, Active, Canceled}
    case Canceled => {}
  }

  predicate PeriodOk(start: Option<Time>, end: Option<Time>) {
    start.None? || end.None? || end.value > start.value
  }

  predicate LiveFor(sub: Sub, project: ProjectId) {
    sub.project == project && !sub.state.Canceled?
  }

  /** The three unique indexes. */
  ghost predicate IndexesHold(subs: Subs) {
    && (forall a <- subs, b <- subs :: LiveFor(subs[a], subs[b].project) && !subs[b].state.Canceled? ==> a == b)
    && (forall a <- subs, b <- subs :: subs[a].link.Some? && subs[a].link == subs[b].link ==> a == b)
    && (forall a <- subs, b <- subs :: subs[a].checkout.Some? && subs[a].checkout == subs[b].checkout ==> a == b)
  }

  ghost function ForProject(subs: Subs, project: ProjectId): (id: Option<SubId>)
    ensures id.Some? ==> id.value in subs && LiveFor(subs[id.value], project)
    ensures id.None? ==> forall a <- subs :: !LiveFor(subs[a], project)
  {
    if a :| a in subs && LiveFor(subs[a], project) then Some(a) else None
  }

  ghost function ByProvider(subs: Subs, link: (string, string)): (id: Option<SubId>)
    ensures id.Some? ==> id.value in subs && subs[id.value].link == Some(link)
    ensures id.None? ==> forall a <- subs :: subs[a].link != Some(link)
  {
    if a :| a in subs && subs[a].link == Some(link) then Some(a) else None
  }

  ghost predicate LinkTaken(subs: Subs, link: Option<(string, string)>) {
    link.Some? && exists a <- subs :: subs[a].link == link
  }

  ghost predicate CheckoutTaken(subs: Subs, checkout: Option<CheckoutId>) {
    checkout.Some? && exists a <- subs :: subs[a].checkout == checkout
  }

  /** Why `create` refuses, if it does. */
  ghost function CreateFault(catalogue: Catalogue, subs: Subs, sub: Sub): Option<Fault> {
    if sub.state.Canceled? then Some(CreatedCanceled)
    else if sub.project !in catalogue.projects then Some(NoProject)
    else if !catalogue.projects[sub.project] then Some(BeingDeleted)
    else if sub.plan !in catalogue.plans then Some(NoActivePlan)
    else if ForProject(subs, sub.project).Some? then Some(AlreadyLive)
    else if !PeriodOk(sub.start, sub.end) then Some(PeriodOrder)
    else if LinkTaken(subs, sub.link) then Some(ProviderIdTaken)
    else if CheckoutTaken(subs, sub.checkout) then Some(CheckoutUsed)
    else None
  }

  /** `sub` as asserted anew: the clock of the state moves only with the state. */
  function Asserted(sub: Sub, state: SubState, asOf: Time, plan: Option<PlanCode>, start: Option<Time>, end: Option<Time>): Sub {
    sub.(state := state,
         plan := if plan.Some? then plan.value else sub.plan,
         asOf := asOf,
         since := if sub.state != state then asOf else sub.since,
         start := if start.Some? then start else sub.start,
         end := if end.Some? then end else sub.end)
  }

  function AssertFault(catalogue: Catalogue, sub: Sub, state: SubState, asOf: Time, plan: Option<PlanCode>,
                       start: Option<Time>, end: Option<Time>): Option<Fault> {
    if state !in Transitions(sub.state) then Some(ForbiddenTransition)
    else if asOf < sub.asOf then Some(Stale)
    else if plan.Some? && plan.value !in catalogue.plans then Some(NoActivePlan)
    else
      var after := Asserted(sub, state, asOf, plan, start, end);
      if !PeriodOk(after.start, after.end) then Some(PeriodOrder) else None
  }

  /** `record_state` on the table: it finds its row by project. */
  ghost function AfterRecord(catalogue: Catalogue, subs: Subs, project: ProjectId, state: SubState, asOf: Time,
                             plan: Option<PlanCode>, start: Option<Time>, end: Option<Time>): Subs {
    var id := ForProject(subs, project);
    if id.None? || AssertFault(catalogue, subs[id.value], state, asOf, plan, start, end).Some? then subs
    else subs[id.value := Asserted(subs[id.value], state, asOf, plan, start, end)]
  }

  ghost function RecordFault(catalogue: Catalogue, subs: Subs, project: ProjectId, state: SubState, asOf: Time,
                             plan: Option<PlanCode>, start: Option<Time>, end: Option<Time>): Option<Fault> {
    var id := ForProject(subs, project);
    if id.None? then Some(NoLiveSubscription) else AssertFault(catalogue, subs[id.value], state, asOf, plan, start, end)
  }

  class SubscriptionTable {
    var subs: Subs
    const catalogue: Catalogue

    constructor (catalogue: Catalogue, subs: Subs)
      ensures this.catalogue == catalogue && this.subs == subs
    {
      this.catalogue, this.subs := catalogue, subs;
    }

    method FindLive(project: ProjectId) returns (id: Option<SubId>)
      requires IndexesHold(subs)
      ensures id == ForProject(subs, project)
    {
      id := None;
      if a :| a in subs && LiveFor(subs[a], project) {
        return Some(a);
      }
    }

    method FindLinked(link: (string, string)) returns (id: Option<SubId>)
      requires IndexesHold(subs)
      ensures id == ByProvider(subs, link)
    {
      id := None;
      if a :| a in subs && subs[a].link == Some(link) {
        return Some(a);
      }
    }

    /** `create`; `id` is the new row's fresh uuid, and `sub.asOf` the moment asserted. */
    method Create(id: SubId, sub: Sub) returns (fault: Option<Fault>)
      requires IndexesHold(subs) && id !in subs
      modifies this
      ensures IndexesHold(subs)
      ensures fault == CreateFault(catalogue, old(subs), sub)
      ensures subs == if fault.Some? then old(subs) else old(subs)[id := sub.(since := sub.asOf)]
    {
      if sub.state == Canceled {
        return Some(CreatedCanceled);
      }
      if sub.project !in catalogue.projects {
        return Some(NoProject);
      }
      if !catalogue.projects[sub.project] {
        return Some(BeingDeleted);
      }
      if sub.plan !in catalogue.plans {
        return Some(NoActivePlan);
      }
      var live := FindLive(sub.project);
      if live.Some? {
        return Some(AlreadyLive);
      }
      if !PeriodOk(sub.start, sub.end) {
        return Some(PeriodOrder);
      }
      if sub.link.Some? && exists a <- subs :: subs[a].link == sub.link {
        return Some(ProviderIdTaken);
      }
      if sub.checkout.Some? && exists a <- subs :: subs[a].checkout == sub.checkout {
        return Some(CheckoutUsed);
      }
      InsertKeepsIndexes(subs, id, sub.(since := sub.asOf));
      subs := subs[id := sub.(since := sub.asOf)];
      fault := None;
    }

    /** `record_state` */
    method RecordState(project: ProjectId, state: SubState, asOf: Time, plan: Option<PlanCode>,
                       start: Option<Time>, end: Option<Time>)
      returns (fault: Option<Fault>)
      requires IndexesHold(subs)
      modifies this
      ensures IndexesHold(subs)
      ensures fault == RecordFault(catalogue, old(subs), project, state, asOf, plan, start, end)
      ensures subs == AfterRecord(catalogue, old(subs), project, state, asOf, plan, start, end)
    {
      hide IndexesHold, Transitions, PeriodOk, Asserted;
      var live := FindLive(project);
      if live.None? {
        return Some(NoLiveSubscription);
      }
      var current := subs[live.value];
      if state !in Transitions(current.state) {
        return Some(ForbiddenTransition);
      }
      if asOf < current.asOf {
        return Some(Stale);
      }
      if plan.Some? && plan.value !in catalogue.plans {
        return Some(NoActivePlan);
      }
      var after := Asserted(current, state, asOf, plan, start, end);
      if !PeriodOk(after.start, after.end) {
        return Some(PeriodOrder);
      }
      AssertKeepsIndexes(subs, live.value, state, asOf, plan, start, end);
      subs := subs[live.value := after];
      fault := None;
    }
  }

  /** What no writer undoes: a row keeps its project, its provider's id and its checkout, its moment never moves back, and a
      canceled row is never touched again. */
  predicate SameSub(a: Sub, b: Sub) {
    && b.project == a.project && b.link == a.link && b.checkout == a.checkout
    && a.asOf <= b.asOf
    && (a.state.Canceled? ==> b == a)
  }

  ghost predicate SubsKept(before: Subs, after: Subs) {
    before.Keys <= after.Keys && forall s <- before :: SameSub(before[s], after[s])
  }

  lemma {:induction false} SubsKeptTransitive(a: Subs, b: Subs, c: Subs)
    requires SubsKept(a, b) && SubsKept(b, c)
    ensures SubsKept(a, c)
  {
  }

  lemma {:induction false} InsertKeepsIndexes(subs: Subs, id: SubId, sub: Sub)
    requires IndexesHold(subs) && id !in subs
    requires ForProject(subs, sub.project).None? && !LinkTaken(subs, sub.link) && !CheckoutTaken(subs, sub.checkout)
    ensures IndexesHold(subs[id := sub])
  {
  }

  lemma {:induction false} AssertKeepsIndexes(subs: Subs, id: SubId, state: SubState, asOf: Time, plan: Option<PlanCode>,
                                              start: Option<Time>, end: Option<Time>)
    requires IndexesHold(subs) && id in subs && !subs[id].state.Canceled?
    ensures IndexesHold(subs[id := Asserted(subs[id], state, asOf, plan, start, end)])
  {
  }

  /** While it is live, the row a provider's id leads to is the row its project leads to, so a state recorded by project
      lands on the subscription the provider meant. */
  lemma {:induction false} LinkedRowIsTheProjects(subs: Subs, link: (string, string))
    requires IndexesHold(subs)
    requires ByProvider(subs, link).Some? && !subs[ByProvider(subs, link).value].state.Canceled?
    ensures ForProject(subs, subs[ByProvider(subs, link).value].project) == ByProvider(subs, link)
  {
    var id := ByProvider(subs, link).value;
    assert LiveFor(subs[id], subs[id].project);
    var live := ForProject(subs, subs[id].project);
    assert live.Some?;
    assert LiveFor(subs[id], subs[live.value].project);
  }

  // ------------------------------------------------------------------- what a write is, in full

  /** `record_state` on the live row `s` of a project: which of the fourteen transitions it takes, and which of the later
      refusals it meets. */
  lemma {:induction false} RefusedExactly(catalogue: Catalogue, subs: Subs, s: SubId, state: SubState, asOf: Time,
                                          plan: Option<PlanCode>, start: Option<Time>, end: Option<Time>)
    requires IndexesHold(subs) && s in subs && subs[s].state != Canceled
    ensures var a := subs[s];
      var fault := RecordFault(catalogue, subs, a.project, state, asOf, plan, start, end);
      var allowed := (a.state, state) in {
        (Incomplete, Incomplete), (Incomplete, Trialing), (Incomplete, Active), (Incomplete, Canceled),
        (Trialing, Trialing), (Trialing, Active), (Trialing, PastDue), (Trialing, Canceled),
        (Active, Active), (Active, PastDue), (Active, Canceled),
        (PastDue, PastDue), (PastDue, Active), (PastDue, Canceled)};
      var start', end' := if start == None then a.start else start, if end == None then a.end else end;
      var ordered := start' == None || end' == None || start'.value < end'.value;
      var offered := plan == None || plan.value in catalogue.plans;
      fault == if !allowed then Some(ForbiddenTransition) else if asOf < a.asOf then Some(Stale)
               else if !offered then Some(NoActivePlan) else if !ordered then Some(PeriodOrder) else None
  {
    hide IndexesHold, Transitions, AssertFault;
    LiveRowIsFound(subs, s);
    TransitionsAre(subs[s].state, state);
    AssertFaultIs(catalogue, subs[s], state, asOf, plan, start, end);
  }

  /** The row it leaves: as it was if refused; else the clock of the state starts anew exactly when the state changes, and a
      plan or a period that is not asserted stays. */
  lemma {:induction false} RecordedExactly(catalogue: Catalogue, subs: Subs, s: SubId, state: SubState, asOf: Time,
                                           plan: Option<PlanCode>, start: Option<Time>, end: Option<Time>)
    requires IndexesHold(subs) && s in subs && subs[s].state != Canceled
    ensures var a := subs[s];
      AfterRecord(catalogue, subs, a.project, state, asOf, plan, start, end)
      == (if RecordFault(catalogue, subs, a.project, state, asOf, plan, start, end) != None then subs
          else subs[s := Sub(a.project, if plan == None then a.plan else plan.value, state, asOf,
                             if a.state == state then a.since else asOf, if start == None then a.start else start,
                             if end == None then a.end else end, a.link, a.checkout)])
  {
    hide IndexesHold, AssertFault;
    LiveRowIsFound(subs, s);
  }

  lemma {:induction false} AssertFaultIs(catalogue: Catalogue, a: Sub, state: SubState, asOf: Time,
                                         plan: Option<PlanCode>, start: Option<Time>, end: Option<Time>)
    ensures var fault := AssertFault(catalogue, a, state, asOf, plan, start, end);
      var allowed := state in Transitions(a.state);
      var start', end' := if start == None then a.start else start, if end == None then a.end else end;
      var ordered := start' == None || end' == None || start'.value < end'.value;
      var offered := plan == None || plan.value in catalogue.plans;
      fault == if !allowed then Some(ForbiddenTransition) else if asOf < a.asOf then Some(Stale)
               else if !offered then Some(NoActivePlan) else if !ordered then Some(PeriodOrder) else None
  {
    hide Transitions;
  }

  lemma {:induction false} LiveRowIsFound(subs: Subs, s: SubId)
    requires IndexesHold(subs) && s in subs && subs[s].state != Canceled
    ensures ForProject(subs, subs[s].project) == Some(s)
  {
    assert LiveFor(subs[s], subs[s].project);
    var live := ForProject(subs, subs[s].project);
    assert LiveFor(subs[live.value], subs[s].project);
  }

  lemma {:induction false} TransitionsAre(a: SubState, b: SubState)
    ensures b in Transitions(a) <==> (a, b) in {
      (Incomplete, Incomplete), (Incomplete, Trialing), (Incomplete, Active), (Incomplete, Canceled),
      (Trialing, Trialing), (Trialing, Active), (Trialing, PastDue), (Trialing, Canceled),
      (Active, Active), (Active, PastDue), (Active, Canceled),
      (PastDue, PastDue), (PastDue, Active), (PastDue, Canceled)}
  {
    match a
    case _ =>
  }

  /** A project without a live row has nothing to record on. */
  lemma {:induction false} NothingToRecordOn(catalogue: Catalogue, subs: Subs, project: ProjectId, state: SubState, asOf: Time,
                                             plan: Option<PlanCode>, start: Option<Time>, end: Option<Time>)
    requires forall s <- subs :: subs[s].project == project ==> subs[s].state == Canceled
    ensures RecordFault(catalogue, subs, project, state, asOf, plan, start, end) == Some(NoLiveSubscription)
    ensures AfterRecord(catalogue, subs, project, state, asOf, plan, start, end) == subs
  {
  }

  /** `create`: each refusal exactly when its own check fails and none before it did. */
  lemma {:induction false} CreatedExactly(catalogue: Catalogue, subs: Subs, sub: Sub)
    ensures var fault := CreateFault(catalogue, subs, sub);
      var live := exists s <- subs :: subs[s].project == sub.project && subs[s].state != Canceled;
      var linked := sub.link != None && exists s <- subs :: subs[s].link == sub.link;
      var used := sub.checkout != None && exists s <- subs :: subs[s].checkout == sub.checkout;
      var ordered := sub.start == None || sub.end == None || sub.start.value < sub.end.value;
      fault == if sub.state == Canceled then Some(CreatedCanceled)
               else if sub.project !in catalogue.projects then Some(NoProject)
               else if catalogue.projects[sub.project] == false then Some(BeingDeleted)
               else if sub.plan !in catalogue.plans then Some(NoActivePlan)
               else if live then Some(AlreadyLive) else if !ordered then Some(PeriodOrder)
               else if linked then Some(ProviderIdTaken) else if used then Some(CheckoutUsed) else None
  {
    hide ForProject, LiveFor;
    LiveIs(subs, sub.project);
  }

  lemma {:induction false} LiveIs(subs: Subs, project: ProjectId)
    ensures ForProject(subs, project).Some? <==> exists s <- subs :: subs[s].project == project && subs[s].state != Canceled
  {
    var live := ForProject(subs, project);
    assert live.Some? ==> LiveFor(subs[live.value], project);
    assert forall s <- subs :: LiveFor(subs[s], project) <==> subs[s].project == project && subs[s].state != Canceled;
  }
}
