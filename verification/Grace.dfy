/** The end of a grace period (`billing.end_expired_grace`): cancel at the provider first, then here, while others may write
    the same rows. */
module Grace {
  import opened Results
  import opened BillingTypes
  import opened Subscriptions

  /** A row of `in_expired_grace`, as the query found it. */
  datatype Due = Due(id: SubId, project: ProjectId, ref: string, link: Option<(string, string)>)

  datatype Answer = Cancelled | Missing | Unreachable

  /** The provider's client: what it will answer for each of its subscriptions. */
  type Client = string -> Answer

  datatype Ending = Ended | Deferred

  /** `recorded` is what the note tells: whether the state was recorded here. */
  datatype GraceOutcome = GraceOutcome(ref: string, ending: Ending, recorded: bool)

  const DAY: Time := 24 * 60 * 60 * 1_000_000

  predicate PastGrace(catalogue: Catalogue, sub: Sub, now: Time, graceDays: nat) {
    && sub.state.PastDue? && sub.since < now - graceDays * DAY
    && sub.project in catalogue.projects && catalogue.projects[sub.project]
  }

  /** `subscriptions.in_expired_grace`: every such row once. */
  ghost predicate DueRows(catalogue: Catalogue, subs: Subs, rows: seq<Due>, now: Time, graceDays: nat) {
    && (forall d <- rows :: d.id in subs && PastGrace(catalogue, subs[d.id], now, graceDays)
                            && d.project == subs[d.id].project && d.link == subs[d.id].link)
    && (forall i, j :: 0 <= i < j < |rows| ==> rows[i].id != rows[j].id)
    && (forall s <- subs :: PastGrace(catalogue, subs[s], now, graceDays) ==> exists d <- rows :: d.id == s)
  }

  predicate AtProvider(due: Due, provider: string) {
    due.link.Some? && due.link.value.1 != "" && due.link.value.0 == provider
  }

  /** Whether nothing is owed to the provider any more: it was asked and has cancelled, or it never had it. */
  predicate Settled(due: Due, provider: string, client: Option<Client>) {
    AtProvider(due, provider) ==> client.Some? && client.value(due.link.value.1) != Unreachable
  }

  /** The check constraint on the periods. */
  ghost predicate PeriodsHold(subs: Subs) {
    forall s <- subs :: PeriodOk(subs[s].start, subs[s].end)
  }

  /** What the calls of one pass share. */
  datatype Desk = Desk(catalogue: Catalogue, provider: string, client: Option<Client>)

  /** One row of a pass that nobody disturbs. */
  ghost function EndOne(desk: Desk, subs: Subs, due: Due, now: Time): Subs {
    if Settled(due, desk.provider, desk.client)
    then AfterRecord(desk.catalogue, subs, due.project, Canceled, now, None, None, None)
    else subs
  }

  /** What is reported of one row. */
  ghost function Report(desk: Desk, subs: Subs, due: Due, now: Time): GraceOutcome {
    if !Settled(due, desk.provider, desk.client) then GraceOutcome(due.ref, Deferred, false)
    else GraceOutcome(due.ref, Ended, RecordFault(desk.catalogue, subs, due.project, Canceled, now, None, None, None).None?)
  }

  ghost function Pass(desk: Desk, subs: Subs, rows: seq<Due>, nows: seq<Time>): Subs
    requires |nows| == |rows|
  {
    if rows == [] then subs
    else var n := |rows| - 1; EndOne(desk, Pass(desk, subs, rows[..n], nows[..n]), rows[n], nows[n])
  }

  ghost function Reports(desk: Desk, subs: Subs, rows: seq<Due>, nows: seq<Time>): seq<GraceOutcome>
    requires |nows| == |rows|
  {
    if rows == [] then []
    else
      var n := |rows| - 1;
      Reports(desk, subs, rows[..n], nows[..n]) + [Report(desk, Pass(desk, subs, rows[..n], nows[..n]), rows[n], nows[n])]
  }

  /** The body of the loop; `asked` is the subscription the provider was asked to cancel. */
  method EndRow(table: SubscriptionTable, provider: string, client: Option<Client>, due: Due, now: Time)
    returns (outcome: GraceOutcome, asked: seq<string>)
    requires IndexesHold(table.subs)
    modifies table
    ensures IndexesHold(table.subs)
    ensures table.subs == EndOne(Desk(table.catalogue, provider, client), old(table.subs), due, now)
    ensures outcome == Report(Desk(table.catalogue, provider, client), old(table.subs), due, now)
    ensures asked == if due.link != None && due.link.value.1 != "" && due.link.value.0 == provider && client != None
                     then [due.link.value.1] else []
  {
    hide IndexesHold, AfterRecord, RecordFault;
    asked := [];
    if AtProvider(due, provider) {
      if client.None? {
        return GraceOutcome(due.ref, Deferred, false), asked;
      }
      asked := [due.link.value.1];
      if client.value(due.link.value.1) == Unreachable {
        return GraceOutcome(due.ref, Deferred, false), asked;
      }
    }
    var fault := table.RecordState(due.project, Canceled, now, None, None, None);
    outcome := GraceOutcome(due.ref, Ended, fault.None?);
  }

  /** `end_expired_grace` over the rows of the query, with nobody else writing; `nows` is what the clock says at each row. */
  method EndExpiredGrace(table: SubscriptionTable, provider: string, client: Option<Client>, rows: seq<Due>, nows: seq<Time>)
    returns (out: seq<GraceOutcome>)
    requires IndexesHold(table.subs) && |nows| == |rows|
    modifies table
    ensures IndexesHold(table.subs)
    ensures table.subs == Pass(Desk(table.catalogue, provider, client), old(table.subs), rows, nows)
    ensures out == Reports(Desk(table.catalogue, provider, client), old(table.subs), rows, nows)
  {
    hide IndexesHold, EndOne, Report;
    out := [];
    for k := 0 to |rows|
      invariant IndexesHold(table.subs)
      invariant table.subs == Pass(Desk(table.catalogue, provider, client), old(table.subs), rows[..k], nows[..k])
      invariant out == Reports(Desk(table.catalogue, provider, client), old(table.subs), rows[..k], nows[..k])
    {
      assert rows[..k + 1][..k] == rows[..k] && nows[..k + 1][..k] == nows[..k];
      var outcome, _ := EndRow(table, provider, client, rows[k], nows[k]);
      out := out + [outcome];
    }
    assert rows[..|rows|] == rows && nows[..|nows|] == nows;
  }

  // ------------------------------------------------------------------- an undisturbed pass

  lemma {:induction false} LiveIsOne(subs: Subs, s: SubId, project: ProjectId)
    requires IndexesHold(subs) && s in subs && LiveFor(subs[s], project)
    ensures ForProject(subs, project) == Some(s)
  {
    var id := ForProject(subs, project);
    assert id.Some? && LiveFor(subs[id.value], subs[s].project);
  }

  /** Canceling a live row of sound periods is refused only as stale. */
  lemma {:induction false} CancelFault(catalogue: Catalogue, subs: Subs, project: ProjectId, now: Time)
    requires PeriodsHold(subs)
    ensures RecordFault(catalogue, subs, project, Canceled, now, None, None, None) ==
              var id := ForProject(subs, project);
              if id.None? then Some(NoLiveSubscription) else if subs[id.value].asOf > now then Some(Stale) else None
  {
  }

  lemma {:induction false} EndOneTouches(desk: Desk, subs: Subs, due: Due, now: Time, s: SubId)
    requires IndexesHold(subs) && PeriodsHold(subs) && s in subs
    ensures var after := EndOne(desk, subs, due, now);
      && IndexesHold(after) && PeriodsHold(after) && after.Keys == subs.Keys
      && after[s] == if LiveFor(subs[s], due.project) && Settled(due, desk.provider, desk.client) && subs[s].asOf <= now
                     then Asserted(subs[s], Canceled, now, None, None, None) else subs[s]
  {
    hide IndexesHold;
    CancelFault(desk.catalogue, subs, due.project, now);
    var id := ForProject(subs, due.project);
    if id.Some? {
      AssertKeepsIndexes(subs, id.value, Canceled, now, None, None, None);
    }
    if LiveFor(subs[s], due.project) {
      LiveIsOne(subs, s, due.project);
    }
  }

  /** Some due row, the `i`-th, is of this project, settled, and met with a clock no earlier than the row's last fact. */
  ghost predicate EndedAt(desk: Desk, sub: Sub, rows: seq<Due>, nows: seq<Time>, i: int) {
    && 0 <= i < |rows| == |nows|
    && LiveFor(sub, rows[i].project) && Settled(rows[i], desk.provider, desk.client) && sub.asOf <= nows[i]
  }

  ghost predicate DistinctProjects(rows: seq<Due>) {
    forall i, j :: 0 <= i < j < |rows| ==> rows[i].project != rows[j].project
  }

  ghost predicate NeverEnded(desk: Desk, sub: Sub, rows: seq<Due>, nows: seq<Time>) {
    forall i :: 0 <= i < |rows| ==> !EndedAt(desk, sub, rows, nows, i)
  }

  lemma {:induction false} PrefixEnded(desk: Desk, sub: Sub, rows: seq<Due>, nows: seq<Time>, n: nat, i: nat)
    requires i < n <= |rows| == |nows|
    ensures EndedAt(desk, sub, rows[..n], nows[..n], i) <==> EndedAt(desk, sub, rows, nows, i)
  {
  }

  lemma {:induction false} PassLeaves(desk: Desk, subs: Subs, rows: seq<Due>, nows: seq<Time>, s: SubId)
    requires IndexesHold(subs) && PeriodsHold(subs) && s in subs && |nows| == |rows|
    ensures var after := Pass(desk, subs, rows, nows); IndexesHold(after) && PeriodsHold(after) && after.Keys == subs.Keys
    ensures NeverEnded(desk, subs[s], rows, nows) ==> Pass(desk, subs, rows, nows)[s] == subs[s]
    decreases |rows|
  {
    if rows == [] {
    } else {
      hide IndexesHold, PeriodsHold, EndOne, EndedAt;
      var n := |rows| - 1;
      PassLeaves(desk, subs, rows[..n], nows[..n], s);
      EndOneTouches(desk, Pass(desk, subs, rows[..n], nows[..n]), rows[n], nows[n], s);
      if NeverEnded(desk, subs[s], rows, nows) {
        forall i | 0 <= i < n ensures !EndedAt(desk, subs[s], rows[..n], nows[..n], i) {
          PrefixEnded(desk, subs[s], rows, nows, n, i);
        }
        assert !EndedAt(desk, subs[s], rows, nows, n);
        NotEnded(desk, subs[s], rows, nows, n);
      }
    }
  }

  lemma {:induction false} NotEnded(desk: Desk, sub: Sub, rows: seq<Due>, nows: seq<Time>, i: nat)
    requires i < |rows| == |nows|
    ensures EndedAt(desk, sub, rows, nows, i) <==>
              LiveFor(sub, rows[i].project) && Settled(rows[i], desk.provider, desk.client) && sub.asOf <= nows[i]
  {
  }

  lemma {:induction false} PassEnds(desk: Desk, subs: Subs, rows: seq<Due>, nows: seq<Time>, s: SubId, i: nat)
    requires IndexesHold(subs) && PeriodsHold(subs) && s in subs && |nows| == |rows| && DistinctProjects(rows)
    requires i < |rows| && EndedAt(desk, subs[s], rows, nows, i)
    ensures s in Pass(desk, subs, rows, nows)
    ensures Pass(desk, subs, rows, nows)[s] == Asserted(subs[s], Canceled, nows[i], None, None, None)
    decreases |rows|
  {
    hide IndexesHold, PeriodsHold, EndOne, Settled, EndedAt;
    var n := |rows| - 1;
    PassLeaves(desk, subs, rows[..n], nows[..n], s);
    EndOneTouches(desk, Pass(desk, subs, rows[..n], nows[..n]), rows[n], nows[n], s);
    NotEnded(desk, subs[s], rows, nows, i);
    if i < n {
      PrefixEnded(desk, subs[s], rows, nows, n, i);
      PassEnds(desk, subs, rows[..n], nows[..n], s, i);
    } else {
      forall j | 0 <= j < n ensures !EndedAt(desk, subs[s], rows[..n], nows[..n], j) {
        NotEnded(desk, subs[s], rows[..n], nows[..n], j);
      }
    }
  }

  lemma {:induction false} DueProjectsDiffer(catalogue: Catalogue, subs: Subs, rows: seq<Due>, now: Time, graceDays: nat)
    requires IndexesHold(subs) && DueRows(catalogue, subs, rows, now, graceDays)
    ensures DistinctProjects(rows)
  {
    forall i, j | 0 <= i < j < |rows| ensures rows[i].project != rows[j].project {
      assert rows[i] in rows && rows[j] in rows;
      LiveIsOne(subs, rows[i].id, rows[i].project);
      LiveIsOne(subs, rows[j].id, rows[j].project);
    }
  }

  lemma {:induction false} PassTakes(desk: Desk, subs: Subs, rows: seq<Due>, nows: seq<Time>, began: Time, graceDays: nat, s: SubId)
    requires IndexesHold(subs) && PeriodsHold(subs) && s in subs && |nows| == |rows|
    requires DueRows(desk.catalogue, subs, rows, began, graceDays)
    ensures var after := Pass(desk, subs, rows, nows);
      && after.Keys == subs.Keys
      && (!PastGrace(desk.catalogue, subs[s], began, graceDays) ==> after[s] == subs[s])
      && (forall i :: 0 <= i < |rows| && rows[i].id == s ==>
            after[s] == if Settled(rows[i], desk.provider, desk.client) && subs[s].asOf <= nows[i]
                        then Asserted(subs[s], Canceled, nows[i], None, None, None) else subs[s])
  {
    hide IndexesHold, PeriodsHold, Pass, Settled, EndedAt, PastGrace;
    DueProjectsDiffer(desk.catalogue, subs, rows, began, graceDays);
    PassLeaves(desk, subs, rows, nows, s);
    forall j | 0 <= j < |rows| && rows[j].id != s ensures !EndedAt(desk, subs[s], rows, nows, j) {
      NotEnded(desk, subs[s], rows, nows, j);
      DueIsLive(desk.catalogue, subs, rows, began, graceDays, j, s);
    }
    forall i | 0 <= i < |rows| && rows[i].id == s
      ensures Pass(desk, subs, rows, nows)[s] ==
                if Settled(rows[i], desk.provider, desk.client) && subs[s].asOf <= nows[i]
                then Asserted(subs[s], Canceled, nows[i], None, None, None) else subs[s]
    {
      NotEnded(desk, subs[s], rows, nows, i);
      DueIsLive(desk.catalogue, subs, rows, began, graceDays, i, s);
      if EndedAt(desk, subs[s], rows, nows, i) {
        PassEnds(desk, subs, rows, nows, s, i);
      }
    }
    if !PastGrace(desk.catalogue, subs[s], began, graceDays) {
      assert forall j :: 0 <= j < |rows| ==> rows[j] in rows && rows[j].id != s;
    }
  }

  /** Exactly which rows an undisturbed pass ends: those the query selects, past due for longer than the grace and of a
      project that is not being deleted, whose provider has cancelled, does not have or never had them, and that carry no
      fact later than the clock. A row whose provider cannot be reached, and every other row, is left as it was. */
  lemma {:induction false} PassIsExact(desk: Desk, subs: Subs, rows: seq<Due>, nows: seq<Time>, began: Time, graceDays: nat, s: SubId)
    requires IndexesHold(subs) && PeriodsHold(subs) && s in subs && |nows| == |rows|
    requires DueRows(desk.catalogue, subs, rows, began, graceDays)
    ensures var after, a := Pass(desk, subs, rows, nows), subs[s];
      var due := a.state == PastDue && a.since + graceDays * (24 * 60 * 60 * 1_000_000) < began
                 && a.project in desk.catalogue.projects && desk.catalogue.projects[a.project] != false;
      var settled := a.link == None || a.link.value.1 == "" || a.link.value.0 != desk.provider
                     || (desk.client != None && desk.client.value(a.link.value.1) != Unreachable);
      && after.Keys == subs.Keys
      && (due <==> exists i :: 0 <= i < |rows| && rows[i].id == s)
      && (!due ==> after[s] == a)
      && (forall i :: 0 <= i < |rows| && rows[i].id == s ==>
            after[s] == if settled && a.asOf <= nows[i]
                        then Sub(a.project, a.plan, Canceled, nows[i], nows[i], a.start, a.end, a.link, a.checkout) else a)
  {
    hide IndexesHold, PeriodsHold, Pass, Settled, PastGrace, DueRows;
    PassTakes(desk, subs, rows, nows, began, graceDays, s);
    PastGraceIs(desk.catalogue, subs[s], began, graceDays);
    SelectedIff(desk.catalogue, subs, rows, began, graceDays, s);
    if i :| 0 <= i < |rows| && rows[i].id == s {
      SettledIs(rows[i], desk);
      DueIsThere(desk.catalogue, subs, rows, began, graceDays, i);
      OneRowEach(desk.catalogue, subs, rows, began, graceDays, i);
    }
  }

  lemma {:induction false} SelectedIff(catalogue: Catalogue, subs: Subs, rows: seq<Due>, now: Time, graceDays: nat, s: SubId)
    requires DueRows(catalogue, subs, rows, now, graceDays) && s in subs
    ensures PastGrace(catalogue, subs[s], now, graceDays) <==> exists i :: 0 <= i < |rows| && rows[i].id == s
    ensures PastGrace(catalogue, subs[s], now, graceDays) ==> subs[s].state == PastDue
  {
    hide PastGrace;
    if i :| 0 <= i < |rows| && rows[i].id == s {
      assert rows[i] in rows;
    }
    if PastGrace(catalogue, subs[s], now, graceDays) {
      PastGraceIs(catalogue, subs[s], now, graceDays);
    }
  }

  lemma {:induction false} OneRowEach(catalogue: Catalogue, subs: Subs, rows: seq<Due>, now: Time, graceDays: nat, i: nat)
    requires DueRows(catalogue, subs, rows, now, graceDays) && i < |rows|
    ensures forall j :: 0 <= j < |rows| && rows[j].id == rows[i].id ==> j == i
  {
  }

  lemma {:induction false} PastGraceIs(catalogue: Catalogue, a: Sub, began: Time, graceDays: nat)
    ensures PastGrace(catalogue, a, began, graceDays) <==>
      && a.state == PastDue && a.since + graceDays * (24 * 60 * 60 * 1_000_000) < began
      && a.project in catalogue.projects && catalogue.projects[a.project] != false
  {
  }

  lemma {:induction false} SettledIs(due: Due, desk: Desk)
    ensures Settled(due, desk.provider, desk.client) <==>
      || due.link == None || due.link.value.1 == "" || due.link.value.0 != desk.provider
      || (desk.client != None && desk.client.value(due.link.value.1) != Unreachable)
  {
  }

  /** And what is reported of each: deferred exactly if the provider still has it and could not be reached; else ended, and
      whether it was recorded. */
  lemma {:induction false} PassReports(desk: Desk, subs: Subs, rows: seq<Due>, nows: seq<Time>, began: Time, graceDays: nat, i: nat)
    requires IndexesHold(subs) && PeriodsHold(subs) && |nows| == |rows| && i < |rows|
    requires DueRows(desk.catalogue, subs, rows, began, graceDays)
    ensures |Reports(desk, subs, rows, nows)| == |rows| && rows[i].id in subs
    ensures var a, r := subs[rows[i].id], Reports(desk, subs, rows, nows)[i];
      var settled := a.link == None || a.link.value.1 == "" || a.link.value.0 != desk.provider
                     || (desk.client != None && desk.client.value(a.link.value.1) != Unreachable);
      r == GraceOutcome(rows[i].ref, if settled then Ended else Deferred, settled && a.asOf <= nows[i])
  {
    hide IndexesHold, PeriodsHold, Pass, Settled, PastGrace, EndedAt, DueRows, DistinctProjects;
    DueProjectsDiffer(desk.catalogue, subs, rows, began, graceDays);
    DueIsThere(desk.catalogue, subs, rows, began, graceDays, i);
    SettledIs(rows[i], desk);
    ReportsAt(desk, subs, rows, nows, i);
    BeforeItsTurn(desk, subs, rows, nows, i);
    DueIsLive(desk.catalogue, subs, rows, began, graceDays, i, rows[i].id);
    var before := Pass(desk, subs, rows[..i], nows[..i]);
    assert LiveFor(before[rows[i].id], rows[i].project);
    LiveIsOne(before, rows[i].id, rows[i].project);
    CancelFault(desk.catalogue, before, rows[i].project, nows[i]);
  }

  lemma {:induction false} DueIsThere(catalogue: Catalogue, subs: Subs, rows: seq<Due>, now: Time, graceDays: nat, i: nat)
    requires DueRows(catalogue, subs, rows, now, graceDays) && i < |rows|
    ensures rows[i].id in subs && rows[i].link == subs[rows[i].id].link && LiveFor(subs[rows[i].id], rows[i].project)
  {
    assert rows[i] in rows;
  }

  lemma {:induction false} ReportsAt(desk: Desk, subs: Subs, rows: seq<Due>, nows: seq<Time>, i: nat)
    requires |nows| == |rows| && i < |rows|
    ensures |Reports(desk, subs, rows, nows)| == |rows|
    ensures Reports(desk, subs, rows, nows)[i] == Report(desk, Pass(desk, subs, rows[..i], nows[..i]), rows[i], nows[i])
    decreases |rows|
  {
    hide Report, Pass;
    var n := |rows| - 1;
    if i < n {
      ReportsAt(desk, subs, rows[..n], nows[..n], i);
      assert rows[..n][..i] == rows[..i] && nows[..n][..i] == nows[..i];
    } else if n > 0 {
      ReportsAt(desk, subs, rows[..n], nows[..n], n - 1);
    }
  }

  /** Until its turn comes a due row is as the query found it. */
  lemma {:induction false} BeforeItsTurn(desk: Desk, subs: Subs, rows: seq<Due>, nows: seq<Time>, i: nat)
    requires IndexesHold(subs) && PeriodsHold(subs) && |nows| == |rows| && i < |rows| && DistinctProjects(rows)
    requires rows[i].id in subs && LiveFor(subs[rows[i].id], rows[i].project)
    ensures var before := Pass(desk, subs, rows[..i], nows[..i]);
      IndexesHold(before) && PeriodsHold(before) && rows[i].id in before && before[rows[i].id] == subs[rows[i].id]
  {
    hide IndexesHold, PeriodsHold, Pass, Settled, EndedAt;
    PassLeaves(desk, subs, rows[..i], nows[..i], rows[i].id);
    forall j | 0 <= j < i ensures !EndedAt(desk, subs[rows[i].id], rows[..i], nows[..i], j) {
      NotEnded(desk, subs[rows[i].id], rows[..i], nows[..i], j);
    }
  }

  /** The selected row is the live one of its project. */
  lemma {:induction false} DueIsLive(catalogue: Catalogue, subs: Subs, rows: seq<Due>, now: Time, graceDays: nat, i: nat, s: SubId)
    requires IndexesHold(subs) && DueRows(catalogue, subs, rows, now, graceDays) && i < |rows| && s in subs
    ensures LiveFor(subs[s], rows[i].project) <==> s == rows[i].id
  {
    hide IndexesHold;
    assert rows[i] in rows;
    LiveIsOne(subs, rows[i].id, rows[i].project);
    if LiveFor(subs[s], rows[i].project) {
      LiveIsOne(subs, s, rows[i].project);
    }
  }

  // ------------------------------------------------------------------- a pass among others

  /** Where the pass is with its current row: about to ask the provider, about to read the project's live row, or about to
      write the row it has read. */
  datatype Phase = Asking | Reading | Writing(target: SubId, plan: PlanCode, moment: Time)

  datatype PassState = PassState(subs: Subs, k: nat, phase: Phase, out: seq<GraceOutcome>)

  /** The steps of the pass, and the transactions of everybody else. */
  datatype Step = Others(after: Subs) | Ask | Read(now: Time) | Write

  function Said(p: PassState, due: Due, ending: Ending, recorded: bool): PassState {
    p.(k := p.k + 1, phase := Asking, out := p.out + [GraceOutcome(due.ref, ending, recorded)])
  }

  ghost function Do(desk: Desk, rows: seq<Due>, p: PassState, step: Step): PassState {
    if step.Others? then p.(subs := step.after)
    else if p.k >= |rows| then p
    else
      match (step, p.phase)
      case (Ask, Asking) =>
        if Settled(rows[p.k], desk.provider, desk.client) then p.(phase := Reading) else Said(p, rows[p.k], Deferred, false)
      case (Read(now), Reading) =>
        var id := ForProject(p.subs, rows[p.k].project);
        if RecordFault(desk.catalogue, p.subs, rows[p.k].project, Canceled, now, None, None, None).Some?
        then Said(p, rows[p.k], Ended, false)
        else p.(phase := Writing(id.value, p.subs[id.value].plan, now))
      case (Write, Writing(target, plan, moment)) =>
        if target in p.subs && p.subs[target].asOf <= moment
        then Said(p.(subs := p.subs[target := Asserted(p.subs[target], Canceled, moment, Some(plan), None, None)]),
                  rows[p.k], Ended, true)
        else Said(p, rows[p.k], Ended, false)
      case _ => p
  }

  ghost function Run(desk: Desk, rows: seq<Due>, p: PassState, steps: seq<Step>): PassState {
    if steps == [] then p
    else Do(desk, rows, Run(desk, rows, p, steps[..|steps| - 1]), steps[|steps| - 1])
  }

  /** Nobody else breaks a constraint, deletes a row or moves one to another project. */
  ghost predicate Lawful(p: PassState, step: Step) {
    step.Others? ==>
      && IndexesHold(step.after) && PeriodsHold(step.after)
      && forall s <- p.subs :: s in step.after && step.after[s].project == p.subs[s].project && step.after[s].link == p.subs[s].link
  }

  ghost predicate AllLawful(desk: Desk, rows: seq<Due>, p: PassState, steps: seq<Step>) {
    forall i :: 0 <= i < |steps| ==> Lawful(Run(desk, rows, p, steps[..i]), steps[i])
  }

  ghost predicate RowsKnown(subs: Subs, rows: seq<Due>) {
    forall d <- rows :: d.id in subs && subs[d.id].project == d.project && subs[d.id].link == d.link
  }

  ghost predicate Inv(desk: Desk, rows: seq<Due>, p: PassState) {
    && IndexesHold(p.subs) && PeriodsHold(p.subs) && RowsKnown(p.subs, rows)
    && (!p.phase.Asking? ==> p.k < |rows| && Settled(rows[p.k], desk.provider, desk.client))
    && (p.phase.Writing? ==> p.phase.target in p.subs && p.subs[p.phase.target].project == rows[p.k].project)
  }

  lemma {:induction false} RunNext(desk: Desk, rows: seq<Due>, p: PassState, steps: seq<Step>, step: Step)
    ensures Run(desk, rows, p, steps + [step]) == Do(desk, rows, Run(desk, rows, p, steps), step)
    ensures Run(desk, rows, p, []) == p
  {
    hide Do;
    assert (steps + [step])[..|steps|] == steps;
  }

  /** Whatever others leave, the pass finds, and nothing they do moves it on. */
  lemma {:induction false} OthersAreFound(desk: Desk, rows: seq<Due>, p: PassState, steps: seq<Step>, after: Subs)
    ensures Run(desk, rows, p, steps + [Others(after)]) == Run(desk, rows, p, steps).(subs := after)
  {
    hide Run;
    RunNext(desk, rows, p, steps, Others(after));
  }

  lemma {:induction false} WritingKeeps(subs: Subs, target: SubId, moment: Time, plan: PlanCode)
    requires IndexesHold(subs) && PeriodsHold(subs) && target in subs
    ensures var after := subs[target := Asserted(subs[target], Canceled, moment, Some(plan), None, None)];
      IndexesHold(after) && PeriodsHold(after)
  {
  }

  lemma {:induction false} StepKeeps(desk: Desk, rows: seq<Due>, p: PassState, step: Step)
    requires Inv(desk, rows, p) && Lawful(p, step)
    ensures Inv(desk, rows, Do(desk, rows, p, step))
  {
    hide IndexesHold, PeriodsHold, Settled, RecordFault;
    if p.phase.Writing? && p.phase.target in p.subs {
      WritingKeeps(p.subs, p.phase.target, p.phase.moment, p.phase.plan);
    }
    if p.phase.Reading? && step.Read? {
      ReadFault(desk, p.subs, rows[p.k].project, step.now);
    }
  }

  lemma {:induction false} ReadFault(desk: Desk, subs: Subs, project: ProjectId, now: Time)
    ensures RecordFault(desk.catalogue, subs, project, Canceled, now, None, None, None).None? ==> ForProject(subs, project).Some?
  {
  }

  lemma {:induction false} PrefixLawful(desk: Desk, rows: seq<Due>, p: PassState, steps: seq<Step>, n: nat)
    requires AllLawful(desk, rows, p, steps) && n < |steps|
    ensures AllLawful(desk, rows, p, steps[..n]) && Lawful(Run(desk, rows, p, steps[..n]), steps[n])
  {
    hide Run, Lawful;
    forall i | 0 <= i < n ensures Lawful(Run(desk, rows, p, steps[..n][..i]), steps[..n][i]) {
      assert steps[..n][..i] == steps[..i];
    }
  }

  lemma {:induction false} RunKeeps(desk: Desk, rows: seq<Due>, p: PassState, steps: seq<Step>)
    requires Inv(desk, rows, p) && AllLawful(desk, rows, p, steps)
    ensures Inv(desk, rows, Run(desk, rows, p, steps))
    decreases |steps|
  {
    if steps == [] {
    } else {
      hide Inv, Do, Lawful, AllLawful;
      var n := |steps| - 1;
      PrefixLawful(desk, rows, p, steps, n);
      RunKeeps(desk, rows, p, steps[..n]);
      StepKeeps(desk, rows, Run(desk, rows, p, steps[..n]), steps[n]);
    }
  }

  /** Through any interleaving with others, a step of the pass itself changes at most one row, only to canceled, and only a
      row of the project of its current due row, whose provider has been settled with. */
  lemma {:induction false} OnlySettledProjects(desk: Desk, rows: seq<Due>, p: PassState, steps: seq<Step>, step: Step, s: SubId)
    requires Inv(desk, rows, p) && AllLawful(desk, rows, p, steps) && !step.Others?
    requires var mid := Run(desk, rows, p, steps); s in mid.subs
    ensures var mid, end := Run(desk, rows, p, steps), Do(desk, rows, Run(desk, rows, p, steps), step);
      && s in end.subs
      && (end.subs[s] != mid.subs[s] ==>
            && end.subs[s].state.Canceled?
            && mid.k < |rows| && mid.phase.Writing? && mid.phase.target == s && step == Write
            && mid.subs[s].project == rows[mid.k].project && Settled(rows[mid.k], desk.provider, desk.client))
  {
    hide Run, IndexesHold, PeriodsHold, Settled, RecordFault;
    RunKeeps(desk, rows, p, steps);
  }

  /** Which row the pass is about to end, whatever others have done since the query: the project's live row of that moment,
      if it carries no later fact. It is the selected row exactly when that one is still live, and another row of the project
      exactly when the selected one has been ended and a new one opened meanwhile. */
  lemma {:induction false} TargetIs(desk: Desk, rows: seq<Due>, p: PassState, now: Time, t: SubId)
    requires Inv(desk, rows, p) && p.phase.Reading? && t in p.subs
    ensures var due, after := rows[p.k], Do(desk, rows, p, Read(now));
      && due.id in p.subs
      && (after.phase.Writing? && after.phase.target == t <==> LiveFor(p.subs[t], due.project) && p.subs[t].asOf <= now)
      && (after.phase.Writing? ==> (after.phase.target == due.id <==> !p.subs[due.id].state.Canceled?))
  {
    hide IndexesHold;
    var due := rows[p.k];
    assert due in rows;
    CancelFault(desk.catalogue, p.subs, due.project, now);
    if LiveFor(p.subs[t], due.project) {
      LiveIsOne(p.subs, t, due.project);
    }
    if LiveFor(p.subs[due.id], due.project) {
      LiveIsOne(p.subs, due.id, due.project);
    }
  }

  /** So a customer whose subscription ended and who bought again while the pass asked the provider loses the new row here,
      although the provider was never asked to cancel it. */
  lemma {:induction false} NewRowMayBeEnded(desk: Desk, rows: seq<Due>, p: PassState, now: Time, t: SubId)
    requires Inv(desk, rows, p) && p.phase.Reading? && t in p.subs
    requires LiveFor(p.subs[t], rows[p.k].project) && t != rows[p.k].id && p.subs[t].asOf <= now
    ensures var end := Do(desk, rows, Do(desk, rows, p, Read(now)), Write);
      && t in end.subs && end.subs[t].state.Canceled?
      && (end.subs[t].link.Some? ==> end.subs[t].link != rows[p.k].link)
      && end.out == p.out + [GraceOutcome(rows[p.k].ref, Ended, true)]
  {
    hide IndexesHold, RecordFault;
    TargetIs(desk, rows, p, now, t);
    LinksDiffer(p.subs, t, rows[p.k].id);
    assert rows[p.k] in rows;
  }

  lemma {:induction false} LinksDiffer(subs: Subs, a: SubId, b: SubId)
    requires IndexesHold(subs) && a in subs && b in subs && a != b
    ensures subs[a].link.Some? ==> subs[a].link != subs[b].link
  {
  }

  /** A row is reported `ended` without having been recorded exactly when, as the pass reads, the project has no live row or
      one with a later fact, or, as it writes, the row read has come by a later fact. */
  lemma {:induction false} EndedButNotRecorded(desk: Desk, rows: seq<Due>, p: PassState, step: Step)
    requires Inv(desk, rows, p) && p.k < |rows| && !step.Others?
    ensures var due, after := rows[p.k], Do(desk, rows, p, step);
      after.out == p.out + [GraceOutcome(due.ref, Ended, false)] <==>
        || (step.Read? && p.phase.Reading? && forall s <- p.subs :: LiveFor(p.subs[s], due.project) ==> p.subs[s].asOf > step.now)
        || (step.Write? && p.phase.Writing? && p.subs[p.phase.target].asOf > p.phase.moment)
  {
    hide IndexesHold, RecordFault;
    var due := rows[p.k];
    assert forall x: GraceOutcome :: |p.out + [x]| == |p.out| + 1;
    assert forall x: GraceOutcome :: (p.out + [x])[|p.out|] == x;
    if step.Read? {
      CancelFault(desk.catalogue, p.subs, due.project, step.now);
      forall s | s in p.subs && LiveFor(p.subs[s], due.project) ensures ForProject(p.subs, due.project) == Some(s) {
        LiveIsOne(p.subs, s, due.project);
      }
    }
  }

  /** Undisturbed, the three steps of a row are the body of the loop. */
  lemma {:induction false} RowAlone(desk: Desk, rows: seq<Due>, p: PassState, now: Time)
    requires Inv(desk, rows, p) && p.k < |rows| && p.phase.Asking?
    ensures var end := Do(desk, rows, Do(desk, rows, Do(desk, rows, p, Ask), Read(now)), Write);
      && end.subs == EndOne(desk, p.subs, rows[p.k], now)
      && end.out == p.out + [Report(desk, p.subs, rows[p.k], now)]
      && end.k == p.k + 1 && end.phase.Asking?
  {
    hide IndexesHold, PeriodsHold, Settled, PeriodOk;
    var id := ForProject(p.subs, rows[p.k].project);
    if id.Some? {
      var sub := p.subs[id.value];
      assert Asserted(sub, Canceled, now, Some(sub.plan), None, None) == Asserted(sub, Canceled, now, None, None, None);
    }
  }
}
