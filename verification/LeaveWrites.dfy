/** Writes that reach the leave ledger past its guards: an edit or a cancellation that read the request before it was
    reviewed, and the deletion of a company. */
module LeaveWrites {
  import opened Options
  import opened Calendar
  import opened LeaveLedger
  import opened LeaveRuns

  // ---------- an edit or a cancellation that read the request earlier ----------

  /** Saves the row over what stands there. */
  function Overwrite(l: Ledger, id: nat, row: Leave): Ledger {
    l.(leaves := l.leaves[id := row])
  }

  /** The request is charged to the balance as it stands. */
  predicate IsCharged(x: Leave) {
    x.status.Approved? && (x.kind.Vacation? || x.kind.DayOff?)
  }

  /** Saving a row that is not approved keeps the ledger exactly when the request is not charged as it stands. */
  lemma OverwriteKeepsLedger(l: Ledger, id: nat, row: Leave)
    requires LedgerInv(l) && id in l.leaves && !row.status.Approved? && row.start <= row.end
    ensures LedgerInv(Overwrite(l, id, row)) <==> !IsCharged(l.leaves[id])
  {
    var (x, after) := (l.leaves[id], Overwrite(l, id, row));
    forall user: nat, year: int
      ensures DaysBelow(after.leaves, user, year, l.nextId)
           == DaysBelow(l.leaves, user, year, l.nextId) - Days(x, user, year)
    {
      ChangeOneLeave(l.leaves, id, row, user, year, l.nextId);
    }
    if IsCharged(x) {
      YearMeaning(x.start, Year(x.start));
      assert UsedDays(after, x.user, Year(x.start)) == UsedDays(l, x.user, Year(x.start));
      assert Days(x, x.user, Year(x.start)) > 0;
    } else {
      forall user: nat, year: int
        ensures UsedDays(after, user, year) == DaysBelow(after.leaves, user, year, after.nextId)
      {
        assert UsedDays(after, user, year) == UsedDays(l, user, year);
      }
    }
  }

  /** A cancellation saves the status alone. Read while the request was pending and saved after other requests ran, it
      keeps the ledger exactly when the request has not become charged in between. */
  lemma StaleCancelKeepsLedger(atRead: Ledger, between: seq<Event>, id: nat)
    requires LedgerInv(atRead) && id in atRead.leaves && atRead.leaves[id].status.Pending?
    requires id in Run(atRead, between).leaves
    ensures var l := Run(atRead, between);
      LedgerInv(Overwrite(l, id, l.leaves[id].(status := Cancelled))) <==> !IsCharged(l.leaves[id])
  {
    RunKeeps(atRead, between);
    var l := Run(atRead, between);
    OverwriteKeepsLedger(l, id, l.leaves[id].(status := Cancelled));
  }

  /** An edit saves the whole row as it was read, with the new values. */
  lemma StaleEditKeepsLedger(atRead: Ledger, between: seq<Event>, id: nat, kind: Kind, start: int, end: int,
                             reviewer: Option<nat>)
    requires LedgerInv(atRead) && id in atRead.leaves && atRead.leaves[id].status.Pending? && start <= end
    requires id in Run(atRead, between).leaves
    ensures var l := Run(atRead, between);
      var row := atRead.leaves[id].(kind := kind, start := start, end := end, reviewer := reviewer);
      LedgerInv(Overwrite(l, id, row)) <==> !IsCharged(l.leaves[id])
  {
    RunKeeps(atRead, between);
    OverwriteKeepsLedger(Run(atRead, between), id,
                         atRead.leaves[id].(kind := kind, start := start, end := end, reviewer := reviewer));
  }

  /** The two meet whenever the request is approved in between: then the days stay charged for a request that is
      cancelled or pending. */
  lemma ApprovalThenStaleCancel(l: Ledger, admin: nat, id: nat)
    requires LedgerInv(l) && id in l.leaves && l.leaves[id].status.Pending? && Charged(l.leaves[id].kind)
    requires Review(l, admin, id, true).1.None?
    ensures var approved := Run(l, [ReviewEvent(admin, id, true)]);
      id in approved.leaves
      && !LedgerInv(Overwrite(approved, id, approved.leaves[id].(status := Cancelled)))
  {
    var e := ReviewEvent(admin, id, true);
    assert [e][1..] == [];
    assert Run(Next(l, e), []) == Next(l, e);
    assert Run(l, [e]) == Next(l, e);
    StaleCancelKeepsLedger(l, [e], id);
  }

  // ---------- deleting a company ----------

  /** The requests of the company and its settings go with it. The database refuses while an admin or employee
      belongs to it, because their company would become empty. */
  function DeleteCompany(l: Ledger, company: nat): Ledger {
    if !CanDelete(l, company) then l
    else
      l.(members := map u | u in l.members ::
           if l.members[u].company == Some(company) then l.members[u].(company := None) else l.members[u],
         allowances := l.allowances - {company},
         leaves := map id | id in l.leaves && l.leaves[id].company != company :: l.leaves[id])
  }

  predicate CanDelete(l: Ledger, company: nat) {
    !exists u :: u in l.members && l.members[u].company == Some(company)
              && (l.members[u].role.CompanyAdmin? || l.members[u].role.Employee?)
  }

  /** Taking rows away lowers no sum below what the rest adds up to. */
  lemma {:induction false} FewerRows(before: map<nat, Leave>, after: map<nat, Leave>, user: nat, year: int, n: nat)
    requires forall id :: id in after ==> id in before && after[id] == before[id]
    requires forall id :: id in before ==> before[id].start <= before[id].end
    ensures DaysBelow(after, user, year, n) <= DaysBelow(before, user, year, n)
    ensures (forall id :: id in before && id !in after ==> Days(before[id], user, year) == 0)
      ==> DaysBelow(after, user, year, n) == DaysBelow(before, user, year, n)
  {
    if n == 0 {
    } else {
      FewerRows(before, after, user, year, n - 1);
    }
  }

  lemma {:induction false} OneRowFewer(before: map<nat, Leave>, after: map<nat, Leave>, id: nat, user: nat, year: int,
                                       n: nat)
    requires forall k :: k in after ==> k in before && after[k] == before[k]
    requires forall k :: k in before ==> before[k].start <= before[k].end
    requires id < n && id in before && id !in after
    ensures DaysBelow(after, user, year, n) <= DaysBelow(before, user, year, n) - Days(before[id], user, year)
  {
    if n == id + 1 {
      FewerRows(before, after, user, year, id);
    } else {
      OneRowFewer(before, after, id, user, year, n - 1);
    }
  }

  /** Deleting a company keeps the ledger exactly when none of its requests is charged: the balances stay. */
  lemma CompanyDeletionKeepsLedger(l: Ledger, company: nat)
    requires LedgerInv(l) && CanDelete(l, company)
    ensures LedgerInv(DeleteCompany(l, company))
       <==> forall id :: id in l.leaves && l.leaves[id].company == company ==> !IsCharged(l.leaves[id])
  {
    var after := DeleteCompany(l, company);
    if id :| id in l.leaves && l.leaves[id].company == company && IsCharged(l.leaves[id]) {
      var (user, year) := (l.leaves[id].user, Year(l.leaves[id].start));
      YearMeaning(l.leaves[id].start, year);
      OneRowFewer(l.leaves, after.leaves, id, user, year, l.nextId);
      assert UsedDays(after, user, year) == UsedDays(l, user, year);
      assert UsedDays(after, user, year) != DaysBelow(after.leaves, user, year, after.nextId);
    } else {
      forall user: nat, year: int
        ensures UsedDays(after, user, year) == DaysBelow(after.leaves, user, year, after.nextId)
      {
        FewerRows(l.leaves, after.leaves, user, year, l.nextId);
        assert UsedDays(after, user, year) == UsedDays(l, user, year);
      }
    }
  }

  /** Such a company can be reached: a day off is approved and both members leave. */
  lemma ChargedCompanyIsReachable(day: int)
    ensures var members := map[0 := Member(Some(7), CompanyAdmin, true), 1 := Member(Some(7), Employee, true)];
      var l := Run(Ledger(members, map[], map[], map[], 0),
                   [SubmitEvent(1, DayOff, day, day, None, day), ReviewEvent(0, 0, true),
                    MemberEvent(Removal(1)), MemberEvent(Removal(0))]);
      LedgerInv(l) && CanDelete(l, 7) && !LedgerInv(DeleteCompany(l, 7))
  {
    var members := map[0 := Member(Some(7), CompanyAdmin, true), 1 := Member(Some(7), Employee, true)];
    var l0 := Ledger(members, map[], map[], map[], 0);
    var (a, b) := (SubmitEvent(1, DayOff, day, day, None, day), ReviewEvent(0, 0, true));
    var (c, d) := (MemberEvent(Removal(1)), MemberEvent(Removal(0)));
    var l1 := Next(l0, a);
    assert l1.leaves == map[0 := Leave(1, 7, DayOff, Pending, day, day, None, None)];
    ApprovedThenLeft(l1);
    FourSteps(l0, a, b, c, d);
    EmptyLedgerIsSound(members, map[]);
    RunKeeps(l0, [a, b, c, d]);
    CompanyDeletionKeepsLedger(Next(Next(Next(l1, b), c), d), 7);
  }

  lemma ApprovedThenLeft(l: Ledger)
    requires l.members == map[0 := Member(Some(7), CompanyAdmin, true), 1 := Member(Some(7), Employee, true)]
    requires 0 in l.leaves && l.leaves.Keys == {0} && l.leaves[0].user == 1 && l.leaves[0].company == 7
    requires l.leaves[0].kind.DayOff? && l.leaves[0].status.Pending? && l.leaves[0].reviewer.None?
    requires l.leaves[0].start == l.leaves[0].end && l.balances == map[] && l.allowances == map[]
    ensures var after := Next(Next(Next(l, ReviewEvent(0, 0, true)), MemberEvent(Removal(1))), MemberEvent(Removal(0)));
      0 in after.leaves && IsCharged(after.leaves[0]) && after.leaves[0].company == 7 && CanDelete(after, 7)
  {
    var l2 := Next(l, ReviewEvent(0, 0, true));
    assert CheckReview(l, 0, 0, true).None?;
    assert l2.leaves[0] == l.leaves[0].(status := Approved, reviewedBy := Some(0)) && l2.members == l.members;
    var l3 := Next(l2, MemberEvent(Removal(1)));
    assert l3.leaves[0] == l2.leaves[0] && l3.members == l.members[1 := Member(None, Guest, false)];
    var l4 := Next(l3, MemberEvent(Removal(0)));
    assert l4.leaves[0] == l3.leaves[0];
  }

  lemma EmptyLedgerIsSound(members: map<nat, Member>, allowances: map<nat, nat>)
    ensures LedgerInv(Ledger(members, allowances, map[], map[], 0))
  {
    forall user: nat, year: int
      ensures DaysBelow(map[], user, year, 0) == 0
    {
      NoDaysYet(user, year, 0);
    }
  }

  lemma FourSteps(l: Ledger, a: Event, b: Event, c: Event, d: Event)
    ensures Run(l, [a, b, c, d]) == Next(Next(Next(Next(l, a), b), c), d)
  {
    assert [a, b, c, d][1..] == [b, c, d] && [b, c, d][1..] == [c, d] && [c, d][1..] == [d] && [d][1..] == [];
    assert Run(Next(l, a), [b, c, d]) == Run(Next(Next(l, a), b), [c, d]);
    assert Run(Next(Next(l, a), b), [c, d]) == Run(Next(Next(Next(l, a), b), c), [d]);
    assert Run(Next(Next(Next(Next(l, a), b), c), d), []) == Next(Next(Next(Next(l, a), b), c), d);
  }
}
