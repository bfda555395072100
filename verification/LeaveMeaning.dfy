/** When each leave request goes through and what it does, said of members, dates and balances themselves. */
module LeaveMeaning {
  import opened Options
  import opened Calendar
  import opened LeaveLedger

  // ---------- vocabulary ----------

  /** An active admin of the company. */
  predicate Reviews(m: Member, company: Option<nat>) {
    m.isActive && m.role == CompanyAdmin && m.company == company
  }

  /** The user has so many days left for the year: of the balance or, before there is one, of the company's allowance,
      or else of 24. */
  predicate Affords(l: Ledger, user: nat, year: int, days: int) {
    days <= 0 ||
    if (user, year) in l.balances then l.balances[(user, year)].used + days <= l.balances[(user, year)].total
    else if user in l.members && l.members[user].company.Some? && l.members[user].company.value in l.allowances
    then days <= l.allowances[l.members[user].company.value]
    else days <= 24
  }

  /** An approved leave of the user shares a day with the two dates and what lies between. */
  predicate AwayBetween(l: Ledger, user: nat, start: int, end: int, except: Option<nat>) {
    exists k :: k in l.leaves && except != Some(k) && l.leaves[k].user == user && l.leaves[k].status == Approved
             && l.leaves[k].start <= end && start <= l.leaves[k].end
  }

  predicate Starts(year: int, date: int) {
    FirstDay(year) <= date < FirstDay(year + 1)
  }

  lemma AffordingMeaning(l: Ledger, user: nat, year: int, date: int, days: int)
    requires Starts(year, date)
    ensures days > Remaining(BalanceOf(l, user, Year(date))) <==> !Affords(l, user, year, days)
  {
    YearMeaning(date, year);
  }

  lemma AwayMeaning(l: Ledger, user: nat, start: int, end: int, except: Option<nat>)
    ensures ApprovedOverlap(l, user, start, end, except) <==> AwayBetween(l, user, start, end, except)
  {
    if k :| k in l.leaves && except != Some(k) && l.leaves[k].user == user && l.leaves[k].status == Approved
            && l.leaves[k].start <= end && start <= l.leaves[k].end {
      assert DatesMeet(l.leaves[k], start, end);
    }
    if k :| k in l.leaves && except != Some(k) && l.leaves[k].user == user && l.leaves[k].status.Approved?
            && DatesMeet(l.leaves[k], start, end) {
      assert l.leaves[k].start <= end && start <= l.leaves[k].end;
    }
  }

  // ---------- filing and rewriting ----------

  /** The author may ask with this reviewer: an admin must name one; whoever is named is another active admin of the
      company. */
  predicate MayAsk(l: Ledger, author: nat, reviewer: Option<nat>) {
    && author in l.members
    && (l.members[author].role == CompanyAdmin ==> reviewer.Some?)
    && (reviewer.Some? ==> reviewer.value != author && reviewer.value in l.members
                           && Reviews(l.members[reviewer.value], l.members[author].company))
  }

  /** What a filed or rewritten request must satisfy. */
  predicate Requestable(l: Ledger, author: nat, kind: Kind, start: int, end: int, reviewer: Option<nat>,
                        except: Option<nat>, today: int, year: int) {
    && MayAsk(l, author, reviewer) && today <= start <= end && !AwayBetween(l, author, start, end, except)
    && (kind == Vacation || kind == DayOff ==> Affords(l, author, year, end - start + 1))
  }

  lemma AskingMeaning(l: Ledger, author: nat, reviewer: Option<nat>)
    requires author in l.members
    ensures CheckReviewer(l, author, reviewer).None? <==> MayAsk(l, author, reviewer)
  {
  }

  lemma RequestMeaning(l: Ledger, author: nat, kind: Kind, start: int, end: int, reviewer: Option<nat>,
                       except: Option<nat>, today: int, year: int)
    requires author in l.members && Starts(year, start)
    ensures CheckRequest(l, author, kind, start, end, reviewer, except, today).None?
       <==> Requestable(l, author, kind, start, end, reviewer, except, today, year)
  {
    AskingMeaning(l, author, reviewer);
    AwayMeaning(l, author, start, end, except);
    AffordingMeaning(l, author, year, start, end - start + 1);
  }

  lemma SubmitMeaning(l: Ledger, author: nat, kind: Kind, start: int, end: int, reviewer: Option<nat>, today: int,
                      year: int)
    requires Starts(year, start)
    ensures var (after, error) := Submit(l, author, kind, start, end, reviewer, today);
      && (error.None? <==> author in l.members && l.members[author].company.Some?
                           && Requestable(l, author, kind, start, end, reviewer, None, today, year))
      && (error.Some? ==> after == l)
      && (error.None? ==>
            after == l.(nextId := l.nextId + 1,
                        leaves := l.leaves[l.nextId := Leave(author, l.members[author].company.value, kind, Pending,
                                                             start, end, reviewer, None)]))
  {
    if author in l.members {
      RequestMeaning(l, author, kind, start, end, reviewer, None, today, year);
    }
  }

  lemma EditMeaning(l: Ledger, caller: nat, id: nat, kind: Kind, start: int, end: int, reviewer: Option<nat>,
                    today: int, year: int)
    requires Starts(year, start)
    ensures var (after, error) := Edit(l, caller, id, kind, start, end, reviewer, today);
      && (error.None? <==> id in l.leaves && l.leaves[id].user == caller && l.leaves[id].status == Pending
                           && Requestable(l, caller, kind, start, end, reviewer, Some(id), today, year))
      && (error.Some? ==> after == l)
      && (error.None? ==>
            && after == l.(leaves := l.leaves[id := after.leaves[id]])
            && after.leaves[id] == Leave(caller, l.leaves[id].company, kind, Pending, start, end, reviewer,
                                         l.leaves[id].reviewedBy))
  {
    if caller in l.members {
      RequestMeaning(l, caller, kind, start, end, reviewer, Some(id), today, year);
    }
  }

  lemma CancelMeaning(l: Ledger, caller: nat, id: nat)
    ensures var (after, error) := CancelLeave(l, caller, id);
      && (error.None? <==> id in l.leaves && l.leaves[id].user == caller && l.leaves[id].status == Pending)
      && after == (if error.None? then l.(leaves := l.leaves[id := l.leaves[id].(status := Cancelled)]) else l)
  {
  }

  // ---------- reviews ----------

  /** Which reviews go through. `year` is the one in which the leave starts. */
  predicate MayReview(l: Ledger, admin: nat, id: nat, approve: bool, year: int) {
    && admin in l.members && l.members[admin].role == CompanyAdmin
    && id in l.leaves && l.members[admin].company == Some(l.leaves[id].company)
    && var x := l.leaves[id];
    && x.user != admin && (x.reviewer.Some? ==> x.reviewer.value == admin)
    && (approve ==>
          && !AwayBetween(l, x.user, x.start, x.end, Some(id))
          && ((x.kind == Vacation || x.kind == DayOff) && x.status != Approved ==>
                Affords(l, x.user, year, x.end - x.start + 1)))
  }

  lemma ReviewIsAccepted(l: Ledger, admin: nat, id: nat, approve: bool, year: int)
    requires id in l.leaves ==> Starts(year, l.leaves[id].start)
    ensures Review(l, admin, id, approve).1.None? <==> MayReview(l, admin, id, approve, year)
    ensures Review(l, admin, id, approve).1.Some? ==> Review(l, admin, id, approve).0 == l
  {
    if id in l.leaves {
      var x := l.leaves[id];
      AwayMeaning(l, x.user, x.start, x.end, Some(id));
      AffordingMeaning(l, x.user, year, x.start, x.end - x.start + 1);
    }
  }

  /** What a review writes: the row, and of the balances the author's for the year in which the leave starts, if the
      leave is charged. The balance is opened if need be; its total stays. */
  lemma ReviewMeaning(l: Ledger, admin: nat, id: nat, approve: bool, year: int)
    requires Review(l, admin, id, approve).1.None? && Starts(year, l.leaves[id].start)
    ensures var (x, after) := (l.leaves[id], Review(l, admin, id, approve).0);
      var (status, days) := (if approve then Approved else Rejected, x.end - x.start + 1);
      && after == l.(leaves := l.leaves[id := x.(status := status, reviewedBy := Some(admin))],
                     balances := after.balances)
      && (x.kind == SickLeave || x.kind == Remote ==> after.balances == l.balances)
      && (x.kind == Vacation || x.kind == DayOff ==>
            && (x.user, year) in after.balances
            && after.balances == l.balances[(x.user, year) := after.balances[(x.user, year)]]
            && IsMoved(l, x.user, year, after.balances[(x.user, year)],
                       if approve && x.status != Approved then days
                       else if !approve && x.status == Approved then -days
                       else 0))
  {
    YearMeaning(l.leaves[id].start, year);
  }

  /** The balance as it was, or as it opens, with the used days moved and not below zero. */
  predicate IsMoved(l: Ledger, user: nat, year: int, b: Balance, days: int) {
    var used := days + if (user, year) in l.balances then l.balances[(user, year)].used else 0;
    && (days != 0 ==> b.used == if used < 0 then 0 else used)
    && (days == 0 ==> b.used == used)
    && b.total == if (user, year) in l.balances then l.balances[(user, year)].total
                  else if user in l.members && l.members[user].company.Some?
                          && l.members[user].company.value in l.allowances
                  then l.allowances[l.members[user].company.value]
                  else 24
  }

  lemma SetBalanceMeaning(l: Ledger, admin: nat, user: nat, year: int, total: nat)
    ensures var (after, error) := SetBalance(l, admin, user, year, total);
      && (error.None? <==> user in l.members && admin in l.members
                           && (l.members[admin].role == SuperAdmin
                               || l.members[admin].company == l.members[user].company))
      && after == (if error.Some? then l
                   else l.(balances := l.balances[(user, year) := Balance(total,
                          if (user, year) in l.balances then l.balances[(user, year)].used else 0)]))
  {
  }

  // ---------- losing a reviewer ----------

  /** What settling does to a request: pending, of the company, and assigned to the one lost, it is opened to every
      reviewer if some active admin other than that one and the author is left, and cancelled otherwise. */
  ghost predicate IsSettled(members: map<nat, Member>, before: Leave, after: Leave, target: nat, company: nat) {
    if before.status == Pending && before.reviewer == Some(target) && before.company == company
    then after == before.(
           reviewer := None,
           status := if (exists u :: u in members && u != target && u != before.user
                                  && Reviews(members[u], Some(company)))
                     then Pending else Cancelled)
    else after == before
  }

  ghost predicate AllSettled(members: map<nat, Member>, before: Ledger, after: Ledger, target: nat, company: nat) {
    && after.leaves.Keys == before.leaves.Keys
    && forall id :: id in before.leaves ==>
         IsSettled(members, before.leaves[id], after.leaves[id], target, company)
  }

  lemma SettlingMeaning(l: Ledger, target: nat, company: nat)
    ensures AllSettled(l.members, l, Settle(l, target, company), target, company)
    ensures Settle(l, target, company) == l.(leaves := Settle(l, target, company).leaves)
  {
    var after := Settle(l, target, company);
    forall id | id in l.leaves
      ensures IsSettled(l.members, l.leaves[id], after.leaves[id], target, company)
    {
      var x := l.leaves[id];
      StandInMeaning(l.members, company, target, x.user);
    }
  }

  lemma StandInMeaning(members: map<nat, Member>, company: nat, target: nat, author: nat)
    ensures HasStandIn(members, company, target, author) <==>
      exists u :: u in members && u != target && u != author && Reviews(members[u], Some(company))
  {
    forall u | u in members
      ensures IsAdminOf(members, u, Some(company)) <==> Reviews(members[u], Some(company))
    {
    }
  }

  /** Deactivating and removing a member of a company: the row of the member, and the settled requests. Of anybody else
      nothing changes. */
  lemma DepartureMeaning(l: Ledger, target: nat)
    requires target in l.members && l.members[target].company.Some?
    ensures var off := Deactivate(l, target);
      && off == l.(leaves := off.leaves, members := l.members[target := l.members[target].(isActive := false)])
      && AllSettled(l.members, l, off, target, l.members[target].company.value)
    ensures var gone := RemoveMember(l, target);
      && gone == l.(leaves := gone.leaves, members := l.members[target := Member(None, Guest, false)])
      && AllSettled(l.members, l, gone, target, l.members[target].company.value)
  {
    var company := l.members[target].company.value;
    var left := l.members[target := l.members[target].(isActive := false)];
    SettlingMeaning(l, target, company);
    SettlingMeaning(l.(members := left), target, company);
    var off := Deactivate(l, target);
    forall id | id in l.leaves
      ensures IsSettled(l.members, l.leaves[id], off.leaves[id], target, company)
    {
      assert IsSettled(left, l.leaves[id], off.leaves[id], target, company);
      SameStandIns(l.members, left, target, l.leaves[id].user, company);
    }
  }

  lemma SameStandIns(a: map<nat, Member>, b: map<nat, Member>, target: nat, author: nat, company: nat)
    requires a.Keys == b.Keys && forall u :: u in a && u != target ==> a[u] == b[u]
    ensures (exists u :: u in a && u != target && u != author && Reviews(a[u], Some(company)))
       <==> exists u :: u in b && u != target && u != author && Reviews(b[u], Some(company))
  {
  }

  /** Nobody is deleted who is a superadmin. With anybody else go their requests and balances, and their name from the
      requests of others. */
  lemma DeletionMeaning(l: Ledger, target: nat)
    requires target in l.members
    ensures var after := DeleteUser(l, target);
      if l.members[target].role == SuperAdmin then after == l
      else && after.members == l.members - {target} && after.allowances == l.allowances && after.nextId == l.nextId
           && (forall id :: id in after.leaves <==> id in l.leaves && l.leaves[id].user != target)
           && (forall id :: id in after.leaves ==>
                 var (x, y) := (l.leaves[id], after.leaves[id]);
                 && y == x.(reviewer := y.reviewer, reviewedBy := y.reviewedBy)
                 && y.reviewer == (if x.reviewer == Some(target) then None else x.reviewer)
                 && y.reviewedBy == (if x.reviewedBy == Some(target) then None else x.reviewedBy))
           && (forall k :: k in after.balances <==> k in l.balances && k.0 != target)
           && (forall k :: k in after.balances ==> after.balances[k] == l.balances[k])
  {
  }

  /** The steps that write one column of members. */
  lemma MemberWrites(l: Ledger, target: nat, company: nat, flag: bool, u: nat)
    requires u in l.members
    ensures var after := ChangeRole(l, target, flag);
      after == l.(members := after.members) && u in after.members
      && after.members[u] == l.members[u].(role :=
           if u == target && l.members[u].company.Some? && l.members[u].role != Guest && l.members[u].role != SuperAdmin
           then if flag then CompanyAdmin else Employee
           else l.members[u].role)
    ensures var after := SetActive(l, target, flag);
      after == l.(members := after.members) && u in after.members
      && after.members[u] == l.members[u].(isActive := if u == target then flag else l.members[u].isActive)
    ensures var after := SetCompanyActive(l, company, flag);
      after == l.(members := after.members) && u in after.members
      && after.members[u] == l.members[u].(isActive :=
           if l.members[u].company == Some(company) then flag else l.members[u].isActive)
  {
  }

  /** An invitation makes a member of anybody unknown, of a guest and of an inactive user, and of nobody else. */
  lemma JoinMeaning(l: Ledger, target: nat, company: Option<nat>, role: Role)
    ensures Join(l, target, company, role) ==
      if target !in l.members || l.members[target].role == Guest || !l.members[target].isActive
      then l.(members := l.members[target := Member(company, role, true)]) else l
  {
  }
}
