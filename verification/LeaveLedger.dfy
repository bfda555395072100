/** Leave requests and yearly balances (apps/hr), with the settlement of requests whose
    reviewer is lost (apps/companies/views.py). */
module LeaveLedger {
  import opened Options
  import opened Calendar

  datatype Error =
    | NotFound | NoCompany | NoOtherAdmin | ReviewerRequired | ReviewerIsAuthor | ReviewerInvalid
    | StartAfterEnd | StartInPast | DatesOverlap | BalanceInsufficient
    | EditOwnOnly | PendingOnly | ReviewAdminOnly | ReviewSelfForbidden | ReviewNotAssigned
    | ApproveOverlap | ApproveBalanceInsufficient | OwnCompanyOnly

  datatype Role = SuperAdmin | CompanyAdmin | Employee | Guest
  datatype Member = Member(company: Option<nat>, role: Role, isActive: bool)

  datatype Kind = Vacation | DayOff | SickLeave | Remote
  datatype Status = Pending | Approved | Rejected | Cancelled

  datatype Leave = Leave(
    user: nat, company: nat, kind: Kind, status: Status, start: int, end: int,
    reviewer: Option<nat>, reviewedBy: Option<nat>)

  datatype Balance = Balance(total: nat, used: nat)

  /** `allowances` are the yearly vacation days of the companies that have set them. */
  datatype Ledger = Ledger(
    members: map<nat, Member>, allowances: map<nat, nat>, leaves: map<nat, Leave>,
    balances: map<(nat, int), Balance>, nextId: nat)

  const DEFAULT_DAYS := 24

  /** Only these kinds are charged to the balance. */
  predicate Charged(kind: Kind) { kind.Vacation? || kind.DayOff? }

  function Duration(x: Leave): int { x.end - x.start + 1 }

  function DefaultTotal(l: Ledger, user: nat): nat {
    if user !in l.members || l.members[user].company.None? then DEFAULT_DAYS
    else
      var company := l.members[user].company.value;
      if company in l.allowances then l.allowances[company] else DEFAULT_DAYS
  }

  /** The balance as it stands, or as it would be created. */
  function BalanceOf(l: Ledger, user: nat, year: int): Balance {
    if (user, year) in l.balances then l.balances[(user, year)] else Balance(DefaultTotal(l, user), 0)
  }

  function Remaining(b: Balance): nat { if b.total > b.used then b.total - b.used else 0 }

  predicate DatesMeet(a: Leave, start: int, end: int) { a.start <= end && a.end >= start }

  predicate ApprovedOverlap(l: Ledger, user: nat, start: int, end: int, except: Option<nat>) {
    exists id :: id in l.leaves && except != Some(id) && l.leaves[id].user == user && l.leaves[id].status.Approved?
              && DatesMeet(l.leaves[id], start, end)
  }

  // ---------- submitting and editing ----------

  predicate IsAdminOf(members: map<nat, Member>, user: nat, company: Option<nat>) {
    user in members && members[user].role.CompanyAdmin? && members[user].company == company && members[user].isActive
  }

  function CheckReviewer(l: Ledger, author: nat, reviewer: Option<nat>): Option<Error>
    requires author in l.members
  {
    var m := l.members[author];
    if m.role.CompanyAdmin? && !(exists u :: u in l.members && u != author && IsAdminOf(l.members, u, m.company))
    then Some(NoOtherAdmin)
    else if m.role.CompanyAdmin? && reviewer.None? then Some(ReviewerRequired)
    else if reviewer.None? then None
    else if reviewer.value == author then Some(ReviewerIsAuthor)
    else if !IsAdminOf(l.members, reviewer.value, m.company) then Some(ReviewerInvalid)
    else None
  }

  function CheckRequest(l: Ledger, author: nat, kind: Kind, start: int, end: int, reviewer: Option<nat>,
                        except: Option<nat>, today: int): Option<Error>
    requires author in l.members
  {
    var error := CheckReviewer(l, author, reviewer);
    if error.Some? then error
    else if start > end then Some(StartAfterEnd)
    else if start < today then Some(StartInPast)
    else if ApprovedOverlap(l, author, start, end, except) then Some(DatesOverlap)
    else if Charged(kind) && end - start + 1 > Remaining(BalanceOf(l, author, Year(start)))
    then Some(BalanceInsufficient)
    else None
  }

  function Submit(l: Ledger, author: nat, kind: Kind, start: int, end: int, reviewer: Option<nat>,
                  today: int): (Ledger, Option<Error>)
  {
    if author !in l.members then (l, Some(NotFound))
    else if l.members[author].company.None? then (l, Some(NoCompany))
    else
      var error := CheckRequest(l, author, kind, start, end, reviewer, None, today);
      if error.Some? then (l, error)
      else
        var leave := Leave(author, l.members[author].company.value, kind, Pending, start, end, reviewer, None);
        (l.(leaves := l.leaves[l.nextId := leave], nextId := l.nextId + 1), None)
  }

  /** The new values are those of the request, or the current ones where it sends none. */
  function Edit(l: Ledger, caller: nat, id: nat, kind: Kind, start: int, end: int, reviewer: Option<nat>,
                today: int): (Ledger, Option<Error>)
  {
    if id !in l.leaves || l.leaves[id].user !in l.members then (l, Some(NotFound))
    else if l.leaves[id].user != caller then (l, Some(EditOwnOnly))
    else if !l.leaves[id].status.Pending? then (l, Some(PendingOnly))
    else
      var error := CheckRequest(l, caller, kind, start, end, reviewer, Some(id), today);
      if error.Some? then (l, error)
      else
        var leave := l.leaves[id].(kind := kind, start := start, end := end, reviewer := reviewer);
        (l.(leaves := l.leaves[id := leave]), None)
  }

  function CancelLeave(l: Ledger, caller: nat, id: nat): (Ledger, Option<Error>) {
    if id !in l.leaves then (l, Some(NotFound))
    else if l.leaves[id].user != caller then (l, Some(EditOwnOnly))
    else if !l.leaves[id].status.Pending? then (l, Some(PendingOnly))
    else (l.(leaves := l.leaves[id := l.leaves[id].(status := Cancelled)]), None)
  }

  // ---------- review ----------

  function CheckReview(l: Ledger, admin: nat, id: nat, approve: bool): Option<Error> {
    if admin !in l.members || !l.members[admin].role.CompanyAdmin? then Some(ReviewAdminOnly)
    else if id !in l.leaves || l.members[admin].company != Some(l.leaves[id].company) then Some(NotFound)
    else
      var x := l.leaves[id];
      if x.user == admin then Some(ReviewSelfForbidden)
      else if x.reviewer.Some? && x.reviewer.value != admin then Some(ReviewNotAssigned)
      else if approve && ApprovedOverlap(l, x.user, x.start, x.end, Some(id)) then Some(ApproveOverlap)
      else if approve && Charged(x.kind) && !x.status.Approved?
              && Duration(x) > Remaining(BalanceOf(l, x.user, Year(x.start))) then Some(ApproveBalanceInsufficient)
      else None
  }

  function Charge(b: Balance, before: Status, after: Status, days: int): Balance {
    if !before.Approved? && after.Approved? then b.(used := Max0(b.used + days))
    else if before.Approved? && !after.Approved? then b.(used := Max0(b.used - days))
    else b
  }

  function Max0(n: int): nat { if n < 0 then 0 else n }

  function Review(l: Ledger, admin: nat, id: nat, approve: bool): (Ledger, Option<Error>) {
    var error := CheckReview(l, admin, id, approve);
    if error.Some? then (l, error)
    else
      var x := l.leaves[id];
      var y := x.(status := if approve then Approved else Rejected, reviewedBy := Some(admin));
      var year := Year(x.start);
      (l.(leaves := l.leaves[id := y],
          balances := if Charged(x.kind)
                      then l.balances[(x.user, year) := Charge(BalanceOf(l, x.user, year), x.status, y.status,
                                                                Duration(x))]
                      else l.balances),
       None)
  }

  // ---------- balances ----------

  function OpenBalance(l: Ledger, user: nat, year: int): Ledger {
    l.(balances := l.balances[(user, year) := BalanceOf(l, user, year)])
  }

  function SetBalance(l: Ledger, admin: nat, user: nat, year: int, total: nat): (Ledger, Option<Error>) {
    if user !in l.members || admin !in l.members then (l, Some(NotFound))
    else if !l.members[admin].role.SuperAdmin? && l.members[user].company != l.members[admin].company
    then (l, Some(OwnCompanyOnly))
    else (l.(balances := l.balances[(user, year) := BalanceOf(l, user, year).(total := total)]), None)
  }

  // ---------- losing a reviewer ----------

  /** Someone other than the lost reviewer and the author could review in this company. */
  predicate HasStandIn(members: map<nat, Member>, company: nat, target: nat, author: nat) {
    exists u :: u in members && u != target && u != author && IsAdminOf(members, u, Some(company))
  }

  function Settled(members: map<nat, Member>, x: Leave, target: nat, company: nat): Leave {
    if !x.status.Pending? || x.reviewer != Some(target) || x.company != company then x
    else if HasStandIn(members, company, target, x.user) then x.(reviewer := None)
    else x.(status := Cancelled, reviewer := None)
  }

  function Settle(l: Ledger, target: nat, company: nat): Ledger {
    l.(leaves := map id | id in l.leaves :: Settled(l.members, l.leaves[id], target, company))
  }

  /** The requests are settled except those still to do. */
  ghost predicate SettledExcept(members: map<nat, Member>, before: map<nat, Leave>, after: map<nat, Leave>,
                                todo: set<nat>, target: nat, company: nat) {
    && after.Keys == before.Keys && todo <= before.Keys
    && (forall id :: id in before ==>
         after[id] == if id in todo then before[id] else Settled(members, before[id], target, company))
    && (forall id :: id in todo ==>
         before[id].status.Pending? && before[id].reviewer == Some(target) && before[id].company == company)
  }

  lemma SettleOneMore(members: map<nat, Member>, before: map<nat, Leave>, mid: map<nat, Leave>,
                      todo: set<nat>, id: nat, target: nat, company: nat)
    requires SettledExcept(members, before, mid, todo, target, company) && id in todo
    ensures id in mid && mid[id] == before[id]
    ensures SettledExcept(members, before, mid[id := Settled(members, before[id], target, company)], todo - {id},
            target, company)
  {
  }

  function Deactivate(l: Ledger, target: nat): Ledger {
    if target !in l.members || l.members[target].company.None? then l
    else
      var left := l.members[target := l.members[target].(isActive := false)];
      Settle(l.(members := left), target, l.members[target].company.value)
  }

  /** The requests are settled while the member still belongs to the company. */
  function RemoveMember(l: Ledger, target: nat): Ledger {
    if target !in l.members || l.members[target].company.None? then l
    else
      var settled := Settle(l, target, l.members[target].company.value);
      settled.(members := settled.members[target := Member(None, Guest, false)])
  }

  // The remaining steps that change who may review settle nothing.

  function ChangeRole(l: Ledger, target: nat, toAdmin: bool): Ledger {
    if target !in l.members || l.members[target].company.None? then l
    else if l.members[target].role.Guest? || l.members[target].role.SuperAdmin? then l
    else l.(members := l.members[target := l.members[target].(role := if toAdmin then CompanyAdmin else Employee)])
  }

  /** Blocking and unblocking a user, activating a member, and deleting one's own account. */
  function SetActive(l: Ledger, target: nat, active: bool): Ledger {
    if target !in l.members then l else l.(members := l.members[target := l.members[target].(isActive := active)])
  }

  /** Deactivating and activating a company does so for all of its members. */
  function SetCompanyActive(l: Ledger, company: nat, active: bool): Ledger {
    l.(members := map u | u in l.members ::
         if l.members[u].company == Some(company) then l.members[u].(isActive := active) else l.members[u])
  }

  /** The references to a deleted reviewer become empty. */
  function WithoutUser(x: Leave, target: nat): Leave {
    x.(reviewer := if x.reviewer == Some(target) then None else x.reviewer,
       reviewedBy := if x.reviewedBy == Some(target) then None else x.reviewedBy)
  }

  /** The requests and balances of a deleted user go too. A superadmin cannot be deleted. */
  function DeleteUser(l: Ledger, target: nat): Ledger {
    if target !in l.members || l.members[target].role.SuperAdmin? then l
    else
      l.(members := l.members - {target},
         leaves := map id | id in l.leaves && l.leaves[id].user != target :: WithoutUser(l.leaves[id], target),
         balances := map k | k in l.balances && k.0 != target :: l.balances[k])
  }

  /** Accepting an invitation makes a new member of a guest, of an inactive user, or of somebody unknown. */
  function Join(l: Ledger, target: nat, company: Option<nat>, role: Role): Ledger {
    if target in l.members && !l.members[target].role.Guest? && l.members[target].isActive then l
    else l.(members := l.members[target := Member(company, role, true)])
  }

  // ---------- the tables updated in place ----------

  class LeaveTables {
    var members: map<nat, Member>
    const allowances: map<nat, nat>
    var leaves: map<nat, Leave>
    var balances: map<(nat, int), Balance>
    var nextId: nat

    function State(): Ledger
      reads this
    {
      Ledger(members, allowances, leaves, balances, nextId)
    }

    constructor (members: map<nat, Member>, allowances: map<nat, nat>)
      ensures State() == Ledger(members, allowances, map[], map[], 0)
    {
      this.members, this.allowances, leaves, balances, nextId := members, allowances, map[], map[], 0;
    }

    method SubmitRequest(author: nat, kind: Kind, start: int, end: int, reviewer: Option<nat>, today: int)
      returns (error: Option<Error>)
      modifies this`leaves, this`nextId
      ensures (State(), error) == Submit(old(State()), author, kind, start, end, reviewer, today)
    {
      if author !in members {
        return Some(NotFound);
      }
      if members[author].company.None? {
        return Some(NoCompany);
      }
      error := CheckRequest(State(), author, kind, start, end, reviewer, None, today);
      if error.None? {
        var company := members[author].company.value;
        leaves := leaves[nextId := Leave(author, company, kind, Pending, start, end, reviewer, None)];
        nextId := nextId + 1;
      }
    }

    method EditRequest(caller: nat, id: nat, kind: Kind, start: int, end: int, reviewer: Option<nat>, today: int)
      returns (error: Option<Error>)
      modifies this`leaves
      ensures (State(), error) == Edit(old(State()), caller, id, kind, start, end, reviewer, today)
    {
      if id !in leaves || leaves[id].user !in members {
        return Some(NotFound);
      }
      if leaves[id].user != caller {
        return Some(EditOwnOnly);
      }
      if !leaves[id].status.Pending? {
        return Some(PendingOnly);
      }
      error := CheckRequest(State(), caller, kind, start, end, reviewer, Some(id), today);
      if error.None? {
        leaves := leaves[id := leaves[id].(kind := kind, start := start, end := end, reviewer := reviewer)];
      }
    }

    method CancelRequest(caller: nat, id: nat) returns (error: Option<Error>)
      modifies this`leaves
      ensures (State(), error) == CancelLeave(old(State()), caller, id)
    {
      if id !in leaves {
        return Some(NotFound);
      }
      if leaves[id].user != caller {
        return Some(EditOwnOnly);
      }
      if !leaves[id].status.Pending? {
        return Some(PendingOnly);
      }
      leaves := leaves[id := leaves[id].(status := Cancelled)];
      error := None;
    }

    method GetOrCreateBalance(user: nat, year: int) returns (balance: Balance)
      modifies this`balances
      ensures balance == BalanceOf(old(State()), user, year) && State() == OpenBalance(old(State()), user, year)
    {
      if (user, year) !in balances {
        balances := balances[(user, year) := Balance(DefaultTotal(State(), user), 0)];
      }
      balance := balances[(user, year)];
      assert balances == balances[(user, year) := balance];
    }

    method ReviewRequest(admin: nat, id: nat, approve: bool) returns (error: Option<Error>)
      modifies this`leaves, this`balances
      ensures (State(), error) == Review(old(State()), admin, id, approve)
    {
      error := CheckReview(State(), admin, id, approve);
      if error.Some? {
        return;
      }
      var leave := leaves[id];
      var oldStatus, newStatus := leave.status, if approve then Approved else Rejected;
      leaves := leaves[id := leave.(status := newStatus, reviewedBy := Some(admin))];
      if Charged(leave.kind) {
        var year := Year(leave.start);
        var balance := GetOrCreateBalance(leave.user, year);
        if !oldStatus.Approved? && newStatus.Approved? {
          balances := balances[(leave.user, year) := balance.(used := Max0(balance.used + Duration(leave)))];
        } else if oldStatus.Approved? && !newStatus.Approved? {
          balances := balances[(leave.user, year) := balance.(used := Max0(balance.used - Duration(leave)))];
        }
        assert balances == old(balances)[(leave.user, year) := Charge(balance, oldStatus, newStatus, Duration(leave))];
      }
    }

    method SetYearlyBalance(admin: nat, user: nat, year: int, total: nat) returns (error: Option<Error>)
      modifies this`balances
      ensures (State(), error) == SetBalance(old(State()), admin, user, year, total)
    {
      if user !in members || admin !in members {
        return Some(NotFound);
      }
      if !members[admin].role.SuperAdmin? && members[user].company != members[admin].company {
        return Some(OwnCompanyOnly);
      }
      var balance := GetOrCreateBalance(user, year);
      balances := balances[(user, year) := balance.(total := total)];
      assert balances == old(balances)[(user, year) := balance.(total := total)];
      error := None;
    }

    method SettlePendingLeaves(target: nat, company: nat)
      modifies this`leaves
      ensures State() == Settle(old(State()), target, company)
    {
      var pending := set id | id in leaves && leaves[id].status.Pending? && leaves[id].reviewer == Some(target)
                                           && leaves[id].company == company;
      var todo := pending;
      while todo != {}
        invariant todo <= pending
        invariant SettledExcept(members, old(leaves), leaves, todo, target, company)
        decreases |todo|
      {
        var id :| id in todo;
        SettleOneMore(members, old(leaves), leaves, todo, id, target, company);
        if HasStandIn(members, company, target, leaves[id].user) {
          leaves := leaves[id := leaves[id].(reviewer := None)];
        } else {
          leaves := leaves[id := leaves[id].(status := Cancelled, reviewer := None)];
        }
        todo := todo - {id};
      }
    }

    method DeactivateMember(target: nat)
      modifies this`members, this`leaves
      ensures State() == Deactivate(old(State()), target)
    {
      if target in members && members[target].company.Some? {
        members := members[target := members[target].(isActive := false)];
        SettlePendingLeaves(target, members[target].company.value);
      }
    }

    method RemoveFromCompany(target: nat)
      modifies this`members, this`leaves
      ensures State() == RemoveMember(old(State()), target)
    {
      if target in members && members[target].company.Some? {
        SettlePendingLeaves(target, members[target].company.value);
        members := members[target := Member(None, Guest, false)];
      }
    }

    method ChangeMemberRole(target: nat, toAdmin: bool)
      modifies this`members
      ensures State() == ChangeRole(old(State()), target, toAdmin)
    {
      if target !in members || members[target].company.None? {
        return;
      }
      if members[target].role.Guest? || members[target].role.SuperAdmin? {
        return;
      }
      members := members[target := members[target].(role := if toAdmin then CompanyAdmin else Employee)];
    }

    method SetUserActive(target: nat, active: bool)
      modifies this`members
      ensures State() == SetActive(old(State()), target, active)
    {
      if target in members {
        members := members[target := members[target].(isActive := active)];
      }
    }

    method DeleteUserRow(target: nat)
      modifies this`members, this`leaves, this`balances
      ensures State() == DeleteUser(old(State()), target)
    {
      if target !in members || members[target].role.SuperAdmin? {
        return;
      }
      leaves := map id | id in leaves && leaves[id].user != target :: leaves[id];
      leaves := map id | id in leaves :: WithoutUser(leaves[id], target);
      balances := map k | k in balances && k.0 != target :: balances[k];
      members := members - {target};
      assert leaves == DeleteUser(old(State()), target).leaves;
    }

    method SetCompanyMembersActive(company: nat, active: bool)
      modifies this`members
      ensures State() == SetCompanyActive(old(State()), company, active)
    {
      members := map u | u in members ::
        if members[u].company == Some(company) then members[u].(isActive := active) else members[u];
    }
  }
}
