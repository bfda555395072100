/** Whole runs of the leave ledger: the running counter against the approved requests. */
module LeaveRuns {
  import opened Options
  import opened Calendar
  import opened LeaveLedger

  datatype Event =
    | SubmitEvent(author: nat, kind: Kind, start: int, end: int, reviewer: Option<nat>, today: int)
    | EditEvent(caller: nat, id: nat, kind: Kind, start: int, end: int, reviewer: Option<nat>, today: int)
    | CancelEvent(caller: nat, id: nat)
    | ReviewEvent(admin: nat, id: nat, approve: bool)
    | OpenBalanceEvent(user: nat, year: int)
    | SetBalanceEvent(admin: nat, user: nat, year: int, total: nat)
    | MemberEvent(step: MemberStep)

  /** The steps that change who belongs to a company and who may review. */
  datatype MemberStep =
    | Deactivation(target: nat)
    | Removal(target: nat)
    | RoleChange(target: nat, toAdmin: bool)
    | Blocking(target: nat)
    | UserDeletion(target: nat)
    | CompanyDeactivation(company: nat)
    | Activation(target: nat)
    | CompanyActivation(company: nat)
    | Joining(target: nat, newCompany: Option<nat>, role: Role)

  function Apply(l: Ledger, step: MemberStep): Ledger {
    match step
    case Deactivation(target) => Deactivate(l, target)
    case Removal(target) => RemoveMember(l, target)
    case RoleChange(target, toAdmin) => ChangeRole(l, target, toAdmin)
    case Blocking(target) => SetActive(l, target, false)
    case UserDeletion(target) => DeleteUser(l, target)
    case CompanyDeactivation(company) => SetCompanyActive(l, company, false)
    case Activation(target) => SetActive(l, target, true)
    case CompanyActivation(company) => SetCompanyActive(l, company, true)
    case Joining(target, company, role) => Join(l, target, company, role)
  }

  function Next(l: Ledger, e: Event): Ledger {
    match e
    case SubmitEvent(author, kind, start, end, reviewer, today) =>
        Submit(l, author, kind, start, end, reviewer, today).0
    case EditEvent(caller, id, kind, start, end, reviewer, today) =>
        Edit(l, caller, id, kind, start, end, reviewer, today).0
    case CancelEvent(caller, id) => CancelLeave(l, caller, id).0
    case ReviewEvent(admin, id, approve) => Review(l, admin, id, approve).0
    case OpenBalanceEvent(user, year) => OpenBalance(l, user, year)
    case SetBalanceEvent(admin, user, year, total) => SetBalance(l, admin, user, year, total).0
    case MemberEvent(step) => Apply(l, step)
  }

  function Run(l: Ledger, events: seq<Event>): Ledger
    decreases |events|
  {
    if events == [] then l else Run(Next(l, events[0]), events[1..])
  }

  // ---------- sums over the approved requests ----------

  /** An approved vacation or day off of the user that starts in the year. */
  predicate Counts(x: Leave, user: nat, year: int) {
    && x.status.Approved? && (x.kind.Vacation? || x.kind.DayOff?)
    && x.user == user && FirstDay(year) <= x.start < FirstDay(year + 1)
  }

  function Days(x: Leave, user: nat, year: int): int {
    if Counts(x, user, year) then x.end - x.start + 1 else 0
  }

  /** The days of the approved charged requests of the user that start in the year, over ids below n. */
  function DaysBelow(leaves: map<nat, Leave>, user: nat, year: int, n: nat): int {
    if n == 0 then 0
    else DaysBelow(leaves, user, year, n - 1) + (if n - 1 in leaves then Days(leaves[n - 1], user, year) else 0)
  }

  function DateRange(start: int, n: nat): (dates: set<int>)
    ensures |dates| == n && forall d :: d in dates <==> start <= d < start + n
  {
    if n == 0 then {} else DateRange(start, n - 1) + {start + n - 1}
  }

  function DatesOf(x: Leave): set<int> {
    if x.start <= x.end then DateRange(x.start, x.end - x.start + 1) else {}
  }

  /** The calendar days those requests cover. */
  function DatesBelow(leaves: map<nat, Leave>, user: nat, year: int, n: nat): set<int> {
    if n == 0 then {}
    else
      var earlier := DatesBelow(leaves, user, year, n - 1);
      if n - 1 in leaves && Counts(leaves[n - 1], user, year) then earlier + DatesOf(leaves[n - 1]) else earlier
  }

  // ---------- the invariant ----------

  ghost predicate WellFormed(l: Ledger) {
    forall id :: id in l.leaves ==> id < l.nextId && l.leaves[id].start <= l.leaves[id].end
  }

  /** A user's approved leaves never share a day. */
  ghost predicate ApprovedDisjoint(leaves: map<nat, Leave>) {
    forall i, j :: i in leaves && j in leaves && i != j && leaves[i].user == leaves[j].user
      && leaves[i].status.Approved? && leaves[j].status.Approved?
      ==> leaves[i].end < leaves[j].start || leaves[j].end < leaves[i].start
  }

  function UsedDays(l: Ledger, user: nat, year: int): nat {
    if (user, year) in l.balances then l.balances[(user, year)].used else 0
  }

  ghost predicate UsedIsSum(l: Ledger) {
    forall user: nat, year: int :: UsedDays(l, user, year) == DaysBelow(l.leaves, user, year, l.nextId)
  }

  ghost predicate LedgerInv(l: Ledger) {
    WellFormed(l) && ApprovedDisjoint(l.leaves) && UsedIsSum(l)
  }

  lemma {:induction false} ChangeOneLeave(leaves: map<nat, Leave>, id: nat, x: Leave, user: nat, year: int, n: nat)
    ensures DaysBelow(leaves[id := x], user, year, n)
         == DaysBelow(leaves, user, year, n)
          + (if id < n then Days(x, user, year) - (if id in leaves then Days(leaves[id], user, year) else 0) else 0)
  {
    if n == 0 {
    } else {
      ChangeOneLeave(leaves, id, x, user, year, n - 1);
    }
  }

  lemma {:induction false} SameDaysSameSum(a: map<nat, Leave>, b: map<nat, Leave>, user: nat, year: int, n: nat)
    requires a.Keys == b.Keys && forall id :: id in a ==> Days(a[id], user, year) == Days(b[id], user, year)
    ensures DaysBelow(a, user, year, n) == DaysBelow(b, user, year, n)
  {
    if n == 0 {
    } else {
      SameDaysSameSum(a, b, user, year, n - 1);
    }
  }

  /** The sum contains every approved request, so taking one away never goes below zero. */
  lemma {:induction false} SumContains(leaves: map<nat, Leave>, user: nat, year: int, n: nat, id: nat)
    requires forall k :: k in leaves ==> leaves[k].start <= leaves[k].end
    ensures DaysBelow(leaves, user, year, n) >= (if id < n && id in leaves then Days(leaves[id], user, year) else 0)
    ensures DaysBelow(leaves, user, year, n) >= 0
  {
    if n == 0 {
    } else {
      SumContains(leaves, user, year, n - 1, id);
    }
  }

  // ---------- steps ----------

  lemma SubmitKeeps(l: Ledger, author: nat, kind: Kind, start: int, end: int, reviewer: Option<nat>, today: int)
    requires LedgerInv(l)
    ensures LedgerInv(Submit(l, author, kind, start, end, reviewer, today).0)
  {
    var after := Submit(l, author, kind, start, end, reviewer, today).0;
    if after != l {
      forall user: nat, year: int
        ensures UsedDays(after, user, year) == DaysBelow(after.leaves, user, year, after.nextId)
      {
        ChangeOneLeave(l.leaves, l.nextId, after.leaves[l.nextId], user, year, after.nextId);
      }
    }
  }

  /** Rewriting a request that is not approved, before and after, changes no sum. */
  lemma UnapprovedChangeKeeps(l: Ledger, after: Ledger, id: nat)
    requires LedgerInv(l) && id in l.leaves && id in after.leaves
    requires after == l.(leaves := l.leaves[id := after.leaves[id]])
    requires !l.leaves[id].status.Approved? && !after.leaves[id].status.Approved?
    requires after.leaves[id].start <= after.leaves[id].end
    ensures LedgerInv(after)
  {
    forall user: nat, year: int
      ensures UsedDays(after, user, year) == DaysBelow(after.leaves, user, year, after.nextId)
    {
      ChangeOneLeave(l.leaves, id, after.leaves[id], user, year, l.nextId);
    }
  }

  /** A review moves the counter by exactly the request's days, without clipping. */
  lemma ReviewMovesExactly(l: Ledger, admin: nat, id: nat, approve: bool)
    requires LedgerInv(l) && Review(l, admin, id, approve).1.None?
    ensures var (x, after) := (l.leaves[id], Review(l, admin, id, approve).0);
            forall user: nat, year: int :: UsedDays(after, user, year)
              == UsedDays(l, user, year) + Days(after.leaves[id], user, year) - Days(x, user, year)
  {
    var x := l.leaves[id];
    SumContains(l.leaves, x.user, Year(x.start), l.nextId, id);
    forall year: int
      ensures Year(x.start) == year <==> FirstDay(year) <= x.start < FirstDay(year + 1)
    {
      YearMeaning(x.start, year);
    }
  }

  lemma ReviewKeeps(l: Ledger, admin: nat, id: nat, approve: bool)
    requires LedgerInv(l)
    ensures LedgerInv(Review(l, admin, id, approve).0)
  {
    if Review(l, admin, id, approve).1.None? {
      var after := Review(l, admin, id, approve).0;
      ReviewMovesExactly(l, admin, id, approve);
      forall user: nat, year: int
        ensures UsedDays(after, user, year) == DaysBelow(after.leaves, user, year, after.nextId)
      {
        ChangeOneLeave(l.leaves, id, after.leaves[id], user, year, l.nextId);
      }
      ReviewKeepsDisjoint(l, admin, id, approve);
    }
  }

  lemma ReviewKeepsDisjoint(l: Ledger, admin: nat, id: nat, approve: bool)
    requires ApprovedDisjoint(l.leaves) && CheckReview(l, admin, id, approve).None?
    ensures ApprovedDisjoint(Review(l, admin, id, approve).0.leaves)
  {
    var after := Review(l, admin, id, approve).0.leaves;
    if approve {
      forall j | j in after && j != id && after[j].user == after[id].user && after[j].status.Approved?
        ensures after[id].end < after[j].start || after[j].end < after[id].start
      {
        assert !DatesMeet(l.leaves[j], l.leaves[id].start, l.leaves[id].end);
      }
    }
  }

  lemma BalanceStepKeeps(l: Ledger, after: Ledger)
    requires LedgerInv(l) && after == l.(balances := after.balances)
    requires forall user: nat, year: int :: UsedDays(after, user, year) == UsedDays(l, user, year)
    ensures LedgerInv(after)
  {
  }

  lemma SettleKeeps(l: Ledger, target: nat, company: nat)
    requires LedgerInv(l)
    ensures LedgerInv(Settle(l, target, company))
  {
    var after := Settle(l, target, company);
    forall user: nat, year: int
      ensures UsedDays(after, user, year) == DaysBelow(after.leaves, user, year, after.nextId)
    {
      SameDaysSameSum(l.leaves, after.leaves, user, year, l.nextId);
    }
  }

  lemma MembersStepKeeps(l: Ledger, members: map<nat, Member>)
    requires LedgerInv(l)
    ensures LedgerInv(l.(members := members))
  {
  }

  /** A row that counts for nobody else may go: the sums of the others stay, and a deleted user has none. */
  lemma {:induction false} DeletionKeepsSums(before: map<nat, Leave>, after: map<nat, Leave>, target: nat, user: nat,
                                             year: int, n: nat)
    requires forall id :: id in after <==> id in before && before[id].user != target
    requires forall id :: id in after ==> after[id] == WithoutUser(before[id], target)
    ensures DaysBelow(after, user, year, n) == if user == target then 0 else DaysBelow(before, user, year, n)
  {
    if n == 0 {
    } else {
      DeletionKeepsSums(before, after, target, user, year, n - 1);
    }
  }

  lemma DeletionKeeps(l: Ledger, target: nat)
    requires LedgerInv(l)
    ensures LedgerInv(DeleteUser(l, target))
  {
    var after := DeleteUser(l, target);
    if target in l.members && !l.members[target].role.SuperAdmin? {
      forall user: nat, year: int
        ensures UsedDays(after, user, year) == DaysBelow(after.leaves, user, year, after.nextId)
      {
        DeletionKeepsSums(l.leaves, after.leaves, target, user, year, l.nextId);
      }
    }
  }

  lemma MemberStepKeeps(l: Ledger, step: MemberStep)
    requires LedgerInv(l)
    ensures LedgerInv(Apply(l, step))
  {
    match step
    case Deactivation(target) =>
      if target in l.members && l.members[target].company.Some? {
        var members := l.members[target := l.members[target].(isActive := false)];
        MembersStepKeeps(l, members);
        SettleKeeps(l.(members := members), target, l.members[target].company.value);
      }
    case Removal(target) =>
      if target in l.members && l.members[target].company.Some? {
        SettleKeeps(l, target, l.members[target].company.value);
        MembersStepKeeps(Settle(l, target, l.members[target].company.value), Apply(l, step).members);
      }
    case UserDeletion(target) => DeletionKeeps(l, target);
    case _ => MembersStepKeeps(l, Apply(l, step).members);
  }

  lemma StepKeeps(l: Ledger, e: Event)
    requires LedgerInv(l)
    ensures LedgerInv(Next(l, e))
  {
    match e
    case SubmitEvent(author, kind, start, end, reviewer, today) =>
        SubmitKeeps(l, author, kind, start, end, reviewer, today);
    case EditEvent(caller, id, kind, start, end, reviewer, today) =>
      if Edit(l, caller, id, kind, start, end, reviewer, today).1.None? { UnapprovedChangeKeeps(l, Next(l, e), id); }
    case CancelEvent(caller, id) =>
      if CancelLeave(l, caller, id).1.None? { UnapprovedChangeKeeps(l, Next(l, e), id); }
    case ReviewEvent(admin, id, approve) => ReviewKeeps(l, admin, id, approve);
    case OpenBalanceEvent(user, year) => BalanceStepKeeps(l, Next(l, e));
    case SetBalanceEvent(admin, user, year, total) => BalanceStepKeeps(l, Next(l, e));
    case MemberEvent(step) => MemberStepKeeps(l, step);
  }

  lemma {:induction false} RunKeeps(l: Ledger, events: seq<Event>)
    requires LedgerInv(l)
    ensures LedgerInv(Run(l, events))
    decreases |events|
  {
    if events == [] {
    } else {
      StepKeeps(l, events[0]);
      RunKeeps(Next(l, events[0]), events[1..]);
    }
  }

  // ---------- main results ----------

  lemma {:induction false} NoDaysYet(user: nat, year: int, n: nat)
    ensures DaysBelow(map[], user, year, n) == 0
  {
    if n == 0 {
    } else {
      NoDaysYet(user, year, n - 1);
    }
  }

  ghost predicate Covers(leaves: map<nat, Leave>, user: nat, year: int, id: nat, d: int) {
    id in leaves && Counts(leaves[id], user, year) && leaves[id].start <= d <= leaves[id].end
  }

  lemma OneMoreId(leaves: map<nat, Leave>, user: nat, year: int, n: nat, d: int)
    requires n > 0
    ensures d in DatesBelow(leaves, user, year, n)
       <==> d in DatesBelow(leaves, user, year, n - 1) || Covers(leaves, user, year, n - 1, d)
  {
  }

  ghost predicate CoveredBelow(leaves: map<nat, Leave>, user: nat, year: int, n: nat, d: int) {
    exists id: nat :: id < n && Covers(leaves, user, year, id, d)
  }

  lemma OneMoreCovers(leaves: map<nat, Leave>, user: nat, year: int, n: nat, d: int)
    requires n > 0
    ensures CoveredBelow(leaves, user, year, n, d)
       <==> CoveredBelow(leaves, user, year, n - 1, d) || Covers(leaves, user, year, n - 1, d)
  {
  }

  lemma {:induction false} DatesBelowMember(leaves: map<nat, Leave>, user: nat, year: int, n: nat, d: int)
    ensures d in DatesBelow(leaves, user, year, n) <==> CoveredBelow(leaves, user, year, n, d)
  {
    if n == 0 {
    } else {
      DatesBelowMember(leaves, user, year, n - 1, d);
      OneMoreId(leaves, user, year, n, d);
      OneMoreCovers(leaves, user, year, n, d);
    }
  }

  lemma OneMoreDisjoint(leaves: map<nat, Leave>, user: nat, year: int, n: nat)
    requires ApprovedDisjoint(leaves) && forall id :: id in leaves ==> leaves[id].start <= leaves[id].end
    requires n in leaves && Counts(leaves[n], user, year)
    ensures var (earlier, own) := (DatesBelow(leaves, user, year, n), DatesOf(leaves[n]));
      |earlier + own| == |earlier| + Days(leaves[n], user, year)
  {
    var (earlier, own) := (DatesBelow(leaves, user, year, n), DatesOf(leaves[n]));
    forall d | d in own
      ensures d !in earlier
    {
      DatesBelowMember(leaves, user, year, n, d);
    }
    assert earlier !! own;
    assert |earlier + own| == |earlier| + |own|;
  }

  /** Disjoint requests: their days add up to the number of distinct days they cover. */
  lemma {:induction false} SumIsDistinctDates(leaves: map<nat, Leave>, user: nat, year: int, n: nat)
    requires ApprovedDisjoint(leaves) && forall id :: id in leaves ==> leaves[id].start <= leaves[id].end
    ensures DaysBelow(leaves, user, year, n) == |DatesBelow(leaves, user, year, n)|
  {
    if n == 0 {
    } else {
      SumIsDistinctDates(leaves, user, year, n - 1);
      if n - 1 in leaves && Counts(leaves[n - 1], user, year) {
        OneMoreDisjoint(leaves, user, year, n - 1);
      }
    }
  }

  /** In every reachable ledger a user's approved leaves are disjoint, and the used days of a year are both
      the sum of the durations and the number of distinct days of the charged leaves starting in it. */
  lemma UsedDaysMeaning(members: map<nat, Member>, allowances: map<nat, nat>, events: seq<Event>, user: nat, year: int)
    ensures var l := Run(Ledger(members, allowances, map[], map[], 0), events);
      && ApprovedDisjoint(l.leaves)
      && UsedDays(l, user, year) == DaysBelow(l.leaves, user, year, l.nextId)
      && UsedDays(l, user, year) == |DatesBelow(l.leaves, user, year, l.nextId)|
  {
    var start := Ledger(members, allowances, map[], map[], 0);
    forall u: nat, y: int
      ensures UsedDays(start, u, y) == DaysBelow(start.leaves, u, y, start.nextId)
    {
      NoDaysYet(u, y, 0);
    }
    RunKeeps(start, events);
    var l := Run(start, events);
    assert UsedDays(l, user, year) == DaysBelow(l.leaves, user, year, l.nextId);
    SumIsDistinctDates(l.leaves, user, year, l.nextId);
  }

  predicate OverLimit(l: Ledger, user: nat, year: int) {
    (user, year) in l.balances && l.balances[(user, year)].used > l.balances[(user, year)].total
  }

  /** A balance is exceeded only by setting its total below what is already used. */
  lemma OnlyLoweringExceeds(l: Ledger, e: Event, user: nat, year: int)
    requires LedgerInv(l) && !OverLimit(l, user, year) && OverLimit(Next(l, e), user, year)
    ensures e.SetBalanceEvent? && e.user == user && e.year == year && e.total < UsedDays(l, user, year)
  {
    if e.ReviewEvent? && Review(l, e.admin, e.id, e.approve).1.None? {
      ReviewMovesExactly(l, e.admin, e.id, e.approve);
    }
  }

  /** Every total set in the run covers what was used at that moment. */
  ghost predicate NeverLowers(l: Ledger, events: seq<Event>)
    decreases |events|
  {
    events == [] ||
    ((events[0].SetBalanceEvent? ==> events[0].total >= UsedDays(l, events[0].user, events[0].year))
     && NeverLowers(Next(l, events[0]), events[1..]))
  }

  lemma {:induction false} UsedStaysWithinTotal(l: Ledger, events: seq<Event>, user: nat, year: int)
    requires LedgerInv(l) && !OverLimit(l, user, year) && NeverLowers(l, events)
    ensures !OverLimit(Run(l, events), user, year)
    decreases |events|
  {
    if events == [] {
    } else {
      var next := Next(l, events[0]);
      if OverLimit(next, user, year) {
        OnlyLoweringExceeds(l, events[0], user, year);
      }
      StepKeeps(l, events[0]);
      UsedStaysWithinTotal(next, events[1..], user, year);
    }
  }
}
