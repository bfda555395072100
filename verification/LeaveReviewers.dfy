/** Who can still review a pending request, after every step that changes the members of a company. */
module LeaveReviewers {
  import opened Options
  import opened LeaveLedger
  import opened LeaveRuns

  /** Some active admin of the company may act on the request. */
  ghost predicate Reviewable(l: Ledger, x: Leave) {
    exists u :: u in l.members && u != x.user && IsAdminOf(l.members, u, Some(x.company))
             && (x.reviewer.None? || x.reviewer.value == u)
  }

  /** Being reviewable is what the review request tests: some active user's rejection goes through. */
  lemma ReviewableMeaning(l: Ledger, id: nat)
    requires id in l.leaves
    ensures Reviewable(l, l.leaves[id])
       <==> exists u :: u in l.members && l.members[u].isActive && Review(l, u, id, false).1.None?
  {
    var x := l.leaves[id];
    forall u | u in l.members && l.members[u].isActive
      ensures Review(l, u, id, false).1.None?
         <==> u != x.user && IsAdminOf(l.members, u, Some(x.company)) && (x.reviewer.None? || x.reviewer.value == u)
    {
    }
  }

  /** A filed request can be reviewed iff it names a reviewer or the company has another active admin. */
  lemma FiledIsReviewable(l: Ledger, author: nat, kind: Kind, start: int, end: int, reviewer: Option<nat>, today: int)
    requires Submit(l, author, kind, start, end, reviewer, today).1.None?
    ensures var after := Submit(l, author, kind, start, end, reviewer, today).0;
      Reviewable(after, after.leaves[l.nextId])
      <==> reviewer.Some? || HasStandIn(l.members, l.members[author].company.value, author, author)
  {
  }

  // ---------- losing reviewers ----------

  /** The steps after which somebody may no longer review. */
  predicate Loses(step: MemberStep) {
    || step.Deactivation? || step.Removal? || step.Blocking? || step.UserDeletion? || step.CompanyDeactivation?
    || (step.RoleChange? && !step.toAdmin)
  }

  predicate Lost(l: Ledger, u: nat, step: MemberStep)
    requires Loses(step)
  {
    if step.CompanyDeactivation? then u in l.members && l.members[u].company == Some(step.company) else u == step.target
  }

  /** The request waits for the one lost, and the step looks for a stand-in or else cancels it. */
  predicate Settles(l: Ledger, x: Leave, step: MemberStep) {
    && (step.Deactivation? || step.Removal?) && step.target in l.members
    && x.reviewer == Some(step.target) && l.members[step.target].company == Some(x.company)
  }

  /** The request waits for the one lost, whose row is deleted, and so waits for nobody in particular afterwards. */
  predicate Releases(l: Ledger, x: Leave, step: MemberStep) {
    && step.UserDeletion? && step.target in l.members && !l.members[step.target].role.SuperAdmin?
    && x.reviewer == Some(step.target)
  }

  /** Somebody who is not lost may act on the request, or may once it waits for nobody in particular. */
  ghost predicate Covered(l: Ledger, x: Leave, step: MemberStep, released: bool)
    requires Loses(step)
  {
    exists u :: u in l.members && !Lost(l, u, step) && u != x.user && IsAdminOf(l.members, u, Some(x.company))
             && (released || x.reviewer.None? || x.reviewer.value == u)
  }

  lemma AdminsAfterLoss(l: Ledger, step: MemberStep, u: nat, company: nat)
    requires Loses(step)
    ensures IsAdminOf(Apply(l, step).members, u, Some(company))
       <==> IsAdminOf(l.members, u, Some(company)) && !Lost(l, u, step)
  {
  }

  /** The row of a pending request after the loss. */
  lemma RowAfterLoss(l: Ledger, step: MemberStep, id: nat)
    requires Loses(step) && id in l.leaves && l.leaves[id].status.Pending? && id in Apply(l, step).leaves
    ensures var (x, y) := (l.leaves[id], Apply(l, step).leaves[id]);
      && y.user == x.user && y.company == x.company
      && y.reviewer == (if Settles(l, x, step) || Releases(l, x, step) then None else x.reviewer)
      && y.status == (if Settles(l, x, step) && !Covered(l, x, step, true) then Cancelled else Pending)
  {
    var (x, after) := (l.leaves[id], Apply(l, step));
    if Settles(l, x, step) {
      var members := if step.Removal? then l.members else after.members;
      forall u
        ensures u in members && u != step.target && IsAdminOf(members, u, Some(x.company))
           <==> u in l.members && !Lost(l, u, step) && IsAdminOf(l.members, u, Some(x.company))
      {
      }
      assert HasStandIn(members, x.company, step.target, x.user) <==> Covered(l, x, step, true);
    }
  }

  /** What becomes of every pending request when somebody may no longer review: it stays reviewable iff it is covered;
      of the others those that the step settles are cancelled, and the rest are stranded. */
  lemma LossDecidesEveryRequest(l: Ledger, step: MemberStep, id: nat)
    requires Loses(step) && id in l.leaves && l.leaves[id].status.Pending? && id in Apply(l, step).leaves
    ensures var (x, after) := (l.leaves[id], Apply(l, step));
            var y := after.leaves[id];
            var (settles, covered) :=
              (Settles(l, x, step), Covered(l, x, step, Settles(l, x, step) || Releases(l, x, step)));
      && (y.status.Pending? && Reviewable(after, y) <==> covered)
      && (y.status.Cancelled? <==> settles && !covered)
      && (y.status.Pending? && !Reviewable(after, y) <==> !settles && !covered)
  {
    var (x, after) := (l.leaves[id], Apply(l, step));
    RowAfterLoss(l, step, id);
    forall u: nat
      ensures IsAdminOf(after.members, u, Some(x.company))
         <==> IsAdminOf(l.members, u, Some(x.company)) && !Lost(l, u, step)
    {
      AdminsAfterLoss(l, step, u, x.company);
    }
  }

  /** Nobody but those lost could act on a request of the company by this author. */
  ghost predicate NobodyElse(l: Ledger, x: Leave, step: MemberStep)
    requires Loses(step)
  {
    forall u :: u in l.members && u != x.user && IsAdminOf(l.members, u, Some(x.company)) ==> Lost(l, u, step)
  }

  /** A request that could be reviewed and now waits in vain: it waited for nobody in particular, or its reviewer was
      deleted, and only those lost could act; or it waits for one of those lost and the step settles nothing. */
  lemma LossStrandsExactly(l: Ledger, step: MemberStep, id: nat)
    requires Loses(step) && id in l.leaves && l.leaves[id].status.Pending? && Reviewable(l, l.leaves[id])
    requires id in Apply(l, step).leaves
    ensures var (x, after) := (l.leaves[id], Apply(l, step));
      (after.leaves[id].status.Pending? && !Reviewable(after, after.leaves[id]))
      <==> (if x.reviewer.None? || Releases(l, x, step) then NobodyElse(l, x, step)
            else Lost(l, x.reviewer.value, step) && !Settles(l, x, step))
  {
    LossDecidesEveryRequest(l, step, id);
    var x := l.leaves[id];
    var u :| u in l.members && u != x.user && IsAdminOf(l.members, u, Some(x.company))
          && (x.reviewer.None? || x.reviewer.value == u);
  }

  /** Settling looks at assigned requests only: one that is open to every admin of a company whose only other admin is
      deactivated stays as it is, and every review of it is refused. */
  lemma UnassignedRequestIsStranded(l: Ledger, step: MemberStep, id: nat)
    requires Loses(step) && id in l.leaves && l.leaves[id].status.Pending? && l.leaves[id].reviewer.None?
    requires NobodyElse(l, l.leaves[id], step) && id in Apply(l, step).leaves
    ensures var after := Apply(l, step);
      && after.leaves[id].status.Pending? && after.leaves[id].reviewer.None?
      && forall u, approve :: u in after.members && after.members[u].isActive ==> Review(after, u, id, approve).1.Some?
  {
    LossDecidesEveryRequest(l, step, id);
    RowAfterLoss(l, step, id);
  }

  /** An admin who blocks or deletes the account, is demoted, or whose company is deactivated leaves the requests
      assigned to them pending, however many other admins there are, and every review of them is refused. */
  lemma AssignedRequestIsStranded(l: Ledger, step: MemberStep, id: nat)
    requires step.Blocking? || step.CompanyDeactivation? || (step.RoleChange? && !step.toAdmin)
    requires id in l.leaves && l.leaves[id].status.Pending? && l.leaves[id].reviewer.Some?
    requires Lost(l, l.leaves[id].reviewer.value, step)
    ensures var after := Apply(l, step);
      && id in after.leaves && after.leaves[id] == l.leaves[id]
      && forall u, approve :: u in after.members && after.members[u].isActive ==> Review(after, u, id, approve).1.Some?
  {
    LossDecidesEveryRequest(l, step, id);
    RowAfterLoss(l, step, id);
  }

  // ---------- nothing else strands ----------

  /** Steps that only add members and admins. */
  lemma GainStrandsNothing(l: Ledger, step: MemberStep, id: nat)
    requires !Loses(step) && id in l.leaves && Reviewable(l, l.leaves[id])
    ensures var after := Apply(l, step);
      id in after.leaves && after.leaves[id] == l.leaves[id] && Reviewable(after, after.leaves[id])
  {
    var x := l.leaves[id];
    var u :| u in l.members && u != x.user && IsAdminOf(l.members, u, Some(x.company))
          && (x.reviewer.None? || x.reviewer.value == u);
    assert IsAdminOf(Apply(l, step).members, u, Some(x.company));
  }

  /** No other step strands a pending request whose author still belongs to its company. */
  lemma OnlyLossStrands(l: Ledger, e: Event, id: nat)
    requires id in l.leaves && l.leaves[id].status.Pending? && Reviewable(l, l.leaves[id])
    requires LedgerInv(l) && l.leaves[id].user in l.members
    requires l.members[l.leaves[id].user].company == Some(l.leaves[id].company)
    requires id in Next(l, e).leaves && Next(l, e).leaves[id].status.Pending?
    requires !Reviewable(Next(l, e), Next(l, e).leaves[id])
    ensures e.MemberEvent? && Loses(e.step)
    ensures exists u :: u in l.members && Lost(l, u, e.step) && IsAdminOf(l.members, u, Some(l.leaves[id].company))
  {
    var x := l.leaves[id];
    var u :| u in l.members && u != x.user && IsAdminOf(l.members, u, Some(x.company))
          && (x.reviewer.None? || x.reviewer.value == u);
    if e.MemberEvent? {
      if !Loses(e.step) {
        GainStrandsNothing(l, e.step, id);
      } else {
        LossDecidesEveryRequest(l, e.step, id);
        assert Lost(l, u, e.step);
      }
    }
  }
}
