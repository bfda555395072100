/** Scans that overlap: validation reads the row of the pass, decides, and saves the whole row without a lock. */
module GuestPassRaces {
  import opened Options
  import opened GuestPasses

  /** The row, and for each desk in the middle of an accepted scan the row it read and when. */
  datatype System = System(row: Pass, scans: map<nat, (Pass, int)>)

  datatype Action = Read(desk: nat, now: int) | Save(desk: nat) | Other(event: Event, now: int)

  /** The columns of the row agree; the log and the mails are kept elsewhere. */
  predicate SameColumns(a: Pass, b: Pass) {
    a.(logRows := b.logRows, sends := b.sends) == b
  }

  /** The row after a scan saves what it read, with one use more, and logs it. */
  function Saved(current: Pass, read: Pass): Pass {
    read.(timesUsed := read.timesUsed + 1, status := if read.usage.Single? then Used else read.status,
          logRows := current.logRows + 1, sends := current.sends)
  }

  /** A scan that is refused ends with its reading. */
  function Step(s: System, a: Action): System {
    match a
    case Read(desk, now) =>
      if desk in s.scans || VerdictOn(s.row, now) != Accepted then s
      else s.(scans := s.scans[desk := (s.row, now)])
    case Save(desk) =>
      if desk !in s.scans then s else System(Saved(s.row, s.scans[desk].0), s.scans - {desk})
    case Other(event, now) =>
      if event.ValidateEvent? then s else s.(row := Next(s.row, event, now))
  }

  function Steps(s: System, actions: seq<Action>): System
    decreases |actions|
  {
    if actions == [] then s else Steps(Step(s, actions[0]), actions[1..])
  }

  /** Saving is the atomic validation of the row as it stands exactly when no column was written since the reading. */
  lemma SaveIsValidation(current: Pass, read: Pass, now: int)
    requires VerdictOn(read, now) == Accepted
    ensures Saved(current, read) == Validate(current, now).0 <==> SameColumns(current, read)
  {
    ValidateMeaning(current, now);
    if Saved(current, read) == Validate(current, now).0 {
      assert Validate(current, now).0.logRows == current.logRows + 1;
    }
  }

  /** Every save of the run finds the columns that its scan read. */
  predicate Undisturbed(s: System, actions: seq<Action>)
    decreases |actions|
  {
    actions == [] ||
    ((actions[0].Save? && actions[0].desk in s.scans ==> SameColumns(s.row, s.scans[actions[0].desk].0))
     && Undisturbed(Step(s, actions[0]), actions[1..]))
  }

  /** The run with each scan as one validation at the moment of its save, judged by the clock of its reading. */
  function Atomic(s: System, actions: seq<Action>): seq<(Event, int)>
    decreases |actions|
  {
    if actions == [] then []
    else
      var rest := Atomic(Step(s, actions[0]), actions[1..]);
      match actions[0]
      case Read(_, _) => rest
      case Save(desk) => if desk in s.scans then [(ValidateEvent, s.scans[desk].1)] + rest else rest
      case Other(event, now) => if event.ValidateEvent? then rest else [(event, now)] + rest
  }

  ghost predicate ScansAccepted(s: System) {
    forall desk :: desk in s.scans ==> VerdictOn(s.scans[desk].0, s.scans[desk].1) == Accepted
  }

  /** Undisturbed scans may overlap as they like: the row ends as in the run of atomic validations. */
  lemma {:induction false} UndisturbedIsAtomic(s: System, actions: seq<Action>)
    requires ScansAccepted(s) && Undisturbed(s, actions)
    ensures Steps(s, actions).row == Run(s.row, Atomic(s, actions))
    decreases |actions|
  {
    if actions == [] {
    } else {
      var (a, next) := (actions[0], Step(s, actions[0]));
      UndisturbedIsAtomic(next, actions[1..]);
      if a.Save? && a.desk in s.scans {
        var (read, now) := s.scans[a.desk];
        SaveIsValidation(s.row, read, now);
        RunAfter(s.row, ValidateEvent, now, Atomic(next, actions[1..]));
      } else if a.Other? && !a.event.ValidateEvent? {
        RunAfter(s.row, a.event, a.now, Atomic(next, actions[1..]));
      }
    }
  }

  lemma RunAfter(p: Pass, e: Event, now: int, rest: seq<(Event, int)>)
    ensures Run(p, [(e, now)] + rest) == Run(Next(p, e, now), rest)
  {
    assert ([(e, now)] + rest)[1..] == rest;
  }

  /** So with undisturbed scans a single-use pass is accepted at most once, uses are logged rows, and a pass that has
      left `active` never returns to it. */
  lemma UndisturbedKeepsCounted(p: Pass, actions: seq<Action>)
    requires Counted(p) && Undisturbed(System(p, map[]), actions)
    ensures var after := Steps(System(p, map[]), actions).row;
      Counted(after) && (after.usage.Single? ==> after.logRows <= 1) && (!p.status.Active? ==> !after.status.Active?)
  {
    UndisturbedIsAtomic(System(p, map[]), actions);
    RunKeepsCounted(p, Atomic(System(p, map[]), actions));
  }

  lemma FourSteps(s: System, a: Action, b: Action, c: Action, d: Action)
    ensures Steps(s, [a, b, c, d]) == Step(Step(Step(Step(s, a), b), c), d)
  {
    assert [a, b, c, d][1..] == [b, c, d] && [b, c, d][1..] == [c, d] && [c, d][1..] == [d] && [d][1..] == [];
    assert Steps(Step(Step(s, a), b), [c, d]) == Steps(Step(Step(Step(s, a), b), c), [d]);
  }

  /** Two desks that read the same pass before either saves both accept it, even for single use, and one use is
      counted for the two rows logged. */
  lemma OverlappingScansBothAccept(p: Pass, now: int)
    requires IsValid(p, now)
    ensures var after := Steps(System(p, map[]), [Read(0, now), Read(1, now), Save(0), Save(1)]).row;
      after.logRows == p.logRows + 2 && after.timesUsed == p.timesUsed + 1
  {
    ValidateMeaning(p, now);
    FourSteps(System(p, map[]), Read(0, now), Read(1, now), Save(0), Save(1));
  }

  /** A revocation between the reading and the save of a multi-use pass is undone. */
  lemma RevocationIsLost(p: Pass, now: int)
    requires IsValid(p, now) && p.usage.Multi?
    ensures var revoked := Steps(System(p, map[]), [Read(0, now), Other(RevokeEvent, now)]);
      revoked.row.status.Revoked? && Step(revoked, Save(0)).row.status.Active?
  {
    ValidateMeaning(p, now);
    var s := System(p, map[]);
    assert [Read(0, now), Other(RevokeEvent, now)][1..] == [Other(RevokeEvent, now)];
    assert [Other(RevokeEvent, now)][1..] == [];
    assert Steps(Step(s, Read(0, now)), [Other(RevokeEvent, now)])
        == Steps(Step(Step(s, Read(0, now)), Other(RevokeEvent, now)), []);
  }

  // ---------- the limiter under overlapping scans ----------

  /** What the limiter keeps in the row. */
  predicate SameLimiter(a: Pass, b: Pass) {
    a.attempts == b.attempts && a.windowStart == b.windowStart
  }

  /** Saving what a scan read leaves the limiter in step with the mails exactly when neither of its two columns was
      written since. */
  lemma SaveKeepsLimiter(current: Pass, read: Pass, clock: int)
    requires LimiterInv(current, clock)
    ensures LimiterInv(Saved(current, read), clock) <==> SameLimiter(current, read)
  {
    var (after, n) := (Saved(current, read), |current.sends|);
    if LimiterInv(after, clock) && n > 0 {
      assert current.sends[n - 1].window == current.windowStart.value;
      assert after.sends[n - 1].window == after.windowStart.value;
      assert current.windowStart == read.windowStart;
      var (i, j) := (n - current.attempts, n - read.attempts);
      assert current.sends[i].window == current.windowStart.value;
      assert after.sends[j].window == after.windowStart.value;
      assert j <= i && i <= j;
    }
  }

  /** Every save of the run finds the limiter columns that its scan read. */
  predicate LimiterUndisturbed(s: System, actions: seq<Action>)
    decreases |actions|
  {
    actions == [] ||
    ((actions[0].Save? && actions[0].desk in s.scans ==> SameLimiter(s.row, s.scans[actions[0].desk].0))
     && LimiterUndisturbed(Step(s, actions[0]), actions[1..]))
  }

  /** The clock of the requests that are not scans never goes back. */
  predicate OthersInOrder(start: int, actions: seq<Action>)
    decreases |actions|
  {
    actions == [] ||
    (if actions[0].Other? then start <= actions[0].now && OthersInOrder(actions[0].now, actions[1..])
     else OthersInOrder(start, actions[1..]))
  }

  lemma {:induction false} UndisturbedKeepsPace(s: System, clock: int, actions: seq<Action>)
    requires LimiterInv(s.row, clock) && LimiterUndisturbed(s, actions) && OthersInOrder(clock, actions)
    ensures Paced(Steps(s, actions).row.sends)
    decreases |actions|
  {
    if actions == [] {
    } else {
      var (a, next) := (actions[0], Step(s, actions[0]));
      match a {
        case Read(_, _) =>
        case Save(desk) =>
          if desk in s.scans {
            SaveKeepsLimiter(s.row, s.scans[desk].0, clock);
          }
        case Other(event, now) =>
          if event.ResendEvent? {
            ResendKeepsPace(s.row, clock, now, event.cacheAttempts);
          } else {
            OtherStepsKeepPace(s.row, event, clock, now);
          }
      }
      UndisturbedKeepsPace(next, if a.Other? then a.now else clock, actions[1..]);
    }
  }

  /** So while no save restores the limiter, scans may overlap as they like: three in a window, five in an hour. */
  lemma UndisturbedResendsAreLimited(usage: Usage, validFrom: int, validUntil: int, clock: int, actions: seq<Action>,
                                     t: int)
    requires LimiterUndisturbed(System(NewPass(usage, validFrom, validUntil), map[]), actions)
    requires OthersInOrder(clock, actions)
    ensures var sends := Steps(System(NewPass(usage, validFrom, validUntil), map[]), actions).row.sends;
      |SentInWindow(sends, t)| <= 3 && |SentBetween(sends, t, t + WINDOW)| <= 5
  {
    var s := System(NewPass(usage, validFrom, validUntil), map[]);
    UndisturbedKeepsPace(s, clock, actions);
    PacedIsLimited(Steps(s, actions).row.sends, t);
  }

  /** A scan that reads, three resends, and the save of the scan. */
  function Round(t: int): seq<Action> {
    var resend := Other(ResendEvent(None), t);
    [Read(0, t), resend, resend, resend, Save(0)]
  }

  function Rounds(t: int, n: nat): seq<Action> {
    if n == 0 then [] else Round(t) + Rounds(t, n - 1)
  }

  /** The limiter has counted nothing, or its save has been restored to that. */
  predicate Fresh(p: Pass, t: int) {
    IsValid(p, t) && p.usage.Multi? && p.windowStart.None? && p.attempts == 0
  }

  lemma OneRound(p: Pass, t: int, rest: seq<Action>)
    requires Fresh(p, t)
    ensures var send := Send(t, t);
      var after := p.(timesUsed := p.timesUsed + 1, logRows := p.logRows + 1, sends := p.sends + [send, send, send]);
      Fresh(after, t) && Steps(System(p, map[]), Round(t) + rest) == Steps(System(after, map[]), rest)
  {
    var resend := Other(ResendEvent(None), t);
    ValidateMeaning(p, t);
    var s0 := System(p, map[0 := (p, t)]);
    assert Step(System(p, map[]), Read(0, t)) == s0;
    StepFirst(System(p, map[]), Read(0, t), [resend, resend, resend] + ([Save(0)] + rest));
    assert Round(t) + rest == [Read(0, t)] + ([resend, resend, resend] + ([Save(0)] + rest));
    var sent := ThreeSends(s0, t, [Save(0)] + rest);
    StepFirst(s0.(row := sent), Save(0), rest);
    assert map[0 := (p, t)] - {0} == map[];
  }

  lemma ThreeSends(s: System, t: int, rest: seq<Action>) returns (sent: Pass)
    requires Fresh(s.row, t)
    ensures var resend := Other(ResendEvent(None), t);
      Steps(s, [resend, resend, resend] + rest) == Steps(s.(row := sent), rest)
    ensures sent == s.row.(windowStart := Some(t), attempts := 3, sends := sent.sends)
    ensures sent.sends == s.row.sends + [Send(t, t), Send(t, t), Send(t, t)]
  {
    var (resend, send, p) := (Other(ResendEvent(None), t), Send(t, t), s.row);
    var p1 := p.(windowStart := Some(t), attempts := 1, sends := p.sends + [send]);
    var p2 := p1.(attempts := 2, sends := p1.sends + [send]);
    sent := p2.(attempts := 3, sends := p2.sends + [send]);
    StepFirst(s, resend, [resend, resend] + rest);
    StepFirst(s.(row := p1), resend, [resend] + rest);
    StepFirst(s.(row := p2), resend, rest);
    assert [resend, resend, resend] + rest == [resend] + ([resend, resend] + rest);
    assert [resend, resend] + rest == [resend] + ([resend] + rest);
  }

  lemma StepFirst(s: System, a: Action, rest: seq<Action>)
    ensures Steps(s, [a] + rest) == Steps(Step(s, a), rest)
  {
    assert ([a] + rest)[1..] == rest;
  }

  lemma {:induction false} RoundsSend(p: Pass, t: int, n: nat)
    requires Fresh(p, t)
    ensures var after := Steps(System(p, map[]), Rounds(t, n)).row;
      |after.sends| == |p.sends| + 3 * n && forall i :: |p.sends| <= i < |after.sends| ==> after.sends[i] == Send(t, t)
    decreases n
  {
    if n == 0 {
    } else {
      var send := Send(t, t);
      var q := p.(timesUsed := p.timesUsed + 1, logRows := p.logRows + 1, sends := p.sends + [send, send, send]);
      OneRound(p, t, Rounds(t, n - 1));
      RoundsSend(q, t, n - 1);
      RoundsKeepEarlier(q, t, n - 1);
    }
  }

  /** Earlier mails stay in the list. */
  lemma {:induction false} RoundsKeepEarlier(p: Pass, t: int, n: nat)
    requires Fresh(p, t)
    ensures p.sends <= Steps(System(p, map[]), Rounds(t, n)).row.sends
    decreases n
  {
    if n == 0 {
    } else {
      var send := Send(t, t);
      var q := p.(timesUsed := p.timesUsed + 1, logRows := p.logRows + 1, sends := p.sends + [send, send, send]);
      OneRound(p, t, Rounds(t, n - 1));
      RoundsKeepEarlier(q, t, n - 1);
    }
  }

  /** With scans of a multi-use pass overlapping the resends there is no limit: n scans let 3 n mails go out at one
      moment, all counted in one window, when the cache does not answer. */
  lemma ScansLiftTheLimit(validUntil: int, t: int, n: nat)
    requires t <= validUntil
    ensures var sends := Steps(System(NewPass(Multi, t, validUntil), map[]), Rounds(t, n)).row.sends;
      |SentInWindow(sends, t)| == 3 * n && |SentBetween(sends, t, t + WINDOW)| == 3 * n
  {
    var p := NewPass(Multi, t, validUntil);
    RoundsSend(p, t, n);
    var sends := Steps(System(p, map[]), Rounds(t, n)).row.sends;
    assert SentInWindow(sends, t) == Interval(0, 3 * n) == SentBetween(sends, t, t + WINDOW);
  }
}
