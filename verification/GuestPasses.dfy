/** Guest passes: validation at the desk, revocation, expiry and the resend limiter (apps/access). */
module GuestPasses {
  import opened Options
  import opened FiniteSets

  const WINDOW := 60
  const MAX_PER_WINDOW := 3

  datatype Status = Active | Used | Expired | Revoked
  datatype Usage = Single | Multi

  /** A resent mail: when it was sent and when the limiter window it was counted in began. */
  datatype Send = Send(time: int, window: int)

  /** The row of a pass, with the rows validation has logged for it and the mails resent for it. */
  datatype Pass = Pass(
    status: Status, usage: Usage, validFrom: int, validUntil: int, timesUsed: nat,
    attempts: nat, windowStart: Option<int>, logRows: nat, sends: seq<Send>)

  datatype Verdict = Accepted | NotYetActive | PassExpired | PassRevoked | AlreadyUsed | NotFound

  datatype Answer = Sent | WrongStatus | LimitExceeded

  function NewPass(usage: Usage, validFrom: int, validUntil: int): Pass {
    Pass(Active, usage, validFrom, validUntil, 0, 0, None, 0, [])
  }

  predicate IsValid(p: Pass, now: int) {
    && p.status.Active?
    && !(now < p.validFrom)
    && !(now > p.validUntil)
    && !(p.usage.Single? && p.timesUsed > 0)
  }

  function VerdictOn(p: Pass, now: int): Verdict {
    if now < p.validFrom then NotYetActive
    else if p.validUntil < now then PassExpired
    else if p.status.Revoked? then PassRevoked
    else if p.status.Used? || (p.usage.Single? && p.timesUsed > 0) then AlreadyUsed
    else if !p.status.Active? then NotFound
    else Accepted
  }

  function Validate(p: Pass, now: int): (Pass, Verdict) {
    var verdict := VerdictOn(p, now);
    if verdict != Accepted then (p, verdict)
    else (p.(timesUsed := p.timesUsed + 1, logRows := p.logRows + 1,
             status := if p.usage.Single? then Used else p.status), Accepted)
  }

  function Revoke(p: Pass): (Pass, bool) {
    if p.status.Used? || p.status.Expired? then (p, false) else (p.(status := Revoked), true)
  }

  function Expire(p: Pass, now: int): Pass {
    if p.status.Active? && p.validUntil < now then p.(status := Expired) else p
  }

  predicate WindowOver(p: Pass, now: int) {
    p.windowStart.None? || p.windowStart.value < now - WINDOW
  }

  /** `cacheAttempts` is what the shared cache counted, if it answered at all. */
  function Resend(p: Pass, now: int, cacheAttempts: Option<nat>): (Pass, Answer) {
    if !p.status.Active? then (p, WrongStatus)
    else
      var start := if WindowOver(p, now) then now else p.windowStart.value;
      var attempts := if WindowOver(p, now) then 0 else p.attempts;
      if attempts >= MAX_PER_WINDOW || (cacheAttempts.Some? && cacheAttempts.value > MAX_PER_WINDOW)
      then (p, LimitExceeded)
      else (p.(windowStart := Some(start), attempts := attempts + 1, sends := p.sends + [Send(now, start)]), Sent)
  }

  /** The row of a pass updated in place. */
  class PassRow {
    var status: Status
    const usage: Usage
    const validFrom: int
    const validUntil: int
    var timesUsed: nat
    var attempts: nat
    var windowStart: Option<int>
    ghost var logRows: nat
    ghost var sends: seq<Send>

    ghost function State(): Pass
      reads this
    {
      Pass(status, usage, validFrom, validUntil, timesUsed, attempts, windowStart, logRows, sends)
    }

    constructor (usage: Usage, validFrom: int, validUntil: int)
      ensures State() == NewPass(usage, validFrom, validUntil)
    {
      status := Active;
      this.usage, this.validFrom, this.validUntil := usage, validFrom, validUntil;
      timesUsed, attempts, windowStart, logRows, sends := 0, 0, None, 0, [];
    }

    method ValidateQr(now: int) returns (verdict: Verdict)
      modifies this
      ensures (State(), verdict) == Validate(old(State()), now)
    {
      if now < validFrom {
        return NotYetActive;
      }
      if validUntil < now {
        return PassExpired;
      }
      if status.Revoked? {
        return PassRevoked;
      }
      if status.Used? || (usage.Single? && timesUsed > 0) {
        return AlreadyUsed;
      }
      if !status.Active? {
        return NotFound;
      }
      timesUsed := timesUsed + 1;
      if usage.Single? {
        status := Used;
      }
      logRows := logRows + 1;
      verdict := Accepted;
    }

    method RevokePass() returns (done: bool)
      modifies this`status
      ensures (State(), done) == Revoke(old(State()))
    {
      if status.Used? || status.Expired? {
        return false;
      }
      status := Revoked;
      done := true;
    }

    method ExpirePass(now: int)
      modifies this`status
      ensures State() == Expire(old(State()), now)
    {
      if status.Active? && validUntil < now {
        status := Expired;
      }
    }

    /** A rejected attempt saves nothing, not even the reset of the window. */
    method ResendMail(now: int, cacheAttempts: Option<nat>) returns (answer: Answer)
      modifies this`attempts, this`windowStart, this`sends
      ensures (State(), answer) == Resend(old(State()), now, cacheAttempts)
    {
      if !status.Active? {
        return WrongStatus;
      }
      var lockedStart, lockedAttempts := windowStart, attempts;
      if lockedStart.None? || lockedStart.value < now - WINDOW {
        lockedStart, lockedAttempts := Some(now), 0;
      }
      if lockedAttempts >= MAX_PER_WINDOW || (cacheAttempts.Some? && cacheAttempts.value > MAX_PER_WINDOW) {
        return LimitExceeded;
      }
      windowStart, attempts := lockedStart, lockedAttempts + 1;
      sends := sends + [Send(now, lockedStart.value)];
      answer := Sent;
    }
  }

  // ---------- runs ----------

  datatype Event = ValidateEvent | RevokeEvent | ExpireEvent | ResendEvent(cacheAttempts: Option<nat>)

  function Next(p: Pass, e: Event, now: int): Pass {
    match e
    case ValidateEvent => Validate(p, now).0
    case RevokeEvent => Revoke(p).0
    case ExpireEvent => Expire(p, now)
    case ResendEvent(cacheAttempts) => Resend(p, now, cacheAttempts).0
  }

  function Run(p: Pass, trace: seq<(Event, int)>): Pass
    decreases |trace|
  {
    if trace == [] then p else Run(Next(p, trace[0].0, trace[0].1), trace[1..])
  }

  ghost predicate ClockRuns(start: int, trace: seq<(Event, int)>)
    decreases |trace|
  {
    trace == [] || (start <= trace[0].1 && ClockRuns(trace[0].1, trace[1..]))
  }

  /** The desk accepts exactly the passes that are valid at that moment: active, within their dates and, for single
      use, not used before. Only acceptance changes a pass: by one use, one log row and, for single use, the status. */
  lemma ValidateMeaning(p: Pass, now: int)
    ensures Validate(p, now).1.Accepted? <==> IsValid(p, now)
    ensures IsValid(p, now) <==>
      p.status == Active && p.validFrom <= now <= p.validUntil && (p.usage == Single ==> p.timesUsed == 0)
    ensures !IsValid(p, now) ==> Validate(p, now).0 == p
    ensures IsValid(p, now) ==>
      Validate(p, now).0 == p.(status := if p.usage == Single then Used else Active, timesUsed := p.timesUsed + 1,
                               logRows := p.logRows + 1)
    ensures IsValid(p, now) && p.usage.Single? ==> forall later :: !IsValid(Validate(p, now).0, later)
  {
  }

  /** Which refusal a pass gets: its dates come first, then what became of it. */
  lemma RefusalMeaning(p: Pass, now: int)
    ensures Validate(p, now).1.NotYetActive? <==> now < p.validFrom
    ensures Validate(p, now).1.PassExpired? <==> p.validFrom <= now && p.validUntil < now
    ensures Validate(p, now).1.PassRevoked? <==> p.validFrom <= now <= p.validUntil && p.status == Revoked
    ensures Validate(p, now).1.AlreadyUsed? <==>
      p.validFrom <= now <= p.validUntil && p.status != Revoked
      && (p.status == Used || (p.usage == Single && p.timesUsed > 0))
  {
  }

  /** The job expires exactly the active passes past their end, and takes nothing from a pass: from then on the desk
      accepts it exactly when it would have without the job. */
  lemma ExpireMeaning(p: Pass, now: int, later: int)
    requires now <= later
    ensures Expire(p, now) == (if p.status == Active && p.validUntil < now
                               then p.(status := Expired) else p)
    ensures Validate(Expire(p, now), later).1.Accepted? <==> Validate(p, later).1.Accepted?
  {
  }

  /** A revocation goes through unless the pass is used or expired, and from then on no desk accepts the pass. */
  lemma RevokeMeaning(p: Pass, later: int)
    ensures Revoke(p).1 <==> p.status == Active || p.status == Revoked
    ensures Revoke(p).1 ==> Revoke(p).0.status == Revoked && !Validate(Revoke(p).0, later).1.Accepted?
    ensures Revoke(p).0.(status := p.status) == p && (!Revoke(p).1 ==> Revoke(p).0 == p)
  {
  }

  /** When a mail goes out, and how it is counted: in the window of the row for 60 minutes, then in a new one. */
  lemma ResendMeaning(p: Pass, now: int, cacheAttempts: Option<nat>)
    ensures var (after, answer) := Resend(p, now, cacheAttempts);
      var open := p.windowStart.Some? && now <= p.windowStart.value + 60;
      && (answer.WrongStatus? <==> p.status != Active)
      && (answer.Sent? <==> p.status == Active && (cacheAttempts.Some? ==> cacheAttempts.value <= 3)
                            && (open ==> p.attempts < 3))
      && (answer.Sent? ==>
            && after.windowStart == (if open then p.windowStart else Some(now))
            && after.attempts == (if open then p.attempts + 1 else 1)
            && after.sends == p.sends + [Send(now, after.windowStart.value)]
            && after == p.(windowStart := after.windowStart, attempts := after.attempts, sends := after.sends))
      && (!answer.Sent? ==> after == p)
  {
  }

  ghost predicate Counted(p: Pass) {
    && p.timesUsed == p.logRows
    && (p.usage.Single? ==> p.timesUsed <= 1)
    && (p.usage.Single? && p.timesUsed == 1 ==> p.status.Used?)
  }

  /** Over any run the uses are the logged rows, a single-use pass is accepted at most once in its whole
      life, and a pass that has left `active` never returns to it. */
  lemma {:induction false} RunKeepsCounted(p: Pass, trace: seq<(Event, int)>)
    requires Counted(p)
    ensures var after := Run(p, trace);
            Counted(after) && (after.usage.Single? ==> after.logRows <= 1)
            && (!p.status.Active? ==> !after.status.Active?)
    decreases |trace|
  {
    if trace == [] {
    } else {
      RunKeepsCounted(Next(p, trace[0].0, trace[0].1), trace[1..]);
    }
  }

  // ---------- the limiter ----------

  ghost predicate InWindow(sends: seq<Send>) {
    forall i :: 0 <= i < |sends| ==> sends[i].window <= sends[i].time <= sends[i].window + WINDOW
  }

  ghost predicate InOrder(sends: seq<Send>) {
    forall i, j :: 0 <= i < j < |sends| ==> sends[i].time <= sends[j].time
  }

  ghost predicate Separated(sends: seq<Send>) {
    forall i, j :: 0 <= i < j < |sends| ==>
      sends[i].window == sends[j].window || sends[i].window + WINDOW < sends[j].window
  }

  ghost predicate Opened(sends: seq<Send>) {
    forall i :: 0 <= i < |sends| ==> OpensOrShares(sends, i)
  }

  /** A mail that opens a window is sent at its beginning. */
  ghost predicate OpensOrShares(sends: seq<Send>, i: nat)
    requires i < |sends|
  {
    (i > 0 && sends[i - 1].window == sends[i].window) || sends[i].time == sends[i].window
  }

  ghost predicate Limited(sends: seq<Send>) {
    forall i, j :: 0 <= i && i + 3 <= j < |sends| ==> sends[i].window != sends[j].window
  }

  /** Sends are in time order, each inside its window; windows are more than an hour apart, begin with
      a send and hold at most three. */
  ghost predicate Paced(sends: seq<Send>) {
    InWindow(sends) && InOrder(sends) && Separated(sends) && Opened(sends) && Limited(sends)
  }

  ghost predicate LimiterInv(p: Pass, clock: int) {
    && Paced(p.sends)
    && (forall i :: 0 <= i < |p.sends| ==> p.sends[i].time <= clock)
    && (p.windowStart.None? <==> p.sends == [])
    && p.attempts <= |p.sends| && p.attempts <= 3
    && (p.sends != [] ==> p.attempts > 0)
    && forall i :: 0 <= i < |p.sends| ==> (p.sends[i].window == p.windowStart.value <==> |p.sends| - p.attempts <= i)
  }

  /** The next send may open a new window, or share the last one while it has room. */
  ghost predicate MayFollow(sends: seq<Send>, now: int, start: int, shared: nat) {
    && start <= now <= start + WINDOW && shared < 3 && shared <= |sends|
    && (forall i :: 0 <= i < |sends| ==> sends[i].time <= now)
    && (forall i :: 0 <= i < |sends| - shared ==> sends[i].window + WINDOW < start)
    && (forall i :: |sends| - shared <= i < |sends| ==> sends[i].window == start)
    && (shared == 0 ==> start == now)
  }

  lemma AppendKeepsPaced(sends: seq<Send>, now: int, start: int, shared: nat)
    requires Paced(sends) && MayFollow(sends, now, start, shared)
    ensures Paced(sends + [Send(now, start)])
  {
    AppendKeepsTimes(sends, now, start, shared);
    AppendOpens(sends, now, start, shared);
    AppendStaysLimited(sends, now, start, shared);
  }

  lemma AppendKeepsTimes(sends: seq<Send>, now: int, start: int, shared: nat)
    requires Paced(sends) && MayFollow(sends, now, start, shared)
    ensures var all := sends + [Send(now, start)]; InWindow(all) && InOrder(all) && Separated(all)
  {
  }

  lemma AppendOpens(sends: seq<Send>, now: int, start: int, shared: nat)
    requires Paced(sends) && MayFollow(sends, now, start, shared)
    ensures Opened(sends + [Send(now, start)])
  {
    var all := sends + [Send(now, start)];
    forall i | 0 <= i < |all|
      ensures OpensOrShares(all, i)
    {
      if i < |sends| {
        assert OpensOrShares(sends, i) && all[i] == sends[i];
      }
    }
  }

  lemma AppendStaysLimited(sends: seq<Send>, now: int, start: int, shared: nat)
    requires Paced(sends) && MayFollow(sends, now, start, shared)
    ensures Limited(sends + [Send(now, start)])
  {
  }

  lemma ResendKeepsPace(p: Pass, clock: int, now: int, cacheAttempts: Option<nat>)
    requires LimiterInv(p, clock) && clock <= now
    ensures LimiterInv(Resend(p, now, cacheAttempts).0, now)
  {
    var after := Resend(p, now, cacheAttempts).0;
    if after != p {
      var over := WindowOver(p, now);
      var start := if over then now else p.windowStart.value;
      var shared := if over then 0 else p.attempts;
      NextMayFollow(p, clock, now, start, shared);
      AppendKeepsPaced(p.sends, now, start, shared);
    }
  }

  lemma NextMayFollow(p: Pass, clock: int, now: int, start: int, shared: nat)
    requires LimiterInv(p, clock) && clock <= now
    requires if WindowOver(p, now) then start == now && shared == 0
             else Some(start) == p.windowStart && shared == p.attempts < 3
    ensures MayFollow(p.sends, now, start, shared)
  {
    var last := |p.sends| - 1;
    if p.sends != [] {
      assert p.sends[last].window == p.windowStart.value && p.sends[last].window <= p.sends[last].time;
    }
    forall i | 0 <= i < |p.sends| - shared
      ensures p.sends[i].window + WINDOW < start
    {
      var (a, b) := (p.sends[i].window, p.sends[last].window);
      assert i < last ==> a == b || a + WINDOW < b;
    }
  }

  lemma OtherStepsKeepPace(p: Pass, e: Event, clock: int, now: int)
    requires LimiterInv(p, clock) && clock <= now && !e.ResendEvent?
    ensures LimiterInv(Next(p, e, now), now)
  {
  }

  lemma {:induction false} RunKeepsLimiter(p: Pass, clock: int, trace: seq<(Event, int)>) returns (end: int)
    requires LimiterInv(p, clock) && ClockRuns(clock, trace)
    ensures clock <= end && LimiterInv(Run(p, trace), end)
    ensures end == if trace == [] then clock else trace[|trace| - 1].1
    decreases |trace|
  {
    end := clock;
    if trace == [] {
    } else {
      var (e, now) := trace[0];
      if e.ResendEvent? {
        ResendKeepsPace(p, clock, now, e.cacheAttempts);
      } else {
        OtherStepsKeepPace(p, e, clock, now);
      }
      end := RunKeepsLimiter(Next(p, e, now), now, trace[1..]);
    }
  }

  lemma RunKeepsPace(p: Pass, clock: int, trace: seq<(Event, int)>)
    requires LimiterInv(p, clock) && ClockRuns(clock, trace)
    ensures Paced(Run(p, trace).sends)
  {
    var end := RunKeepsLimiter(p, clock, trace);
  }

  /** Six sends in a row always span more than an hour. */
  lemma SixSendsSpanAnHour(sends: seq<Send>, i: nat, j: nat)
    requires Paced(sends) && i + 5 <= j < |sends|
    ensures sends[j].time > sends[i].time + WINDOW
  {
    assert sends[i + 5].window <= sends[i + 5].time && (i + 5 < j ==> sends[i + 5].time <= sends[j].time);
    assert sends[i].time <= sends[i].window + WINDOW;
    assert sends[i].window != sends[i + 3].window && sends[i + 2].window != sends[i + 5].window;
    if sends[i].window == sends[i + 2].window {
      assert i > 0 ==> sends[i - 1].window != sends[i + 2].window;
      assert OpensOrShares(sends, i);
    } else {
      assert sends[i].window + WINDOW < sends[i + 2].window;
    }
    assert sends[i + 2].window + WINDOW < sends[i + 5].window;
  }

  /** The n integers from a on. */
  ghost function Interval(a: nat, n: nat): (s: set<nat>)
    ensures |s| == n && forall x :: x in s <==> a <= x < a + n
  {
    if n == 0 then {} else Interval(a, n - 1) + {a + n - 1}
  }

  /** A set of indices from `low` on that spans fewer than n + 1 positions has at most n elements. */
  lemma {:induction false} NarrowSetIsSmall(s: set<nat>, low: nat, high: nat, n: nat)
    requires low <= high && forall x :: x in s ==> low <= x < high
    requires forall x, y :: x in s && y in s ==> x < y + n
    ensures |s| <= n
    decreases high - low
  {
    if low in s {
      assert forall x :: x in s ==> x < low + n;
      SubsetIsSmaller(s, Interval(low, n));
    } else if low < high {
      NarrowSetIsSmall(s, low + 1, high, n);
    } else {
      assert s == {};
    }
  }

  ghost function SentBetween(sends: seq<Send>, from: int, to: int): set<nat> {
    set i: nat | 0 <= i < |sends| && from <= sends[i].time <= to
  }

  ghost function SentInWindow(sends: seq<Send>, window: int): set<nat> {
    set i: nat | 0 <= i < |sends| && sends[i].window == window
  }

  /** All mails of the set were counted in one window. */
  ghost predicate OneWindow(sends: seq<Send>, some: set<nat>) {
    forall i, j :: i in some && j in some ==> i < |sends| && j < |sends| && sends[i].window == sends[j].window
  }

  /** One window holds at most three sends and any closed hour at most five; more than three only if a window opened
      within the hour after sends of the one before. */
  lemma PacedIsLimited(sends: seq<Send>, t: int)
    requires Paced(sends)
    ensures var hour := SentBetween(sends, t, t + WINDOW);
      |SentInWindow(sends, t)| <= 3 && |hour| <= 5 && (|hour| > 3 ==> !OneWindow(sends, hour))
  {
    var (hour, window) := (SentBetween(sends, t, t + WINDOW), SentInWindow(sends, t));
    forall i, j | i in hour && j in hour
      ensures j < i + 5
    {
      if i + 5 <= j {
        SixSendsSpanAnHour(sends, i, j);
      }
    }
    NarrowSetIsSmall(window, 0, |sends|, 3);
    NarrowSetIsSmall(hour, 0, |sends|, 5);
    if OneWindow(sends, hour) {
      NarrowSetIsSmall(hour, 0, |sends|, 3);
    }
  }

  /** For every run of requests that do not overlap, with a clock that never goes back, and whatever the cache adds. */
  lemma ResendsAreLimited(usage: Usage, validFrom: int, validUntil: int, clock: int, trace: seq<(Event, int)>, t: int)
    requires ClockRuns(clock, trace)
    ensures var sends := Run(NewPass(usage, validFrom, validUntil), trace).sends;
            var hour := SentBetween(sends, t, t + WINDOW);
            |SentInWindow(sends, t)| <= 3 && |hour| <= 5 && (|hour| > 3 ==> !OneWindow(sends, hour))
  {
    RunKeepsPace(NewPass(usage, validFrom, validUntil), clock, trace);
    PacedIsLimited(Run(NewPass(usage, validFrom, validUntil), trace).sends, t);
  }

  /** The counter of the row is the number of mails of its window. */
  lemma AttemptsAreSends(p: Pass, clock: int)
    requires LimiterInv(p, clock) && p.windowStart.Some?
    ensures p.attempts == |SentInWindow(p.sends, p.windowStart.value)|
  {
    assert SentInWindow(p.sends, p.windowStart.value) == Interval(|p.sends| - p.attempts, p.attempts);
  }

  /** After any run, and not before its last moment, an active pass is refused a mail that the cache permits exactly
      when the window of its last mail began at most an hour ago and holds three. */
  lemma RefusedMeaning(usage: Usage, validFrom: int, validUntil: int, clock: int, trace: seq<(Event, int)>, now: int,
                       cacheAttempts: Option<nat>)
    requires ClockRuns(clock, trace) && (if trace == [] then clock <= now else trace[|trace| - 1].1 <= now)
    ensures var p := Run(NewPass(usage, validFrom, validUntil), trace);
      p.status == Active && (cacheAttempts.Some? ==> cacheAttempts.value <= 3) ==>
        (Resend(p, now, cacheAttempts).1 == LimitExceeded <==>
          p.sends != [] && now <= p.sends[|p.sends| - 1].window + 60
          && |SentInWindow(p.sends, p.sends[|p.sends| - 1].window)| >= 3)
  {
    var end := RunKeepsLimiter(NewPass(usage, validFrom, validUntil), clock, trace);
    var p := Run(NewPass(usage, validFrom, validUntil), trace);
    ResendMeaning(p, now, cacheAttempts);
    if p.sends != [] {
      assert p.windowStart == Some(p.sends[|p.sends| - 1].window);
      AttemptsAreSends(p, end);
    }
  }

  /** The shared counter of a pass in the cache: when it was created and what it has counted since. */
  datatype Counter = Counter(created: Option<int>, count: nat)

  /** A live counter is raised, an expired one replaced; refused attempts count too. */
  function Ask(c: Counter, now: int): Counter {
    if c.created.None? || c.created.value + WINDOW <= now then Counter(Some(now), 1) else c.(count := c.count + 1)
  }

  /** Resend requests at the given times, each with what the counter answers. */
  function Asked(c: Counter, times: seq<int>): seq<(Event, int)>
    decreases |times|
  {
    if times == [] then []
    else [(ResendEvent(Some(Ask(c, times[0]).count)), times[0])] + Asked(Ask(c, times[0]), times[1..])
  }

  /** The same requests when the cache does not answer. */
  function Unanswered(times: seq<int>): seq<(Event, int)>
    decreases |times|
  {
    if times == [] then [] else [(ResendEvent(None), times[0])] + Unanswered(times[1..])
  }

  /** An answer of at most three changes nothing. */
  predicate Permits(cacheAttempts: Option<nat>) {
    cacheAttempts.None? || cacheAttempts.value <= MAX_PER_WINDOW
  }

  ghost predicate SixPermitted(trace: seq<(Event, int)>) {
    |trace| == 6 && forall i :: 0 <= i < 6 ==> trace[i].0.ResendEvent? && Permits(trace[i].0.cacheAttempts)
  }

  lemma SixSteps(p: Pass, trace: seq<(Event, int)>)
    requires SixPermitted(trace)
    ensures Run(p, trace) == Resent(Resent(Resent(Resent(Resent(Resent(
              p, trace[0].1), trace[1].1), trace[2].1), trace[3].1), trace[4].1), trace[5].1)
  {
    var p1 := Resent(p, trace[0].1);
    var p2 := Resent(p1, trace[1].1);
    var p3 := Resent(p2, trace[2].1);
    var p4 := Resent(p3, trace[3].1);
    var p5 := Resent(p4, trace[4].1);
    RunFirst(p, trace);
    RunFirst(p1, trace[1..]);
    RunFirst(p2, trace[2..]);
    RunFirst(p3, trace[3..]);
    RunFirst(p4, trace[4..]);
    RunFirst(p5, trace[5..]);
    assert trace[1..][1..] == trace[2..] && trace[2..][1..] == trace[3..] && trace[3..][1..] == trace[4..];
    assert trace[4..][1..] == trace[5..] && trace[5..][1..] == [];
  }

  lemma RunFirst(p: Pass, trace: seq<(Event, int)>)
    requires trace != [] && trace[0].0.ResendEvent? && Permits(trace[0].0.cacheAttempts)
    ensures Run(p, trace) == Run(Resent(p, trace[0].1), trace[1..])
  {
  }

  function Resent(p: Pass, now: int): Pass {
    Resend(p, now, None).0
  }

  lemma FiveSendsStates(p: Pass, t: int)
    requires p.status.Active? && p.windowStart.None? && p.sends == []
    ensures var q := Resent(Resent(Resent(p, t), t + 59), t + 59);
            Resent(Resent(Resent(q, t + 61), t + 61), t + 61).sends
            == [Send(t, t), Send(t + 59, t), Send(t + 59, t)]
               + [Send(t + 61, t + 61), Send(t + 61, t + 61), Send(t + 61, t + 61)]
  {
    var q := Resent(Resent(Resent(p, t), t + 59), t + 59);
    assert q == p.(attempts := 3, windowStart := Some(t), sends := [Send(t, t), Send(t + 59, t), Send(t + 59, t)]);
  }

  lemma FiveSends(p: Pass, t: int, trace: seq<(Event, int)>)
    requires p.status.Active? && p.windowStart.None? && p.sends == [] && SixPermitted(trace)
    requires trace[0].1 == t && trace[1].1 == trace[2].1 == t + 59 && trace[3].1 == trace[4].1 == trace[5].1 == t + 61
    ensures ClockRuns(t, trace) && |SentBetween(Run(p, trace).sends, t + 59, t + 59 + WINDOW)| == 5
  {
    ClockOf(t, trace);
    SixSteps(p, trace);
    FiveSendsStates(p, t);
    assert SentBetween(Run(p, trace).sends, t + 59, t + 119) == {1, 2, 3, 4, 5};
  }

  lemma {:induction false} ClockOf(start: int, trace: seq<(Event, int)>)
    requires trace != [] ==> start <= trace[0].1
    requires forall i, j :: 0 <= i < j < |trace| ==> trace[i].1 <= trace[j].1
    ensures ClockRuns(start, trace)
    decreases |trace|
  {
    if trace == [] {
    } else {
      ClockOf(trace[0].1, trace[1..]);
    }
  }

  /** Five is reached from every moment, with a shared cache that counts correctly as well as without one: one send
      opens a window, two end it, and three open the next. */
  lemma FiveSendsInAnHour(p: Pass, t: int)
    requires p.status.Active? && p.windowStart.None? && p.sends == []
    ensures var times := [t, t + 59, t + 59, t + 61, t + 61, t + 61];
      && ClockRuns(t, Asked(Counter(None, 0), times)) && ClockRuns(t, Unanswered(times))
      && |SentBetween(Run(p, Asked(Counter(None, 0), times)).sends, t + 59, t + 59 + WINDOW)| == 5
      && |SentBetween(Run(p, Unanswered(times)).sends, t + 59, t + 59 + WINDOW)| == 5
  {
    SixAsked(t, t + 59, t + 59, t + 61, t + 61, t + 61);
    FiveSends(p, t, Asked(Counter(None, 0), [t, t + 59, t + 59, t + 61, t + 61, t + 61]));
    FiveSends(p, t, Unanswered([t, t + 59, t + 59, t + 61, t + 61, t + 61]));
  }

  lemma SixAsked(a: int, b: int, c: int, d: int, e: int, f: int)
    requires a <= b <= c < a + 60 <= d <= e <= f < d + 60
    ensures var times := [a, b, c, d, e, f];
      && Asked(Counter(None, 0), times)
         == [(ResendEvent(Some(1)), a), (ResendEvent(Some(2)), b), (ResendEvent(Some(3)), c),
             (ResendEvent(Some(1)), d), (ResendEvent(Some(2)), e), (ResendEvent(Some(3)), f)]
      && Unanswered(times)
         == [(ResendEvent(None), a), (ResendEvent(None), b), (ResendEvent(None), c),
             (ResendEvent(None), d), (ResendEvent(None), e), (ResendEvent(None), f)]
  {
    assert [a, b, c, d, e, f][1..] == [b, c, d, e, f] && [b, c, d, e, f][1..] == [c, d, e, f];
    assert [c, d, e, f][1..] == [d, e, f] && [d, e, f][1..] == [e, f] && [e, f][1..] == [f] && [f][1..] == [];
    var second := Asked(Counter(Some(a), 3), [d, e, f]);
    assert second == [(ResendEvent(Some(1)), d), (ResendEvent(Some(2)), e), (ResendEvent(Some(3)), f)] by {
      assert Asked(Counter(Some(d), 2), [f]) == [(ResendEvent(Some(3)), f)] + Asked(Counter(Some(d), 3), []);
      assert Asked(Counter(Some(d), 1), [e, f]) == [(ResendEvent(Some(2)), e)] + Asked(Counter(Some(d), 2), [f]);
    }
    assert Asked(Counter(Some(a), 2), [c, d, e, f]) == [(ResendEvent(Some(3)), c)] + second;
    assert Asked(Counter(Some(a), 1), [b, c, d, e, f])
        == [(ResendEvent(Some(2)), b)] + Asked(Counter(Some(a), 2), [c, d, e, f]);
    assert Unanswered([d, e, f]) == [(ResendEvent(None), d)] + ([(ResendEvent(None), e)] + Unanswered([f]));
    assert Unanswered([b, c, d, e, f]) == [(ResendEvent(None), b)] + ([(ResendEvent(None), c)] + Unanswered([d, e, f]));
  }
}
