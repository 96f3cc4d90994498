/**
 * Session billing: what a running session has cost so far, how much
 * playing time the user's balance still buys, the urgency of that time,
 * and what a session or a balance is estimated to cost or afford.
 *
 * Three screens compute the remaining time with the same arithmetic and
 * show it differently: the session table ("Xh Ym"), the dashboard (the
 * same text, with a different choice of balance) and the profile page (a
 * record with an "HH:MM" string and an urgency status). The clock is the
 * parameter `now`, in milliseconds; money and hours are exact reals.
 */
module Billing {
  import opened Wrappers
  import opened Text
  import opened Entities
  import Js
  import Auth

  const MsPerHour: int := 1000 * 60 * 60

  /** `Math.ceil`. */
  function Ceil(x: real): (c: int)
    ensures x <= c as real < x + 1.0
  {
    -((-x).Floor)
  }

  /** `Math.round`: halves go up. */
  function Round(x: real): (r: int)
    ensures x - 0.5 < r as real <= x + 0.5
  {
    (x + 0.5).Floor
  }

  /**
   * The guard all three calculators share, negated: the session has a start
   * time and a positive hourly rate (a missing or zero rate is falsy).
   */
  predicate Billable(s: ActiveSession) {
    s.startTime.Some? && s.hourlyRate.Some? && s.hourlyRate.value > 0.0
  }

  /** Hours from `start` to `now`; negative when the start lies in the future. */
  function ElapsedHours(start: int, now: int): (h: real)
    ensures now >= start ==> h >= 0.0
    ensures now < start ==> h < 0.0
  {
    (now - start) as real / MsPerHour as real
  }

  /** A later clock reading means more elapsed time. */
  lemma ElapsedHoursMonotone(start: int, now1: int, now2: int)
    requires now1 <= now2
    ensures ElapsedHours(start, now1) <= ElapsedHours(start, now2)
  {
  }

  /** Cost so far: elapsed hours times the hourly rate. */
  function CostSoFar(start: int, rate: real, now: int): (c: real)
    ensures now == start ==> c == 0.0
    ensures now >= start && rate >= 0.0 ==> c >= 0.0
  {
    ElapsedHours(start, now) * rate
  }

  /** With a non-negative rate, cost only grows as time passes. */
  lemma CostSoFarMonotone(start: int, rate: real, now1: int, now2: int)
    requires rate >= 0.0 && now1 <= now2
    ensures CostSoFar(start, rate, now1) <= CostSoFar(start, rate, now2)
  {
    var e1, e2 := ElapsedHours(start, now1), ElapsedHours(start, now2);
    ElapsedHoursMonotone(start, now1, now2);
    assert (e2 - e1) * rate >= 0.0;
  }

  /** `Math.max(0, balance - cost)`: the balance left, never negative. */
  function RemainingBalance(balance: real, cost: real): (r: real)
    ensures r >= 0.0 && r >= balance - cost
    ensures r == 0.0 || r == balance - cost
  {
    if balance - cost > 0.0 then balance - cost else 0.0
  }

  /** The balance left expressed in hours at `rate`. */
  function RemainingHours(balance: real, rate: real, start: int, now: int): (h: real)
    requires rate > 0.0
    ensures h >= 0.0
    ensures h * rate == RemainingBalance(balance, CostSoFar(start, rate, now))
  {
    RemainingBalance(balance, CostSoFar(start, rate, now)) / rate
  }

  /** As the clock advances with the snapshot fixed, the hours left never grow. */
  lemma {:induction false} RemainingHoursMonotone(balance: real, rate: real, start: int, now1: int, now2: int)
    requires rate > 0.0 && now1 <= now2
    ensures RemainingHours(balance, rate, start, now2) <= RemainingHours(balance, rate, start, now1)
  {
    CostSoFarMonotone(start, rate, now1, now2);
    var b1 := RemainingBalance(balance, CostSoFar(start, rate, now1));
    var b2 := RemainingBalance(balance, CostSoFar(start, rate, now2));
    assert b2 <= b1;
    DivideMonotone(b2, b1, rate);
  }

  lemma DivideMonotone(x: real, y: real, d: real)
    requires d > 0.0 && x <= y
    ensures x / d <= y / d
  {
    assert y / d - x / d == (y - x) / d;
  }

  /** A duration split into whole hours and whole minutes. */
  datatype Clock = Clock(hours: int, minutes: int)

  function TotalMinutes(c: Clock): int {
    c.hours * 60 + c.minutes
  }

  /**
   * Whole hours by `Math.floor`, and the fraction of an hour times 60
   * truncated, so 1.99 hours is 1h 59m and never 2h 0m.
   */
  function Split(h: real): (c: Clock)
    ensures 0 <= c.minutes < 60
    ensures c.hours as real <= h < c.hours as real + 1.0
    ensures TotalMinutes(c) == (h * 60.0).Floor
  {
    var whole := h.Floor;
    var minutes := ((h - whole as real) * 60.0).Floor;
    assert whole as real * 60.0 + minutes as real <= h * 60.0 < whole as real * 60.0 + minutes as real + 1.0;
    Clock(whole, minutes)
  }

  /** The worked example: 1.99 hours shows as 1 hour 59 minutes. */
  lemma SplitTruncates()
    ensures Split(1.99) == Clock(1, 59)
  {
    assert (1.99).Floor == 1;
    assert ((1.99 - 1.0) * 60.0).Floor == 59;
  }

  /**
   * The remaining time the three screens display, for a billable session:
   * non-negative whole hours and minutes that together are the hours left
   * truncated to whole minutes, and zero once the cost reaches the balance.
   */
  function RemainingClock(balance: real, rate: real, start: int, now: int): (c: Clock)
    requires rate > 0.0
    ensures c.hours >= 0 && 0 <= c.minutes < 60
    ensures TotalMinutes(c) == (RemainingHours(balance, rate, start, now) * 60.0).Floor
    ensures balance <= CostSoFar(start, rate, now) ==> c == Clock(0, 0)
  {
    Split(RemainingHours(balance, rate, start, now))
  }

  /** The displayed remaining minutes never grow as the clock advances. */
  lemma {:induction false} RemainingClockMonotone(balance: real, rate: real, start: int, now1: int, now2: int)
    requires rate > 0.0 && now1 <= now2
    ensures TotalMinutes(RemainingClock(balance, rate, start, now2)) <= TotalMinutes(RemainingClock(balance, rate, start, now1))
  {
    RemainingHoursMonotone(balance, rate, start, now1, now2);
    var h1, h2 := RemainingHours(balance, rate, start, now1), RemainingHours(balance, rate, start, now2);
    assert (h2 * 60.0).Floor <= (h1 * 60.0).Floor;
  }

  /**
   * The start time is not checked against `now`: a session that starts in
   * the future has a negative cost so far, and its remaining hours exceed
   * what the balance alone buys.
   */
  lemma FutureStartNotGuarded(balance: real, rate: real, start: int, now: int)
    requires rate > 0.0 && now < start && balance >= 0.0
    ensures RemainingHours(balance, rate, start, now) > balance / rate
  {
    var cost := CostSoFar(start, rate, now);
    assert cost < 0.0 by {
      assert ElapsedHours(start, now) < 0.0;
    }
    DivideStrict(balance, balance - cost, rate);
  }

  lemma DivideStrict(x: real, y: real, d: real)
    requires d > 0.0 && x < y
    ensures x / d < y / d
  {
    assert y / d - x / d == (y - x) / d;
  }

  // ---- The session table (SessionManagement) ----

  /** `${hours}h ${minutes}m`. */
  function ShowClock(c: Clock): string {
    IntToString(c.hours) + "h " + IntToString(c.minutes) + "m"
  }

  /** The session table's remaining time: zero for a session that is not billable. */
  function SessionClock(s: ActiveSession, now: int): (c: Clock)
    ensures !Billable(s) ==> c == Clock(0, 0)
    ensures Billable(s) ==> c == RemainingClock(Js.NumberOrZero(s.userBalance), s.hourlyRate.value, s.startTime.value, now)
    ensures c.hours >= 0 && 0 <= c.minutes < 60
  {
    if !Billable(s) then Clock(0, 0)
    else RemainingClock(Js.NumberOrZero(s.userBalance), s.hourlyRate.value, s.startTime.value, now)
  }

  /** `calculateTimeRemaining` of the session table; a missing or zero `user_balance` counts as 0. */
  function SessionTimeRemaining(s: ActiveSession, now: int): (text: string)
    ensures !Billable(s) ==> text == "0h 0m"
  {
    ShowClock(SessionClock(s, now))
  }

  /** The index of the first `c` in `t`, or `|t|` when there is none. */
  function IndexOf(t: string, c: char): (i: nat)
    ensures i <= |t| && (i < |t| ==> t[i] == c)
    ensures forall j :: 0 <= j < i ==> t[j] != c
  {
    if t == [] then 0
    else if t[0] == c then 0
    else 1 + IndexOf(t[1..], c)
  }

  /** Reads "Xh Ym" back into hours and minutes; None for any other shape. */
  function ReadClock(t: string): Option<Clock> {
    var i := IndexOf(t, 'h');
    if i == |t| || |t| < i + 3 || t[i + 1] != ' ' || t[|t| - 1] != 'm' then None
    else
      var hours, minutes := t[..i], t[i + 2..|t| - 1];
      if AllDigits(hours) && AllDigits(minutes) then Some(Clock(ParseNat(hours), ParseNat(minutes)))
      else None
  }

  /** The "Xh Ym" text loses nothing: reading it back gives the hours and minutes displayed. */
  lemma ShowClockReadsBack(c: Clock)
    requires c.hours >= 0 && c.minutes >= 0
    ensures ReadClock(ShowClock(c)) == Some(c)
  {
    var hs, ms := NatToString(c.hours), NatToString(c.minutes);
    var t := ShowClock(c);
    assert t == hs + "h " + ms + "m";
    assert t[|hs|] == 'h';
    forall j | 0 <= j < |hs| ensures t[j] != 'h' {
      assert t[j] == hs[j];
    }
    assert IndexOf(t, 'h') == |hs|;
    assert t[..|hs|] == hs;
    assert t[|hs| + 2..|t| - 1] == ms;
    ParseNatToString(c.hours);
    ParseNatToString(c.minutes);
  }

  /** The session table's text shows a remaining time that reads back as its clock. */
  lemma SessionTimeRemainingReadsBack(s: ActiveSession, now: int)
    ensures ReadClock(SessionTimeRemaining(s, now)) == Some(SessionClock(s, now))
  {
    ShowClockReadsBack(SessionClock(s, now));
  }

  /**
   * `calculateEstimatedCost`'s rounding: elapsed hours rounded up to a
   * whole quarter hour (no guard: any elapsed time is rounded).
   */
  function RoundUpToQuarter(h: real): (r: real)
    ensures h <= r < h + 0.25
    ensures (r * 4.0).Floor as real == r * 4.0
  {
    Ceil(h * 4.0) as real / 4.0
  }

  /** The rounding picks the least quarter hour that is not below the elapsed time. */
  lemma RoundUpToQuarterLeast(h: real, k: int)
    requires k as real / 4.0 >= h
    ensures RoundUpToQuarter(h) <= k as real / 4.0
  {
    var c := Ceil(h * 4.0);
    assert k as real >= h * 4.0;
    assert c <= k;
  }

  /** Rounding up to quarter hours is monotone. */
  lemma RoundUpToQuarterMonotone(h1: real, h2: real)
    requires h1 <= h2
    ensures RoundUpToQuarter(h1) <= RoundUpToQuarter(h2)
  {
    var c2 := Ceil(h2 * 4.0);
    RoundUpToQuarterLeast(h1, c2);
  }

  /** `calculateEstimatedCost` before its two-decimal formatting: rounded hours times the rate. */
  function EstimatedCost(start: int, rate: real, now: int): (e: real)
    ensures now >= start && rate >= 0.0 ==> e >= 0.0
  {
    RoundUpToQuarter(ElapsedHours(start, now)) * rate
  }

  /** Nothing is charged at the moment a session starts. */
  lemma EstimatedCostAtStart(start: int, rate: real)
    ensures EstimatedCost(start, rate, start) == 0.0
  {
    assert ElapsedHours(start, start) == 0.0;
    assert Ceil(0.0) == 0;
  }

  /** The estimate never falls as time passes when the rate is not negative. */
  lemma EstimatedCostMonotone(start: int, rate: real, now1: int, now2: int)
    requires rate >= 0.0 && now1 <= now2
    ensures EstimatedCost(start, rate, now1) <= EstimatedCost(start, rate, now2)
  {
    var e1, e2 := ElapsedHours(start, now1), ElapsedHours(start, now2);
    RoundUpToQuarterMonotone(e1, e2);
    var r1, r2 := RoundUpToQuarter(e1), RoundUpToQuarter(e2);
    assert (r2 - r1) * rate >= 0.0;
  }

  /**
   * The estimate bills at least the exact cost so far and less than a
   * quarter hour more: the two calculators differ only by the rounding.
   */
  lemma EstimatedCostCoversCostSoFar(start: int, rate: real, now: int)
    requires rate > 0.0
    ensures 0.0 <= EstimatedCost(start, rate, now) - CostSoFar(start, rate, now) < 0.25 * rate
  {
    var e := ElapsedHours(start, now);
    var r := RoundUpToQuarter(e);
    QuarterGap(e, r, rate, EstimatedCost(start, rate, now), CostSoFar(start, rate, now));
  }

  /** Less than a quarter hour apart, billed at a positive rate: less than a quarter of the rate apart. */
  lemma QuarterGap(e: real, r: real, rate: real, est: real, cost: real)
    requires e <= r < e + 0.25 && rate > 0.0
    requires est == r * rate && cost == e * rate
    ensures 0.0 <= est - cost < 0.25 * rate
  {
    var d := r - e;
    assert est - cost == d * rate;
    assert 0.0 <= d * rate;
    ScaleLess(d, 0.25, rate);
  }

  /** Scaling by a positive factor keeps a strict order. */
  lemma ScaleLess(x: real, y: real, k: real)
    requires x < y && k > 0.0
    ensures x * k < y * k
  {
  }

  /** Ten minutes at 6 per hour are billed as a quarter hour: 1.50. */
  lemma EstimatedCostExample(start: int)
    ensures EstimatedCost(start, 6.0, start + 10 * 60 * 1000) == 1.5
  {
    var e := ElapsedHours(start, start + 10 * 60 * 1000);
    assert e * 4.0 == 600000.0 * 4.0 / 3600000.0;
    assert Ceil(e * 4.0) == 1;
  }

  // ---- The dashboard ----

  /**
   * The dashboard's balance: the session's own balance when truthy;
   * otherwise the logged-in user's balance when the session is theirs
   * (None when that user record has no balance, which the dashboard then
   * shows as NaN); otherwise 0. A balance of 0 therefore falls through.
   */
  function DashboardBalance(s: ActiveSession, user: Auth.User): (b: Option<real>)
    ensures s.userBalance.Some? && s.userBalance.value != 0.0 ==> b == s.userBalance
    ensures (s.userBalance.None? || s.userBalance.value == 0.0) && s.userId == Some(user.id) ==> b == user.balance
    ensures (s.userBalance.None? || s.userBalance.value == 0.0) && s.userId != Some(user.id) ==> b == Some(0.0)
  {
    if s.userBalance.Some? && s.userBalance.value != 0.0 then s.userBalance
    else if s.userId == Some(user.id) then user.balance
    else Some(0.0)
  }

  /** The dashboard's `calculateTimeRemaining`. */
  function DashboardTimeRemaining(s: ActiveSession, user: Auth.User, now: int): (text: string)
    ensures !Billable(s) ==> text == "0h 0m"
    ensures Billable(s) && DashboardBalance(s, user).None? ==> text == "NaNh NaNm"
    ensures Billable(s) && DashboardBalance(s, user).Some? ==>
      text == ShowClock(RemainingClock(DashboardBalance(s, user).value, s.hourlyRate.value, s.startTime.value, now))
  {
    if !Billable(s) then "0h 0m"
    else
      match DashboardBalance(s, user)
      case None => "NaNh NaNm"
      case Some(b) => ShowClock(RemainingClock(b, s.hourlyRate.value, s.startTime.value, now))
  }

  /** When the snapshot carries a balance, the dashboard and the session table agree. */
  lemma DashboardAgreesWithSessionTable(s: ActiveSession, user: Auth.User, now: int)
    requires s.userBalance.Some? && s.userBalance.value != 0.0
    ensures DashboardTimeRemaining(s, user, now) == SessionTimeRemaining(s, now)
  {
  }

  /** Once the cost so far reaches the balance used, the dashboard shows "0h 0m". */
  lemma DashboardExhausted(s: ActiveSession, user: Auth.User, now: int)
    requires Billable(s) && DashboardBalance(s, user).Some?
    requires DashboardBalance(s, user).value <= CostSoFar(s.startTime.value, s.hourlyRate.value, now)
    ensures DashboardTimeRemaining(s, user, now) == "0h 0m"
  {
    var c := RemainingClock(DashboardBalance(s, user).value, s.hourlyRate.value, s.startTime.value, now);
    assert c == Clock(0, 0);
    ShowZero();
  }

  /** Zero hours and zero minutes read "0h 0m". */
  lemma ShowZero()
    ensures ShowClock(Clock(0, 0)) == "0h 0m"
  {
    assert NatToString(0) == "0";
  }

  /** A machine-status share in percent: 0 when there are no machines. */
  function MachineSharePercent(count: int, total: int): (p: real)
    ensures total <= 0 ==> p == 0.0
    ensures total > 0 ==> p * total as real == count as real * 100.0
    ensures total > 0 && 0 <= count <= total ==> 0.0 <= p <= 100.0
  {
    if total > 0 then count as real / total as real * 100.0 else 0.0
  }

  /** When every machine is in exactly one status, the three shares add up to 100. */
  lemma MachineSharesSumTo100(available: int, inUse: int, maintenance: int)
    requires available + inUse + maintenance > 0
    ensures var total := available + inUse + maintenance;
      MachineSharePercent(available, total) + MachineSharePercent(inUse, total) + MachineSharePercent(maintenance, total) == 100.0
  {
    var total := available + inUse + maintenance;
    var t := total as real;
    var a, u, m := MachineSharePercent(available, total), MachineSharePercent(inUse, total), MachineSharePercent(maintenance, total);
    SharesAddUp(a, u, m, t, available as real, inUse as real, maintenance as real);
  }

  /** The share as the dashboard shows it, by `toFixed(0)`: rounded to a whole percent, halves up. */
  function ShownSharePercent(count: int, total: int): (n: int)
    ensures total <= 0 ==> n == 0
    ensures total > 0 ==> MachineSharePercent(count, total) - 0.5 < n as real <= MachineSharePercent(count, total) + 0.5
  {
    if total > 0 then Round(MachineSharePercent(count, total)) else 0
  }

  /**
   * The three shares as shown are each rounded, so together they read 99,
   * 100 or 101 percent, never anything further from 100.
   */
  lemma ShownSharesNear100(available: int, inUse: int, maintenance: int)
    requires available + inUse + maintenance > 0
    ensures var total := available + inUse + maintenance;
      99 <= ShownSharePercent(available, total) + ShownSharePercent(inUse, total) + ShownSharePercent(maintenance, total) <= 101
  {
    MachineSharesSumTo100(available, inUse, maintenance);
  }

  /** One machine in each status shows 33% three times: 99 in all. */
  lemma ShownSharesCanSum99()
    ensures ShownSharePercent(1, 3) + ShownSharePercent(1, 3) + ShownSharePercent(1, 3) == 99
  {
    assert MachineSharePercent(1, 3) * 3.0 == 100.0;
    assert (MachineSharePercent(1, 3) + 0.5).Floor == 33;
  }

  /** One available, one in use and four in maintenance show 17%, 17% and 67%: 101 in all. */
  lemma ShownSharesCanSum101()
    ensures ShownSharePercent(1, 6) + ShownSharePercent(1, 6) + ShownSharePercent(4, 6) == 101
  {
    assert MachineSharePercent(1, 6) * 6.0 == 100.0;
    assert MachineSharePercent(4, 6) * 6.0 == 400.0;
    assert (MachineSharePercent(1, 6) + 0.5).Floor == 17;
    assert (MachineSharePercent(4, 6) + 0.5).Floor == 67;
  }

  lemma SharesAddUp(a: real, u: real, m: real, t: real, av: real, iu: real, mt: real)
    requires a * t == av * 100.0 && u * t == iu * 100.0 && m * t == mt * 100.0
    requires av + iu + mt == t && t > 0.0
    ensures a + u + m == 100.0
  {
    var sum := av + iu + mt;
    assert a * t + u * t + m * t == sum * 100.0;
    assert (a + u + m - 100.0) * t == a * t + u * t + m * t - 100.0 * t;
    assert (a + u + m - 100.0) * t == 0.0;
  }

  // ---- The profile page ----

  /** The urgency of the remaining time; `Expired` is only ever the guard's answer. */
  datatype Status = Normal | Warning | Critical | Expired

  /** The profile record: `{hours, minutes, totalMinutes, formatted, percentage, status}`. */
  datatype TimeRemainingData = TimeRemainingData(
    hours: int,
    minutes: int,
    totalMinutes: int,
    formatted: string,
    percentage: real,
    status: Status)

  /** The guard's answer for a session that is not billable. */
  const ExpiredData: TimeRemainingData := TimeRemainingData(0, 0, 0, "00:00", 0.0, Expired)

  /** 15 minutes or less is critical, up to 30 is a warning, more is normal. */
  function Classify(totalMinutes: int): (st: Status)
    ensures st == Critical <==> totalMinutes <= 15
    ensures st == Warning <==> 15 < totalMinutes <= 30
    ensures st == Normal <==> totalMinutes > 30
  {
    if totalMinutes <= 15 then Critical else if totalMinutes <= 30 then Warning else Normal
  }

  /** How urgent a status is, from normal (0) to critical (2). */
  function Urgency(st: Status): nat {
    match st
    case Normal => 0
    case Warning => 1
    case Critical => 2
    case Expired => 3
  }

  /** Less time never means a less urgent status. */
  lemma ClassifyMonotone(t1: int, t2: int)
    requires t2 <= t1
    ensures Urgency(Classify(t1)) <= Urgency(Classify(t2))
  {
  }

  /** Hours and minutes each padded with '0' to two digits, joined by ':'. */
  function FormatHHMM(c: Clock): string
    requires c.hours >= 0 && c.minutes >= 0
  {
    PadStart(NatToString(c.hours), 2, '0') + ":" + PadStart(NatToString(c.minutes), 2, '0')
  }

  /** `calculateTimeRemainingData`; the percentage is always 0. */
  function ProfileTimeRemaining(s: ActiveSession, now: int): (d: TimeRemainingData)
    ensures !Billable(s) ==> d == ExpiredData
    ensures d.percentage == 0.0
    ensures d.status == Expired <==> !Billable(s)
    ensures d.hours >= 0 && 0 <= d.minutes < 60 && d.totalMinutes == d.hours * 60 + d.minutes
    ensures Billable(s) ==> d.status == Classify(d.totalMinutes)
  {
    if !Billable(s) then ExpiredData
    else
      var c := RemainingClock(Js.NumberOrZero(s.userBalance), s.hourlyRate.value, s.startTime.value, now);
      var total := c.hours * 60 + c.minutes;
      TimeRemainingData(c.hours, c.minutes, total, FormatHHMM(c), 0.0, Classify(total))
  }

  /** The profile page and the session table show the same hours and minutes. */
  lemma ProfileAgreesWithSessionTable(s: ActiveSession, now: int)
    ensures var d := ProfileTimeRemaining(s, now); Clock(d.hours, d.minutes) == SessionClock(s, now)
  {
  }

  /**
   * The "HH:MM" text: at least two hour digits, a colon, exactly two minute
   * digits, and the two numbers read back as the record's hours and minutes.
   */
  lemma ProfileFormattedReadsBack(s: ActiveSession, now: int)
    requires Billable(s)
    ensures var d := ProfileTimeRemaining(s, now); var f := d.formatted;
      |f| >= 5 && f[|f| - 3] == ':' &&
      AllDigits(f[..|f| - 3]) && ParseNat(f[..|f| - 3]) == d.hours &&
      AllDigits(f[|f| - 2..]) && ParseNat(f[|f| - 2..]) == d.minutes
  {
    var d := ProfileTimeRemaining(s, now);
    var c := Clock(d.hours, d.minutes);
    assert d.formatted == FormatHHMM(c);
    FormatHHMMReadsBack(c);
  }

  /** "HH:MM" splits at its third-last character into two numbers that read back as the clock. */
  lemma FormatHHMMReadsBack(c: Clock)
    requires c.hours >= 0 && 0 <= c.minutes < 60
    ensures var f := FormatHHMM(c);
      |f| >= 5 && f[|f| - 3] == ':' &&
      AllDigits(f[..|f| - 3]) && ParseNat(f[..|f| - 3]) == c.hours &&
      AllDigits(f[|f| - 2..]) && ParseNat(f[|f| - 2..]) == c.minutes
  {
    var hh, mm := PadStart(NatToString(c.hours), 2, '0'), PadStart(NatToString(c.minutes), 2, '0');
    var f := FormatHHMM(c);
    assert f == hh + ":" + mm;
    assert |mm| == 2;
    assert f[..|f| - 3] == hh;
    assert f[|f| - 2..] == mm;
    PadStartParses(c.hours, 2);
    PadStartParses(c.minutes, 2);
  }

  /** Natural decay to zero reports "critical", never "expired". */
  lemma ExhaustedIsCritical(s: ActiveSession, now: int)
    requires Billable(s)
    requires Js.NumberOrZero(s.userBalance) <= CostSoFar(s.startTime.value, s.hourlyRate.value, now)
    ensures ProfileTimeRemaining(s, now).status == Critical
    ensures ProfileTimeRemaining(s, now).formatted == "00:00"
  {
    var c := RemainingClock(Js.NumberOrZero(s.userBalance), s.hourlyRate.value, s.startTime.value, now);
    assert c == Clock(0, 0);
    assert NatToString(0) == "0";
    assert PadStart("0", 2, '0') == "00";
  }

  /** As the clock advances with the snapshot fixed, the status only becomes more urgent. */
  lemma ProfileStatusTightens(s: ActiveSession, now1: int, now2: int)
    requires Billable(s) && now1 <= now2
    ensures ProfileTimeRemaining(s, now2).totalMinutes <= ProfileTimeRemaining(s, now1).totalMinutes
    ensures Urgency(ProfileTimeRemaining(s, now1).status) <= Urgency(ProfileTimeRemaining(s, now2).status)
  {
    var b, r, t := Js.NumberOrZero(s.userBalance), s.hourlyRate.value, s.startTime.value;
    RemainingClockMonotone(b, r, t, now1, now2);
    ClassifyMonotone(ProfileTimeRemaining(s, now1).totalMinutes, ProfileTimeRemaining(s, now2).totalMinutes);
  }

  /** One hour's worth of balance left shows as "01:00" with status normal. */
  lemma ProfileExample(s: ActiveSession, now: int)
    requires s.startTime == Some(now - MsPerHour) && s.hourlyRate == Some(5.0) && s.userBalance == Some(10.0)
    ensures ProfileTimeRemaining(s, now).formatted == "01:00"
    ensures ProfileTimeRemaining(s, now).status == Normal
  {
    assert CostSoFar(now - MsPerHour, 5.0, now) == 5.0;
    assert RemainingHours(10.0, 5.0, now - MsPerHour, now) == 1.0;
    assert Split(1.0) == Clock(1, 0);
    assert NatToString(1) == "1" && NatToString(0) == "0";
  }

  // ---- Starting a session ----

  /**
   * `calculateAffordableTime`: 0 without a selected user and machine or
   * with a rate that is not positive; otherwise balance / rate truncated
   * to two decimals.
   */
  function AffordableTime(user: Option<UserRow>, machine: Option<Machine>): (h: real)
    ensures user.None? || machine.None? || machine.value.hourlyRate <= 0.0 ==> h == 0.0
    ensures user.Some? && machine.Some? && machine.value.hourlyRate > 0.0 ==>
      var exact := user.value.balance / machine.value.hourlyRate;
      h <= exact < h + 0.01 && (h * 100.0).Floor as real == h * 100.0
  {
    if user.None? || machine.None? then 0.0
    else if machine.value.hourlyRate <= 0.0 then 0.0
    else ((user.value.balance / machine.value.hourlyRate) * 100.0).Floor as real / 100.0
  }

  /** `formatTime`'s split: whole hours by floor, the fraction times 60 rounded, not truncated. */
  function RoundedClock(hours: real): (c: Clock)
    ensures c.hours as real <= hours < c.hours as real + 1.0
    ensures (hours - c.hours as real) * 60.0 - 0.5 < c.minutes as real <= (hours - c.hours as real) * 60.0 + 0.5
    ensures 0 <= c.minutes <= 60
  {
    var whole := hours.Floor;
    Clock(whole, Round((hours - whole as real) * 60.0))
  }

  /**
   * `formatTime`. A negative time (a balance at or below zero) is shown
   * too: its whole hours are negative, so the text starts with '-', and
   * the minutes still count up from that floor.
   */
  function FormatTime(hours: real): (text: string)
    ensures hours >= 0.0 ==> ReadClock(text) == Some(RoundedClock(hours))
    ensures hours < 0.0 ==> |text| > 0 && text[0] == '-'
  {
    var c := RoundedClock(hours);
    assert hours >= 0.0 ==> ReadClock(ShowClock(c)) == Some(c) by {
      if hours >= 0.0 { ShowClockReadsBack(c); }
    }
    assert hours < 0.0 ==> ShowClock(c)[0] == '-' by {
      IntToStringSign(c.hours);
    }
    ShowClock(c)
  }

  /** Half an hour owed reads "-1h 30m": one hour down, thirty minutes back up. */
  lemma NegativeTimeShown()
    ensures FormatTime(-0.5) == "-1h 30m"
  {
    assert (-0.5).Floor == -1;
    assert ((-0.5 - (-1) as real) * 60.0 + 0.5).Floor == 30;
    assert NatToString(1) == "1";
    assert NatToString(30) == "30" by {
      assert NatToString(3) == "3";
      assert NatToString(0) == "0";
    }
  }

  /** In general the rounding can show 60 minutes: 1.995 hours reads "1h 60m". */
  lemma RoundedClockCanShowSixty()
    ensures RoundedClock(1.995) == Clock(1, 60)
  {
    assert (1.995).Floor == 1;
    assert ((1.995 - 1.0) * 60.0 + 0.5).Floor == 60;
  }

  /**
   * The modal only formats affordable times, which have two decimals, and
   * those never round up to 60 minutes.
   */
  lemma AffordableTimeShowsAtMost59Minutes(user: Option<UserRow>, machine: Option<Machine>)
    ensures 0 <= RoundedClock(AffordableTime(user, machine)).minutes <= 59
  {
    var h := AffordableTime(user, machine);
    var whole := h.Floor;
    var k := (h * 100.0).Floor - whole * 100;
    assert (h - whole as real) * 100.0 == k as real;
    assert 0 <= k <= 99;
    assert (h - whole as real) * 60.0 + 0.5 == k as real * 0.6 + 0.5;
    assert k as real * 0.6 + 0.5 < 60.0;
  }
}
