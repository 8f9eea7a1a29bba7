/**
 The streak columns against the calendar of active days.
 */
module Streaks {
  import opened Progression
  import opened ProgressionAccounts
  import opened Wrappers

  predicate Active(events: Run<EventRow>, day: int) {
    events.Then? && (events.last.day == day || Active(events.past, day))
  }

  /** The maximal block of consecutive active days that ends at `day` has `n` days. */
  ghost predicate Block(events: Run<EventRow>, day: int, n: int) {
    1 <= n && (forall d | day - n < d <= day :: Active(events, d)) && !Active(events, day - n)
  }

  predicate UpTo(events: Run<EventRow>, day: int) {
    events.Then? ==> UpTo(events.past, day) && events.last.day <= day
  }

  /** Bonus points paid for activity on one day, and in how many payments. */
  function BonusOn(events: Run<EventRow>, day: int): int {
    match events
    case Start => 0
    case Then(past, e) => BonusOn(past, day) + if e.day == day then e.bonus else 0
  }

  function Payments(events: Run<EventRow>, day: int): nat {
    match events
    case Start => 0
    case Then(past, e) => Payments(past, day) + if e.day == day && e.bonus != 0 then 1 else 0
  }

  /** The server's date never goes back. */
  predicate Calendar(run: Run<Call>) {
    run.Then? ==>
      Calendar(run.past) && (run.past.Then? ==> run.past.last.now.today <= run.last.now.today)
  }

  /** The call records an event that is not refused, rolled back or a repetition. */
  predicate Applies(s: Store, c: Call) {
    c.commits && c.op.RecordEvent? && 0 < BaseXp(c.op.action) && !Recorded(s.events, c.op.action, c.op.source)
  }

  /** Whenever an event was applied, server and database agreed on the date. */
  predicate DatesAgree(cat: Catalog, run: Run<Call>) {
    run.Then? ==>
      && DatesAgree(cat, run.past)
      && (Applies(After(cat, run.past), run.last) ==> run.last.now.today == run.last.now.dbDay)
  }

  /** The streak columns say what the calendar says. */
  ghost predicate Current(p: Profile, events: Run<EventRow>) {
    match p.lastDay
    case None => events == Start && p.streak == 0
    case Some(last) => events.Then? && UpTo(events, last) && Block(events, last, p.streak)
  }

  ghost predicate Longest(p: Profile, events: Run<EventRow>) {
    && (forall d, n :: Block(events, d, n) ==> n <= p.longest)
    && (if events.Then? then exists d :: Block(events, d, p.longest) else p.longest == 0)
  }

  ghost predicate PaidOnce(events: Run<EventRow>) {
    forall d, n :: Block(events, d, n) ==> BonusOn(events, d) == Min(n, 20) && Payments(events, d) == 1
  }

  lemma BlockUnique(events: Run<EventRow>, day: int, n: int, m: int)
    requires Block(events, day, n) && Block(events, day, m)
    ensures n == m
  {
    assert !Active(events, day - n) && !Active(events, day - m);
  }

  lemma {:induction false} NothingAfter(events: Run<EventRow>, last: int, day: int)
    requires UpTo(events, last) && last < day
    ensures !Active(events, day) && BonusOn(events, day) == 0 && Payments(events, day) == 0
  {
    if events.Then? {
      NothingAfter(events.past, last, day);
    }
  }

  lemma {:induction false} UpToLater(events: Run<EventRow>, last: int, day: int)
    requires UpTo(events, last) && last <= day
    ensures UpTo(events, day)
  {
    if events.Then? {
      UpToLater(events.past, last, day);
    }
  }

  /** A new event leaves every block alone that ends before its day, or at a day already active. */
  lemma OldBlocks(events: Run<EventRow>, e: EventRow, d: int, n: int)
    requires Active(events, e.day) || d < e.day
    ensures Block(Then(events, e), d, n) <==> Block(events, d, n)
  {
    assert forall i | i <= d :: Active(Then(events, e), i) <==> Active(events, i);
    if 1 <= n {
      assert Active(Then(events, e), d - n) <==> Active(events, d - n);
    }
  }

  /** Recording an event extends, keeps or restarts the block that ends today. */
  lemma BlockToday(p: Profile, events: Run<EventRow>, e: EventRow)
    requires Current(p, events) && (p.lastDay.Some? ==> p.lastDay.value <= e.day)
    ensures Block(Then(events, e), e.day, NextStreak(p, e.day))
  {
    if p.lastDay.Some? {
      var last := p.lastDay.value;
      if last == e.day {
        OldBlocks(events, e, e.day, p.streak);
      } else if last + 1 == e.day {
        assert forall d | d < e.day :: Active(Then(events, e), d) <==> Active(events, d);
        assert e.day - (p.streak + 1) == last - p.streak;
      } else {
        NothingAfter(events, last, e.day - 1);
      }
    }
  }

  /** Every block after the event is today's or an old one. */
  lemma BlockCases(p: Profile, events: Run<EventRow>, e: EventRow, d: int, n: int)
    requires Current(p, events) && (p.lastDay.Some? ==> p.lastDay.value <= e.day)
    requires Block(Then(events, e), d, n)
    ensures (d == e.day && n == NextStreak(p, d)) || (d < e.day && Block(events, d, n))
  {
    if d == e.day {
      BlockToday(p, events, e);
      BlockUnique(Then(events, e), d, n, NextStreak(p, d));
    } else {
      if p.lastDay.Some? {
        UpToLater(events, p.lastDay.value, e.day);
      }
      if e.day < d {
        NothingAfter(Then(events, e), e.day, d);
      }
      OldBlocks(events, e, d, n);
    }
  }

  lemma CurrentStep(p: Profile, events: Run<EventRow>, e: EventRow, p': Profile)
    requires Current(p, events) && (p.lastDay.Some? ==> p.lastDay.value <= e.day)
    requires p'.lastDay == Some(e.day) && p'.streak == NextStreak(p, e.day)
    ensures Current(p', Then(events, e))
  {
    BlockToday(p, events, e);
    if p.lastDay.Some? {
      UpToLater(events, p.lastDay.value, e.day);
    }
  }

  lemma LongestStep(p: Profile, events: Run<EventRow>, e: EventRow, p': Profile)
    requires Current(p, events) && Longest(p, events) && (p.lastDay.Some? ==> p.lastDay.value <= e.day)
    requires p'.streak == NextStreak(p, e.day) && p'.longest == if p'.streak > p.longest then p'.streak else p.longest
    ensures Longest(p', Then(events, e))
  {
    forall d, n | Block(Then(events, e), d, n) ensures n <= p'.longest {
      BlockCases(p, events, e, d, n);
    }
    BlockToday(p, events, e);
    if p'.streak <= p.longest {
      var d :| Block(events, d, p.longest);
      assert Active(events, d);
      if e.day < d {
        NothingAfter(events, p.lastDay.value, d);
      }
      OldBlocks(events, e, d, p.longest);
    }
  }

  lemma PaidStep(p: Profile, events: Run<EventRow>, e: EventRow)
    requires Current(p, events) && PaidOnce(events) && (p.lastDay.Some? ==> p.lastDay.value <= e.day)
    requires e.bonus == Bonus(p, e.day)
    ensures PaidOnce(Then(events, e))
  {
    var events' := Then(events, e);
    forall d, n | Block(events', d, n) ensures BonusOn(events', d) == Min(n, 20) && Payments(events', d) == 1 {
      BlockCases(p, events, e, d, n);
      if d == e.day && p.lastDay.Some? && p.lastDay.value < d {
        NothingAfter(events, p.lastDay.value, d);
      }
    }
  }

  /** The whole account of the streak columns. */
  ghost predicate Follows(s: Store) {
    Current(s.profile, s.events) && Longest(s.profile, s.events) && PaidOnce(s.events)
  }

  /** And the last active day is not in the future. */
  ghost predicate Tracked(s: Store, today: int) {
    Follows(s) && (s.profile.lastDay.Some? ==> s.profile.lastDay.value <= today)
  }

  /** What recording an event does to the columns and the event table, achievements or not. */
  lemma RecordColumns(cat: Catalog, s: Store, action: Action, source: string, now: Now)
    requires 0 < BaseXp(action) && !Recorded(s.events, action, source)
    ensures Record(cat, s, action, source, now).Some?
    ensures var s', p := Record(cat, s, action, source, now).value, s.profile;
            var streak := NextStreak(p, now.today);
            && s'.events == Then(s.events, Entry(p, action, source, now))
            && s'.profile.streak == streak && s'.profile.lastDay == Some(now.dbDay)
            && s'.profile.longest == (if streak > p.longest then streak else p.longest)
            && s'.profile.combo == NextCombo(p, now.time) && s'.profile.comboAt == Some(now.time)
            && s'.profile.shields == Min(3, p.shields + ShieldAward(p.streak, streak))
  {
    hide Award, Bonus, Matches, Progress, EnsureRows, NextStreak, NextLevel;
    var p1 := Advance(s.profile, action, now);
    var events := Then(s.events, Entry(s.profile, action, source, now));
    UnlockAllAccounts(cat, p1, s.unlocked,
        Matches(cat, s.unlocked, events, action, p1.streak, p1.level, |cat.achievements|));
  }

  /** A last day that is not the day of the last event is wrong: events lie after it, or none lies on it. */
  lemma WrongLastDay(p: Profile, events: Run<EventRow>, e: EventRow, p': Profile)
    requires Current(p, events) && (p.lastDay.Some? ==> p.lastDay.value <= e.day)
    requires p'.lastDay.Some? && p'.lastDay.value != e.day
    ensures !Current(p', Then(events, e))
  {
    if e.day < p'.lastDay.value {
      if p.lastDay.Some? {
        UpToLater(events, p.lastDay.value, e.day);
      }
      NothingAfter(Then(events, e), e.day, p'.lastDay.value);
    }
  }

  /** A new event leaves the columns true to the calendar exactly when server and database agree on the date. */
  lemma RecordFollowsExactlyWhen(cat: Catalog, s: Store, action: Action, source: string, now: Now)
    requires Tracked(s, now.today) && 0 < BaseXp(action) && !Recorded(s.events, action, source)
    ensures Record(cat, s, action, source, now).Some?
    ensures var s' := Record(cat, s, action, source, now).value;
            Follows(s') <==> now.today == now.dbDay
  {
    RecordColumns(cat, s, action, source, now);
    hide Current, Longest, PaidOnce, Award, Bonus, NextStreak, Record;
    var s' := Record(cat, s, action, source, now).value;
    if now.today == now.dbDay {
      CurrentStep(s.profile, s.events, s'.events.last, s'.profile);
      LongestStep(s.profile, s.events, s'.events.last, s'.profile);
      PaidStep(s.profile, s.events, s'.events.last);
    } else {
      WrongLastDay(s.profile, s.events, s'.events.last, s'.profile);
    }
  }

  lemma SameColumns(s: Store, s': Store)
    requires Follows(s) && s'.events == s.events
    requires s'.profile == s.profile.(xp := s'.profile.xp, level := s'.profile.level,
        reputation := s'.profile.reputation)
    ensures Follows(s')
  {}

  lemma AtFirst()
    ensures Follows(NEW_USER)
  {
    forall d, n ensures !Block(Start, d, n) {
      assert !Active(Start, d);
    }
  }

  /** A call that records nothing new leaves the columns and the events alone. */
  lemma OtherCalls(cat: Catalog, s: Store, c: Call)
    requires Follows(s) && !Applies(s, c)
    ensures Follows(Step(cat, s, c)) && Step(cat, s, c).profile.lastDay == s.profile.lastDay
  {
    if c.op.ClaimQuest? && Claim(cat, s, c.op.quest, c.now).Some? {
      ClaimKeeps(cat, s, c.op.quest, c.now);
      SameColumns(s, Claim(cat, s, c.op.quest, c.now).value);
    }
  }

  /**
   On every run over a calendar in which the dates agree whenever an event is applied:
   the current streak is the length of the maximal block of consecutive active days that
   ends at the last active day, the longest streak is the length of the longest block
   there ever was, and every day that ends a block of n days was paid min(n, 20) bonus
   points, once.
   */
  lemma {:induction false} StreaksFollowCalendar(cat: Catalog, run: Run<Call>, today: int)
    requires Calendar(run) && DatesAgree(cat, run) && (run.Then? ==> run.last.now.today <= today)
    ensures Tracked(After(cat, run), today)
  {
    if run.Then? {
      var s, c := After(cat, run.past), run.last;
      StreaksFollowCalendar(cat, run.past, c.now.today);
      hide Follows;
      if Applies(s, c) {
        RecordFollowsExactlyWhen(cat, s, c.op.action, c.op.source, c.now);
        RecordColumns(cat, s, c.op.action, c.op.source, c.now);
      } else {
        OtherCalls(cat, s, c);
      }
      hide Record, Claim;
    } else {
      AtFirst();
    }
  }

  /** The columns are true to the calendar after every call of the run. */
  ghost predicate AlwaysFollows(cat: Catalog, run: Run<Call>) {
    Follows(After(cat, run)) && (run.Then? ==> AlwaysFollows(cat, run.past))
  }

  /** They are exactly when server and database agree on the date whenever an event is applied. */
  lemma {:induction false} AlwaysFollowsExactlyWhen(cat: Catalog, run: Run<Call>)
    requires Calendar(run)
    ensures AlwaysFollows(cat, run) <==> DatesAgree(cat, run)
  {
    if run == Start {
      AtFirst();
    } else {
      var s, c := After(cat, run.past), run.last;
      AlwaysFollowsExactlyWhen(cat, run.past);
      if DatesAgree(cat, run.past) {
        StreaksFollowCalendar(cat, run.past, c.now.today);
        hide Follows;
        if Applies(s, c) {
          RecordFollowsExactlyWhen(cat, s, c.op.action, c.op.source, c.now);
        } else {
          OtherCalls(cat, s, c);
        }
        hide Record, Claim;
      }
    }
  }

  /** Every active day ends a block, so the bonus was paid exactly once for it. */
  lemma PaidExactlyOnce(cat: Catalog, run: Run<Call>, day: int)
    requires Calendar(run) && DatesAgree(cat, run) && Active(After(cat, run).events, day)
    ensures Payments(After(cat, run).events, day) == 1
    ensures exists n :: Block(After(cat, run).events, day, n) && BonusOn(After(cat, run).events, day) == Min(n, 20)
  {
    var events := After(cat, run).events;
    StreaksFollowCalendar(cat, run, run.last.now.today);
    var low := Earliest(events);
    EarliestIsLow(events, low);
    var n := BlockEndingAt(events, day, low);
  }

  function Earliest(events: Run<EventRow>): int {
    match events
    case Start => 0
    case Then(past, e) => Min(Earliest(past), e.day)
  }

  lemma {:induction false} EarliestIsLow(events: Run<EventRow>, low: int)
    requires low <= Earliest(events)
    ensures forall d | Active(events, d) :: low <= d
  {
    if events.Then? {
      EarliestIsLow(events.past, low);
    }
  }

  lemma {:induction false} BlockEndingAt(events: Run<EventRow>, day: int, low: int) returns (n: int)
    requires Active(events, day) && forall d | Active(events, d) :: low <= d
    ensures Block(events, day, n)
    decreases day - low
  {
    n := 1;
    if Active(events, day - 1) {
      n := BlockEndingAt(events, day - 1, low);
      n := n + 1;
    }
  }

  /**
   When the database's date is a day behind the server's, two events on one day count as two
   days and are both paid.
   */
  lemma {:induction false} DatesMustAgree(cat: Catalog)
    ensures var now := Now(0, 1, 0, 0, 0, false);
            var run := Then(Then(Start, Call(RecordEvent(DailyLogin, "a"), now, true)),
                Call(RecordEvent(DailyLogin, "b"), now, true));
            var s := After(cat, run);
            s.profile.streak == 2 && Payments(s.events, 1) == 2 && Block(s.events, 1, 1)
  {
    var now := Now(0, 1, 0, 0, 0, false);
    RecordColumns(cat, NEW_USER, DailyLogin, "a", now);
    var s := Record(cat, NEW_USER, DailyLogin, "a", now).value;
    RecordColumns(cat, s, DailyLogin, "b", now);
    hide Record, Award;
    var first := Then(Start, Call(RecordEvent(DailyLogin, "a"), now, true));
    assert After(cat, first) == s;
    var s' := After(cat, Then(first, Call(RecordEvent(DailyLogin, "b"), now, true)));
    assert Active(s'.events, 1) && !Active(s'.events, 0);
  }
}
