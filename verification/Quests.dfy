/**
 Which quest periods are how far and claimed, and which achievements are unlocked, on
 every run, in terms of the calls made.
 */
module Quests {
  import opened Progression
  import opened ProgressionAccounts
  import opened Streaks
  import opened Wrappers

  // ---------------------------------------------------------------- quests

  predicate Asks(cat: Catalog, quest: nat, period: int, now: Now) {
    && quest < |cat.quests| && cat.quests[quest].active
    && period == if cat.quests[quest].daily then now.dbDay else now.weekStart
  }

  /**
   The recorded events that count towards this period of the quest: those with its action in
   the period, from the first one on that came while the quest asked for it.  Progress goes by
   dates alone, so the days of a week whose first day is the period count as well.
   */
  function Hits(cat: Catalog, run: Run<Call>, quest: nat, period: int): nat {
    match run
    case Start => 0
    case Then(past, c) =>
      var before := Hits(cat, past, quest, period);
      if Applies(After(cat, past), c) && quest < |cat.quests| && cat.quests[quest].action == c.op.action
         && (period == c.now.dbDay || period == c.now.weekStart) && (0 < before || Asks(cat, quest, period, c.now))
      then before + 1 else before
  }

  /** Some claim of this period was committed when its target had been reached. */
  predicate ClaimedIn(cat: Catalog, run: Run<Call>, quest: nat, period: int) {
    run.Then? &&
    (ClaimedIn(cat, run.past, quest, period)
     || (&& run.last.commits && run.last.op == ClaimQuest(quest) && Asks(cat, quest, period, run.last.now)
         && cat.quests[quest].target <= Hits(cat, run.past, quest, period)))
  }

  lemma {:induction false} FindEnsured(cat: Catalog, rows: Run<QuestRow>, action: Action, now: Now, n: nat,
      quest: nat, period: int)
    requires n <= |cat.quests|
    ensures FindQuest(EnsureRows(cat, rows, action, now, n), quest, period)
            == if FindQuest(rows, quest, period).Some? then FindQuest(rows, quest, period)
               else if quest < n && cat.quests[quest].action == action && Asks(cat, quest, period, now)
               then Some(QuestRow(quest, period, 0, false)) else None
  {
    if n > 0 {
      FindEnsured(cat, rows, action, now, n - 1, quest, period);
    }
  }

  lemma {:induction false} FindProgressed(cat: Catalog, rows: Run<QuestRow>, action: Action, now: Now,
      quest: nat, period: int)
    ensures FindQuest(Progress(cat, rows, action, now), quest, period)
            == match FindQuest(rows, quest, period)
               case None => None
               case Some(r) =>
                 if quest < |cat.quests| && cat.quests[quest].action == action
                    && (period == now.dbDay || period == now.weekStart)
                 then Some(r.(progress := Min(cat.quests[quest].target, r.progress + 1))) else Some(r)
  {
    if rows.Then? {
      FindProgressed(cat, rows.past, action, now, quest, period);
    }
  }

  lemma {:induction false} FindMarked(rows: Run<QuestRow>, q: nat, p: int, quest: nat, period: int)
    ensures FindQuest(MarkClaimed(rows, q, p), quest, period)
            == match FindQuest(rows, quest, period)
               case None => None
               case Some(r) => Some(if q == quest && p == period then r.(claimed := true) else r)
  {
    if rows.Then? {
      FindMarked(rows.past, q, p, quest, period);
    }
  }

  lemma RecordTables(cat: Catalog, s: Store, action: Action, source: string, now: Now)
    requires 0 < BaseXp(action) && !Recorded(s.events, action, source)
    ensures Record(cat, s, action, source, now).Some?
    ensures var s' := Record(cat, s, action, source, now).value;
            && s'.quests == Progress(cat, EnsureRows(cat, s.quests, action, now, |cat.quests|), action, now)
            && s'.unlocked == Unlocks(cat, s, action, source, now)
  {
    hide Award, Bonus, Matches, Progress, EnsureRows, NextStreak, NextLevel, UnlockAll;
  }

  function Unlocks(cat: Catalog, s: Store, action: Action, source: string, now: Now): Run<nat> {
    var p1 := Advance(s.profile, action, now);
    var events := Then(s.events, Entry(s.profile, action, source, now));
    UnlockAll(cat, p1, s.unlocked,
              Matches(cat, s.unlocked, events, action, p1.streak, p1.level, |cat.achievements|)).1
  }

  /** The rows of a quest with a positive target, as all in the table are. */
  ghost predicate RowsSay(cat: Catalog, rows: Run<QuestRow>, quest: nat, period: int, hits: nat, claimed: bool)
    requires quest < |cat.quests|
  {
    FindQuest(rows, quest, period)
    == if hits == 0 then None
       else Some(QuestRow(quest, period, if hits < cat.quests[quest].target then hits else cat.quests[quest].target,
                          claimed))
  }

  lemma RecordSays(cat: Catalog, rows: Run<QuestRow>, action: Action, now: Now, quest: nat, period: int,
      hits: nat, claimed: bool)
    requires quest < |cat.quests| && 0 < cat.quests[quest].target
    requires RowsSay(cat, rows, quest, period, hits, claimed) && (hits == 0 ==> !claimed)
    ensures var counts := cat.quests[quest].action == action && (period == now.dbDay || period == now.weekStart)
                          && (0 < hits || Asks(cat, quest, period, now));
            RowsSay(cat, Progress(cat, EnsureRows(cat, rows, action, now, |cat.quests|), action, now),
                    quest, period, if counts then hits + 1 else hits, claimed)
  {
    FindEnsured(cat, rows, action, now, |cat.quests|, quest, period);
    FindProgressed(cat, EnsureRows(cat, rows, action, now, |cat.quests|), action, now, quest, period);
    hide EnsureRows, Progress, FindQuest;
  }

  lemma ClaimSays(cat: Catalog, s: Store, c: Call, quest: nat, period: int, hits: nat, claimed: bool)
    requires quest < |cat.quests| && (forall q | q in cat.quests :: 0 < q.target) && c.op.ClaimQuest?
    requires RowsSay(cat, s.quests, quest, period, hits, claimed)
    ensures RowsSay(cat, Step(cat, s, c).quests, quest, period, hits,
                    claimed || (c.commits && c.op.quest == quest && Asks(cat, quest, period, c.now)
                                && cat.quests[quest].target <= hits))
  {
    var q := c.op.quest;
    if q < |cat.quests| {
      assert cat.quests[q] in cat.quests;
      var p := if cat.quests[q].daily then c.now.dbDay else c.now.weekStart;
      FindMarked(s.quests, q, p, quest, period);
    }
    hide FindQuest, MarkClaimed, NextLevel;
  }

  lemma EventSays(cat: Catalog, s: Store, c: Call, quest: nat, period: int, hits: nat, claimed: bool)
    requires quest < |cat.quests| && 0 < cat.quests[quest].target && c.op.RecordEvent?
    requires RowsSay(cat, s.quests, quest, period, hits, claimed) && (hits == 0 ==> !claimed)
    ensures RowsSay(cat, Step(cat, s, c).quests, quest, period,
                    if Applies(s, c) && cat.quests[quest].action == c.op.action
                       && (period == c.now.dbDay || period == c.now.weekStart)
                       && (0 < hits || Asks(cat, quest, period, c.now))
                    then hits + 1 else hits,
                    claimed)
  {
    if Applies(s, c) {
      RecordTables(cat, s, c.op.action, c.op.source, c.now);
      RecordSays(cat, s.quests, c.op.action, c.now, quest, period, hits, claimed);
      hide Record, RowsSay, Asks, Progress, EnsureRows;
    } else {
      hide RowsSay, Asks, Progress, EnsureRows, NextLevel, UnlockAll, Matches, Advance, Entry, BaseXp;
    }
  }

  /**
   On every run a quest's row for a period is there exactly when events count towards it, is
   as far as they have brought it, at most to its target, and is claimed exactly when a claim
   was committed after it had reached its target.
   */
  lemma {:induction false} RowsSayHits(cat: Catalog, run: Run<Call>, quest: nat, period: int)
    requires quest < |cat.quests| && forall q | q in cat.quests :: 0 < q.target
    ensures RowsSay(cat, After(cat, run).quests, quest, period,
                    Hits(cat, run, quest, period), ClaimedIn(cat, run, quest, period))
    ensures ClaimedIn(cat, run, quest, period) ==> cat.quests[quest].target <= Hits(cat, run, quest, period)
  {
    if run.Then? {
      var s, c := After(cat, run.past), run.last;
      var hits, claimed := Hits(cat, run.past, quest, period), ClaimedIn(cat, run.past, quest, period);
      assert cat.quests[quest] in cat.quests;
      RowsSayHits(cat, run.past, quest, period);
      hide Step, RowsSay, Asks, Applies;
      if c.op.ClaimQuest? {
        ClaimSays(cat, s, c, quest, period, hits, claimed);
        assert !Applies(s, c) by { ClaimsApplyNothing(s, c); }
      } else {
        EventSays(cat, s, c, quest, period, hits, claimed);
      }
    }
  }

  lemma ClaimsApplyNothing(s: Store, c: Call)
    requires c.op.ClaimQuest?
    ensures !Applies(s, c)
  {}

  // ---------------------------------------------------------------- achievements

  /** What has been earned by the last call: by its action's count, by the streak, or by the level its award led to. */
  predicate EarnedBy(cat: Catalog, run: Run<Call>, a: nat)
    requires run.Then? && Applies(After(cat, run.past), run.last) && a < |cat.achievements|
  {
    var s, s', it := After(cat, run.past), After(cat, run), cat.achievements[a];
    && it.active
    && match it.metric
       case Count(action) => action == run.last.op.action && CountOf(s'.events, action) >= it.threshold
       case StreakDays => s'.profile.streak >= it.threshold
       case LevelReached => s'.events.Then? && NextLevel(s.profile.xp + s'.events.last.awarded) >= it.threshold
       case OtherMetric => false
  }

  predicate EarnedIn(cat: Catalog, run: Run<Call>, a: nat) {
    run.Then? && a < |cat.achievements|
    && (EarnedIn(cat, run.past, a) || (Applies(After(cat, run.past), run.last) && EarnedBy(cat, run, a)))
  }

  lemma {:induction false} MatchesExactly(cat: Catalog, unlocked: Run<nat>, events: Run<EventRow>, action: Action,
      streak: int, level: int, n: nat, a: nat)
    requires n <= |cat.achievements|
    ensures a in Matches(cat, unlocked, events, action, streak, level, n)
            <==> a < n && cat.achievements[a].active && !IsUnlocked(unlocked, a)
                 && Earned(cat.achievements[a], events, action, streak, level)
  {
    if n > 0 {
      MatchesExactly(cat, unlocked, events, action, streak, level, n - 1, a);
      hide Earned, IsUnlocked;
    }
  }

  lemma RecordUnlocks(cat: Catalog, run: Run<Call>, a: nat)
    requires run.Then? && Applies(After(cat, run.past), run.last)
    ensures IsUnlocked(After(cat, run).unlocked, a)
            <==> IsUnlocked(After(cat, run.past).unlocked, a) || (a < |cat.achievements| && EarnedBy(cat, run, a))
  {
    var s, c := After(cat, run.past), run.last;
    var p1 := Advance(s.profile, c.op.action, c.now);
    var events := Then(s.events, Entry(s.profile, c.op.action, c.op.source, c.now));
    var found := Matches(cat, s.unlocked, events, c.op.action, p1.streak, p1.level, |cat.achievements|);
    RecordTables(cat, s, c.op.action, c.op.source, c.now);
    RecordColumns(cat, s, c.op.action, c.op.source, c.now);
    MatchesExactly(cat, s.unlocked, events, c.op.action, p1.streak, p1.level, |cat.achievements|, a);
    UnlockAllAdds(cat, p1, s.unlocked, found, a);
    hide Record, UnlockAll, Matches, IsUnlocked, NextLevel, NextStreak, Award, Bonus;
  }

  /** On every run the unlocked achievements are exactly those earned by some recorded event. */
  lemma {:induction false} UnlockedExactlyWhenEarned(cat: Catalog, run: Run<Call>, a: nat)
    ensures IsUnlocked(After(cat, run).unlocked, a) <==> EarnedIn(cat, run, a)
  {
    if run.Then? {
      var s, c := After(cat, run.past), run.last;
      UnlockedExactlyWhenEarned(cat, run.past, a);
      if Applies(s, c) {
        RecordUnlocks(cat, run, a);
        hide Step, IsUnlocked, EarnedBy;
      } else {
        OtherCallsUnlock(cat, s, c);
        hide Step;
      }
    }
  }

  lemma OtherCallsUnlock(cat: Catalog, s: Store, c: Call)
    requires !Applies(s, c)
    ensures Step(cat, s, c).unlocked == s.unlocked
  {
    hide FindQuest, MarkClaimed, NextLevel;
  }
}
