/**
 Where every point of XP and reputation came from, on every run from a new user on.
 */
module ProgressionAccounts {
  import opened Progression
  import opened Wrappers

  function EventXp(events: Run<EventRow>): int {
    match events
    case Start => 0
    case Then(past, e) => EventXp(past) + e.awarded
  }

  function EventRep(events: Run<EventRow>): int {
    match events
    case Start => 0
    case Then(past, e) => EventRep(past) + e.awarded / 10
  }

  function SeasonXp(events: Run<EventRow>, season: int): int {
    match events
    case Start => 0
    case Then(past, e) => SeasonXp(past, season) + if e.season == season then e.awarded else 0
  }

  function QuestReward(cat: Catalog, quest: nat): (int, int) {
    if quest < |cat.quests| then (cat.quests[quest].xpReward, cat.quests[quest].repReward) else (0, 0)
  }

  function ClaimedXp(cat: Catalog, rows: Run<QuestRow>): int {
    match rows
    case Start => 0
    case Then(past, r) => ClaimedXp(cat, past) + if r.claimed then QuestReward(cat, r.quest).0 else 0
  }

  function ClaimedRep(cat: Catalog, rows: Run<QuestRow>): int {
    match rows
    case Start => 0
    case Then(past, r) => ClaimedRep(cat, past) + if r.claimed then QuestReward(cat, r.quest).1 else 0
  }

  function UnlockedXp(cat: Catalog, unlocked: Run<nat>): int {
    match unlocked
    case Start => 0
    case Then(past, a) => UnlockedXp(cat, past) + Reward(cat, a).xpReward
  }

  function UnlockedRep(cat: Catalog, unlocked: Run<nat>): int {
    match unlocked
    case Start => 0
    case Then(past, a) => UnlockedRep(cat, past) + Reward(cat, a).repReward
  }

  /** No (action, source) pair is counted twice. */
  predicate EventsDistinct(events: Run<EventRow>) {
    events.Then? ==> EventsDistinct(events.past) && !Recorded(events.past, events.last.action, events.last.source)
  }

  /** No achievement is unlocked twice. */
  predicate UnlockedDistinct(unlocked: Run<nat>) {
    unlocked.Then? ==> UnlockedDistinct(unlocked.past) && !IsUnlocked(unlocked.past, unlocked.last)
  }

  /** No quest has two rows for one period, so none is claimed twice. */
  predicate PeriodsDistinct(rows: Run<QuestRow>) {
    rows.Then? ==> PeriodsDistinct(rows.past) && FindQuest(rows.past, rows.last.quest, rows.last.period).None?
  }

  /** The stored totals are exactly what the rows account for. */
  ghost predicate Accounted(cat: Catalog, s: Store) {
    && s.profile.xp == EventXp(s.events) + ClaimedXp(cat, s.quests) + UnlockedXp(cat, s.unlocked)
    && s.profile.reputation == EventRep(s.events) + ClaimedRep(cat, s.quests) + UnlockedRep(cat, s.unlocked)
    && s.profile.level == NextLevel(s.profile.xp)
    && (forall c :: Score(s.seasons, c) == SeasonXp(s.events, c))
    && EventsDistinct(s.events) && UnlockedDistinct(s.unlocked) && PeriodsDistinct(s.quests)
  }

  // ---------------------------------------------------------------- achievements

  lemma {:induction false} UnlockAllAccounts(cat: Catalog, p: Profile, unlocked: Run<nat>, found: seq<nat>)
    ensures var (p', unlocked') := UnlockAll(cat, p, unlocked, found);
            && p'.xp - p.xp == UnlockedXp(cat, unlocked') - UnlockedXp(cat, unlocked)
            && p'.reputation - p.reputation == UnlockedRep(cat, unlocked') - UnlockedRep(cat, unlocked)
            && (p.level == NextLevel(p.xp) ==> p'.level == NextLevel(p'.xp))
            && p' == p.(xp := p'.xp, level := p'.level, reputation := p'.reputation)
  {
    if found != [] {
      UnlockAllAccounts(cat, p, unlocked, found[..|found| - 1]);
    }
  }

  lemma {:induction false} UnlockAllAdds(cat: Catalog, p: Profile, unlocked: Run<nat>, found: seq<nat>, a: nat)
    ensures IsUnlocked(UnlockAll(cat, p, unlocked, found).1, a) <==> IsUnlocked(unlocked, a) || a in found
  {
    if found != [] {
      var n := |found| - 1;
      UnlockAllAdds(cat, p, unlocked, found[..n], a);
      assert found == found[..n] + [found[n]];
    }
  }

  /** Locked achievements in increasing order. */
  predicate AreNew(unlocked: Run<nat>, found: seq<nat>) {
    && (forall a | a in found :: !IsUnlocked(unlocked, a))
    && (forall i, j | 0 <= i < j < |found| :: found[i] < found[j])
  }

  lemma AreNewPrefix(unlocked: Run<nat>, found: seq<nat>)
    requires AreNew(unlocked, found) && found != []
    ensures AreNew(unlocked, found[..|found| - 1]) && found[|found| - 1] !in found[..|found| - 1]
  {}

  lemma {:induction false} UnlockAllDistinct(cat: Catalog, p: Profile, unlocked: Run<nat>, found: seq<nat>)
    requires UnlockedDistinct(unlocked)
    requires AreNew(unlocked, found)
    ensures UnlockedDistinct(UnlockAll(cat, p, unlocked, found).1)
  {
    if found != [] {
      var n := |found| - 1;
      AreNewPrefix(unlocked, found);
      UnlockAllDistinct(cat, p, unlocked, found[..n]);
      UnlockAllAdds(cat, p, unlocked, found[..n], found[n]);
    }
  }

  lemma {:induction false} MatchesAreNew(cat: Catalog, unlocked: Run<nat>, events: Run<EventRow>, action: Action,
      streak: int, level: int, n: nat)
    requires n <= |cat.achievements|
    ensures var found := Matches(cat, unlocked, events, action, streak, level, n);
            AreNew(unlocked, found) && forall a | a in found :: a < n
  {
    if n > 0 {
      var before := Matches(cat, unlocked, events, action, streak, level, n - 1);
      MatchesAreNew(cat, unlocked, events, action, streak, level, n - 1);
      assert forall i | 0 <= i < |before| :: before[i] in before;
    }
  }

  // ---------------------------------------------------------------- quests

  lemma {:induction false} EnsureRowsUnclaimed(cat: Catalog, rows: Run<QuestRow>, action: Action, now: Now, n: nat)
    requires n <= |cat.quests|
    ensures var rows' := EnsureRows(cat, rows, action, now, n);
            && ClaimedXp(cat, rows') == ClaimedXp(cat, rows) && ClaimedRep(cat, rows') == ClaimedRep(cat, rows)
            && (PeriodsDistinct(rows) ==> PeriodsDistinct(rows'))
  {
    if n > 0 {
      EnsureRowsUnclaimed(cat, rows, action, now, n - 1);
    }
  }

  lemma {:induction false} ProgressKeepsClaims(cat: Catalog, rows: Run<QuestRow>, action: Action, now: Now,
      quest: nat, period: int)
    ensures var rows' := Progress(cat, rows, action, now);
            && ClaimedXp(cat, rows') == ClaimedXp(cat, rows) && ClaimedRep(cat, rows') == ClaimedRep(cat, rows)
            && (FindQuest(rows', quest, period).None? <==> FindQuest(rows, quest, period).None?)
  {
    if rows.Then? {
      ProgressKeepsClaims(cat, rows.past, action, now, quest, period);
    }
  }

  lemma {:induction false} ProgressKeepsPeriods(cat: Catalog, rows: Run<QuestRow>, action: Action, now: Now)
    requires PeriodsDistinct(rows)
    ensures PeriodsDistinct(Progress(cat, rows, action, now))
  {
    if rows.Then? {
      ProgressKeepsPeriods(cat, rows.past, action, now);
      ProgressKeepsClaims(cat, rows.past, action, now, rows.last.quest, rows.last.period);
    }
  }

  lemma {:induction false} MarkClaimedPays(cat: Catalog, rows: Run<QuestRow>, quest: nat, period: int)
    requires var row := FindQuest(rows, quest, period); row.Some? && !row.value.claimed
    ensures var rows' := MarkClaimed(rows, quest, period);
            && ClaimedXp(cat, rows') == ClaimedXp(cat, rows) + QuestReward(cat, quest).0
            && ClaimedRep(cat, rows') == ClaimedRep(cat, rows) + QuestReward(cat, quest).1
  {
    if !(rows.last.quest == quest && rows.last.period == period) {
      MarkClaimedPays(cat, rows.past, quest, period);
    }
  }

  lemma {:induction false} MarkClaimedFinds(rows: Run<QuestRow>, quest: nat, period: int, q: nat, d: int)
    ensures FindQuest(MarkClaimed(rows, quest, period), q, d).None? <==> FindQuest(rows, q, d).None?
  {
    if rows.Then? && !(rows.last.quest == quest && rows.last.period == period) {
      MarkClaimedFinds(rows.past, quest, period, q, d);
    }
  }

  lemma {:induction false} MarkClaimedPeriods(rows: Run<QuestRow>, quest: nat, period: int)
    requires PeriodsDistinct(rows)
    ensures PeriodsDistinct(MarkClaimed(rows, quest, period))
  {
    if rows.Then? && !(rows.last.quest == quest && rows.last.period == period) {
      MarkClaimedPeriods(rows.past, quest, period);
      MarkClaimedFinds(rows.past, quest, period, rows.last.quest, rows.last.period);
    }
  }

  // ---------------------------------------------------------------- the account

  lemma QuestsAccounted(cat: Catalog, rows: Run<QuestRow>, action: Action, now: Now)
    requires PeriodsDistinct(rows)
    ensures var rows' := Progress(cat, EnsureRows(cat, rows, action, now, |cat.quests|), action, now);
            && ClaimedXp(cat, rows') == ClaimedXp(cat, rows) && ClaimedRep(cat, rows') == ClaimedRep(cat, rows)
            && PeriodsDistinct(rows')
  {
    var ensured := EnsureRows(cat, rows, action, now, |cat.quests|);
    EnsureRowsUnclaimed(cat, rows, action, now, |cat.quests|);
    ProgressKeepsClaims(cat, ensured, action, now, 0, 0);
    ProgressKeepsPeriods(cat, ensured, action, now);
  }

  lemma UnlocksAccounted(cat: Catalog, p: Profile, unlocked: Run<nat>, events: Run<EventRow>, action: Action)
    requires p.level == NextLevel(p.xp) && UnlockedDistinct(unlocked)
    ensures var found := Matches(cat, unlocked, events, action, p.streak, p.level, |cat.achievements|);
            var (p', unlocked') := UnlockAll(cat, p, unlocked, found);
            && p'.xp == p.xp + UnlockedXp(cat, unlocked') - UnlockedXp(cat, unlocked)
            && p'.reputation == p.reputation + UnlockedRep(cat, unlocked') - UnlockedRep(cat, unlocked)
            && p'.level == NextLevel(p'.xp) && UnlockedDistinct(unlocked')
  {
    var found := Matches(cat, unlocked, events, action, p.streak, p.level, |cat.achievements|);
    UnlockAllAccounts(cat, p, unlocked, found);
    MatchesAreNew(cat, unlocked, events, action, p.streak, p.level, |cat.achievements|);
    UnlockAllDistinct(cat, p, unlocked, found);
  }

  lemma SeasonsAccounted(seasons: map<int, int>, events: Run<EventRow>, e: EventRow)
    requires forall c :: Score(seasons, c) == SeasonXp(events, c)
    ensures var seasons' := seasons[e.season := Score(seasons, e.season) + e.awarded];
            forall c :: Score(seasons', c) == SeasonXp(Then(events, e), c)
  {}

  lemma {:induction false} RecordAccounted(cat: Catalog, s: Store, action: Action, source: string, now: Now)
    requires Accounted(cat, s) && Record(cat, s, action, source, now).Some?
    ensures Accounted(cat, Record(cat, s, action, source, now).value)
  {
    if !Recorded(s.events, action, source) {
      hide Award, Bonus, UnlockAll, Matches, NextStreak, NextLevel, Progress, EnsureRows;
      var p1, award := Advance(s.profile, action, now), Award(s.profile, action, now);
      var e := Entry(s.profile, action, source, now);
      QuestsAccounted(cat, s.quests, action, now);
      UnlocksAccounted(cat, p1, s.unlocked, Then(s.events, e), action);
      SeasonsAccounted(s.seasons, s.events, e);
    }
  }

  lemma ClaimAccounted(cat: Catalog, s: Store, quest: nat, now: Now)
    requires Accounted(cat, s) && Claim(cat, s, quest, now).Some?
    ensures Accounted(cat, Claim(cat, s, quest, now).value)
  {
    var period := Period(cat.quests[quest], now.dbDay, now.weekStart);
    if FindQuest(s.quests, quest, period).Some? {
      MarkClaimedPays(cat, s.quests, quest, period);
      MarkClaimedPeriods(s.quests, quest, period);
    }
  }

  /**
   On every run: stored XP is the sum of the awards of distinct (action, source) events,
   of the rewards of distinct claimed quest periods and of the rewards of distinct
   unlocked achievements; reputation likewise; each season's score is the sum of the
   awards made in it; and the stored level is the level of the stored XP.
   */
  lemma {:induction false} AlwaysAccounted(cat: Catalog, run: Run<Call>)
    ensures Accounted(cat, After(cat, run))
  {
    if run.Then? {
      var s := After(cat, run.past);
      AlwaysAccounted(cat, run.past);
      var effect := Effect(cat, s, run.last);
      if effect.Some? {
        match run.last.op
        case RecordEvent(action, source) => RecordAccounted(cat, s, action, source, run.last.now);
        case ClaimQuest(quest) => ClaimAccounted(cat, s, quest, run.last.now);
      }
    }
  }

  // ---------------------------------------------------------------- bounds

  predicate AwardsBounded(events: Run<EventRow>) {
    events.Then? ==>
      && AwardsBounded(events.past)
      && var e := events.last;
         BaseXp(e.action) <= e.awarded <= 4 * BaseXp(e.action) + 20 && 0 < BaseXp(e.action)
  }

  /** Every award ever made is worth its action: never less than the base, never more than four times it plus 20. */
  lemma {:induction false} AlwaysBounded(cat: Catalog, run: Run<Call>)
    ensures var s := After(cat, run); 0 <= s.profile.streak && AwardsBounded(s.events)
  {
    if run.Then? {
      hide Multiplier, RoundTenths, Matches, Claim, EnsureRows, Progress, NextLevel;
      var s, c := After(cat, run.past), run.last;
      AlwaysBounded(cat, run.past);
      if c.op.RecordEvent? && Record(cat, s, c.op.action, c.op.source, c.now).Some? {
        RecordBounded(cat, s, c.op.action, c.op.source, c.now);
      } else if c.op.ClaimQuest? && Claim(cat, s, c.op.quest, c.now).Some? {
        ClaimKeeps(cat, s, c.op.quest, c.now);
      }
    }
  }

  lemma {:induction false} RecordBounded(cat: Catalog, s: Store, action: Action, source: string, now: Now)
    requires 0 <= s.profile.streak && AwardsBounded(s.events) && 0 < BaseXp(action)
    ensures Record(cat, s, action, source, now).Some?
    ensures var s' := Record(cat, s, action, source, now).value; 0 <= s'.profile.streak && AwardsBounded(s'.events)
  {
    hide Multiplier, RoundTenths, EnsureRows, Progress, NextLevel;
    var p1 := Advance(s.profile, action, now);
    var events := Then(s.events, Entry(s.profile, action, source, now));
    AwardBounds(s.profile, action, now);
    UnlockAllAccounts(cat, p1, s.unlocked,
        Matches(cat, s.unlocked, events, action, p1.streak, p1.level, |cat.achievements|));
  }

  /** A claim touches neither the events nor the streak. */
  lemma ClaimKeeps(cat: Catalog, s: Store, quest: nat, now: Now)
    requires Claim(cat, s, quest, now).Some?
    ensures var s' := Claim(cat, s, quest, now).value;
            && s'.events == s.events
            && s'.profile == s.profile.(xp := s'.profile.xp, level := s'.profile.level,
                reputation := s'.profile.reputation)
  {}

  predicate NothingTaken(cat: Catalog) {
    && (forall q | q in cat.quests :: 0 <= q.xpReward)
    && (forall a | a in cat.achievements :: 0 <= a.xpReward)
  }

  lemma {:induction false} SumsNonNegative(cat: Catalog, events: Run<EventRow>, rows: Run<QuestRow>, unlocked: Run<nat>)
    requires NothingTaken(cat) && AwardsBounded(events)
    ensures 0 <= EventXp(events) && 0 <= ClaimedXp(cat, rows) && 0 <= UnlockedXp(cat, unlocked)
    decreases Length(events) + Length(rows) + Length(unlocked)
  {
    if events.Then? {
      SumsNonNegative(cat, events.past, rows, unlocked);
    } else if rows.Then? {
      SumsNonNegative(cat, events, rows.past, unlocked);
    } else if unlocked.Then? {
      SumsNonNegative(cat, events, rows, unlocked.past);
    }
  }

  /**
   On every run the stored level L and XP satisfy 100 (L - 1)^2 <= xp < 100 L^2 exactly
   when the XP is not negative, which it never is unless some reward takes XP away.
   */
  lemma {:induction false} LevelFitsXp(cat: Catalog, run: Run<Call>)
    ensures var p := After(cat, run).profile;
            && 1 <= p.level
            && (0 <= p.xp <==> 100 * (p.level - 1) * (p.level - 1) <= p.xp < 100 * p.level * p.level)
            && (NothingTaken(cat) ==> 0 <= p.xp)
  {
    var s := After(cat, run);
    AlwaysAccounted(cat, run);
    hide After, Accounted;
    assert s.profile.level == NextLevel(s.profile.xp) by {
      AccountedSums(cat, s);
    }
    LevelCurve(s.profile.xp, 1);
    if 0 <= s.profile.xp {
      LevelIsRoot(s.profile.xp);
    }
    if NothingTaken(cat) {
      AlwaysBounded(cat, run);
      SumsNonNegative(cat, s.events, s.quests, s.unlocked);
      AccountedSums(cat, s);
    }
  }

  lemma AccountedSums(cat: Catalog, s: Store)
    requires Accounted(cat, s)
    ensures s.profile.level == NextLevel(s.profile.xp)
    ensures s.profile.xp == EventXp(s.events) + ClaimedXp(cat, s.quests) + UnlockedXp(cat, s.unlocked)
  {}
}
