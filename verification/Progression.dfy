/**
 The progression engine: XP, level, reputation, streak, combo, season scores, quests and
 achievements of one user.  Calls are transactions, one after the other.  Multipliers are
 counted in tenths, days and seasons are numbers, and boosts are an input.
 */
module Progression {
  import opened Wrappers

  datatype Action =
    | DailyLogin | PostCreated | CommentCreated | ReactionAdded | MessageSent | ContentViewed | StoryViewed
    | FollowCreated | StoryCreated | CommunityJoined | CommunityEventRsvp | ReferralCompleted
    | Unsupported(name: string)

  datatype Metric = Count(action: Action) | StreakDays | LevelReached | OtherMetric

  datatype Quest = Quest(action: Action, target: int, xpReward: int, repReward: int, daily: bool, active: bool)

  datatype Achievement = Achievement(metric: Metric, threshold: int, xpReward: int, repReward: int, active: bool)

  /** The rows an administrator maintains; a quest or achievement is known by its index. */
  datatype Catalog = Catalog(quests: seq<Quest>, achievements: seq<Achievement>)

  datatype Profile = Profile(
    xp: int, level: int, reputation: int, streak: int, longest: int,
    lastDay: Option<int>, combo: int, comboAt: Option<int>, shields: int)

  /** One recorded event: its points, of which `bonus` for the streak, and when and under what it was recorded. */
  datatype EventRow = EventRow(
    action: Action, source: string, awarded: int, bonus: int,
    season: int, day: int, time: int, boosted: bool)

  datatype QuestRow = QuestRow(quest: nat, period: int, progress: int, claimed: bool)

  datatype Store = Store(
    profile: Profile,
    events: Run<EventRow>,
    seasons: map<int, int>,
    quests: Run<QuestRow>,
    unlocked: Run<nat>)

  const NEW_USER := Store(Profile(0, 1, 0, 0, 0, None, 0, None, 1), Start, map[], Start, Start)

  /**
   The clocks a call reads: the server's time and UTC day, the database's date, week and
   season, and whether a boost is on.
   */
  datatype Now = Now(time: int, today: int, dbDay: int, weekStart: int, season: int, boosted: bool)

  const COMBO_GAP: int := 300

  function BaseXp(a: Action): nat {
    match a
    case DailyLogin => 20
    case PostCreated => 50
    case CommentCreated => 15
    case ReactionAdded => 5
    case MessageSent => 5
    case ContentViewed => 2
    case StoryViewed => 2
    case FollowCreated => 10
    case StoryCreated => 20
    case CommunityJoined => 25
    case CommunityEventRsvp => 15
    case ReferralCompleted => 100
    case Unsupported(_) => 0
  }

  function Min(a: int, b: int): int {
    if a < b then a else b
  }

  /** 1.0 plus 0.1 for every combo step after the first, at most 2.0. */
  function ComboTenths(combo: int): int {
    if combo <= 1 then 10 else Min(10 + Min(combo - 1, 10), 20)
  }

  /** Integer square root. */
  function ISqrt(n: nat): (r: nat)
    ensures r * r <= n < (r + 1) * (r + 1)
  {
    if n == 0 then 0
    else
      var r := ISqrt(n - 1);
      if (r + 1) * (r + 1) <= n then r + 1 else r
  }

  function NextLevel(xp: int): int {
    if xp <= 0 then 1 else ISqrt(xp / 100) + 1
  }

  function NextLevelXp(level: int): int {
    var l := if level < 1 then 1 else level;
    l * l * 100
  }

  // ---------------------------------------------------------------- recording an event

  function NextStreak(p: Profile, today: int): int {
    match p.lastDay
    case None => 1
    case Some(last) => if today - last == 1 then p.streak + 1 else if today - last > 1 then 1 else p.streak
  }

  function Bonus(p: Profile, today: int): int {
    if p.lastDay == Some(today) then 0 else Min(NextStreak(p, today), 20)
  }

  function NextCombo(p: Profile, time: int): int {
    if p.comboAt.Some? && time - p.comboAt.value <= COMBO_GAP then p.combo + 1 else 1
  }

  function Multiplier(p: Profile, now: Now): int {
    var m := ComboTenths(NextCombo(p, now.time));
    Min(if now.boosted then 2 * m else m, 40)
  }

  /** Half away from zero, as math.Round does, for the non-negative products that occur here. */
  function RoundTenths(n: int): int {
    (n + 5) / 10
  }

  function Award(p: Profile, action: Action, now: Now): int {
    RoundTenths(BaseXp(action) * Multiplier(p, now)) + Bonus(p, now.today)
  }

  function Entry(p: Profile, action: Action, source: string, now: Now): EventRow {
    EventRow(action, source, Award(p, action, now), Bonus(p, now.today), now.season, now.today, now.time, now.boosted)
  }

  predicate Recorded(events: Run<EventRow>, action: Action, source: string) {
    events.Then? && ((events.last.action == action && events.last.source == source)
        || Recorded(events.past, action, source))
  }

  function CountOf(events: Run<EventRow>, action: Action): nat {
    match events
    case Start => 0
    case Then(past, e) => CountOf(past, action) + if e.action == action then 1 else 0
  }

  function Advance(p: Profile, action: Action, now: Now): Profile {
    var streak, award := NextStreak(p, now.today), Award(p, action, now);
    p.(xp := p.xp + award,
       level := NextLevel(p.xp + award),
       reputation := p.reputation + award / 10,
       streak := streak,
       longest := if streak > p.longest then streak else p.longest,
       lastDay := Some(now.dbDay),
       combo := NextCombo(p, now.time),
       comboAt := Some(now.time))
  }

  function Score(seasons: map<int, int>, season: int): int {
    if season in seasons then seasons[season] else 0
  }

  // ---------------------------------------------------------------- quests

  function Period(q: Quest, dbDay: int, weekStart: int): int {
    if q.daily then dbDay else weekStart
  }

  function FindQuest(rows: Run<QuestRow>, quest: nat, period: int): Option<QuestRow> {
    match rows
    case Start => None
    case Then(past, r) => if r.quest == quest && r.period == period then Some(r) else FindQuest(past, quest, period)
  }

  /**
   INSERT ... ON CONFLICT DO NOTHING of the current period's rows of the first `n` quests that
   are active and match.
   */
  function EnsureRows(cat: Catalog, rows: Run<QuestRow>, action: Action, now: Now, n: nat): Run<QuestRow>
    requires n <= |cat.quests|
  {
    if n == 0 then rows
    else
      var before := EnsureRows(cat, rows, action, now, n - 1);
      var q := cat.quests[n - 1];
      var period := Period(q, now.dbDay, now.weekStart);
      if q.active && q.action == action && FindQuest(before, n - 1, period).None?
      then Then(before, QuestRow(n - 1, period, 0, false)) else before
  }

  /** The progress update, which goes by period dates alone. */
  function Progress(cat: Catalog, rows: Run<QuestRow>, action: Action, now: Now): Run<QuestRow> {
    match rows
    case Start => Start
    case Then(past, r) =>
      var touched := r.quest < |cat.quests| && cat.quests[r.quest].action == action
                     && (r.period == now.dbDay || r.period == now.weekStart);
      Then(Progress(cat, past, action, now),
           if touched then r.(progress := Min(cat.quests[r.quest].target, r.progress + 1)) else r)
  }

  function MarkClaimed(rows: Run<QuestRow>, quest: nat, period: int): Run<QuestRow> {
    match rows
    case Start => Start
    case Then(past, r) =>
      if r.quest == quest && r.period == period then Then(past, r.(claimed := true))
          else Then(MarkClaimed(past, quest, period), r)
  }

  // ---------------------------------------------------------------- achievements

  predicate IsUnlocked(unlocked: Run<nat>, a: nat) {
    unlocked.Then? && (unlocked.last == a || IsUnlocked(unlocked.past, a))
  }

  predicate Earned(a: Achievement, events: Run<EventRow>, action: Action, streak: int, level: int) {
    || (a.metric == Metric.Count(action) && CountOf(events, action) >= a.threshold)
    || (a.metric == StreakDays && streak >= a.threshold)
    || (a.metric == LevelReached && level >= a.threshold)
  }

  /** The indices below `n` the query returns: active, not unlocked yet, earned. */
  function Matches(cat: Catalog, unlocked: Run<nat>, events: Run<EventRow>, action: Action, streak: int, level: int,
      n: nat): seq<nat>
    requires n <= |cat.achievements|
  {
    if n == 0 then []
    else
      var before := Matches(cat, unlocked, events, action, streak, level, n - 1);
      var a := cat.achievements[n - 1];
      if a.active && !IsUnlocked(unlocked, n - 1) && Earned(a, events, action, streak, level)
      then before + [n - 1] else before
  }

  function Reward(cat: Catalog, a: nat): Achievement {
    if a < |cat.achievements| then cat.achievements[a] else Achievement(OtherMetric, 0, 0, 0, false)
  }

  function Gain(p: Profile, xp: int, rep: int): Profile {
    p.(xp := p.xp + xp, level := NextLevel(p.xp + xp), reputation := p.reputation + rep)
  }

  function UnlockAll(cat: Catalog, p: Profile, unlocked: Run<nat>, found: seq<nat>): (Profile, Run<nat>) {
    if found == [] then (p, unlocked)
    else
      var n := |found| - 1;
      var (p', unlocked') := UnlockAll(cat, p, unlocked, found[..n]);
      var a := Reward(cat, found[n]);
      (Gain(p', a.xpReward, a.repReward), Then(unlocked', found[n]))
  }

  function ShieldAward(before: int, after: int): int {
    if (after == 7 || after == 30) && before < after then 1 else 0
  }

  // ---------------------------------------------------------------- the two transactions

  datatype Op =
    | RecordEvent(action: Action, source: string)
    | ClaimQuest(quest: nat)

  /** RecordEvent when every statement succeeds; None when it is refused. */
  function Record(cat: Catalog, s: Store, action: Action, source: string, now: Now): Option<Store> {
    if BaseXp(action) == 0 then None
    else if Recorded(s.events, action, source) then Some(s)
    else
      var p := s.profile;
      var p1, award := Advance(p, action, now), Award(p, action, now);
      var events := Then(s.events, Entry(p, action, source, now));
      var quests := Progress(cat, EnsureRows(cat, s.quests, action, now, |cat.quests|), action, now);
      var found := Matches(cat, s.unlocked, events, action, p1.streak, p1.level, |cat.achievements|);
      var (p2, unlocked) := UnlockAll(cat, p1, s.unlocked, found);
      var p3 := p2.(shields := Min(3, p2.shields + ShieldAward(p.streak, p1.streak)));
      Some(Store(p3, events, s.seasons[now.season := Score(s.seasons, now.season) + award], quests, unlocked))
  }

  function Claim(cat: Catalog, s: Store, quest: nat, now: Now): Option<Store> {
    if quest >= |cat.quests| || !cat.quests[quest].active then None
    else
      var q := cat.quests[quest];
      var period := Period(q, now.dbDay, now.weekStart);
      var row := FindQuest(s.quests, quest, period);
      var progress := if row.Some? then row.value.progress else 0;
      if (row.Some? && row.value.claimed) || progress < q.target then None
      else
        Some(s.(quests := if row.Some? then MarkClaimed(s.quests, quest, period)
                          else Then(s.quests, QuestRow(quest, period, progress, true)),
                profile := Gain(s.profile, q.xpReward, q.repReward)))
  }

  /** A call; `commits` is false when some statement or the commit fails, and then everything is rolled back. */
  datatype Call = Call(op: Op, now: Now, commits: bool)

  function Effect(cat: Catalog, s: Store, c: Call): Option<Store> {
    match c.op
    case RecordEvent(action, source) => Record(cat, s, action, source, c.now)
    case ClaimQuest(quest) => Claim(cat, s, quest, c.now)
  }

  function Step(cat: Catalog, s: Store, c: Call): Store {
    var effect := Effect(cat, s, c);
    if c.commits && effect.Some? then effect.value else s
  }

  function After(cat: Catalog, run: Run<Call>): Store {
    match run
    case Start => NEW_USER
    case Then(past, c) => Step(cat, After(cat, past), c)
  }

  // ---------------------------------------------------------------- levels

  /** A level is reached exactly at its XP: the stored curve and the shown threshold are inverse to each other. */
  lemma {:induction false} LevelCurve(xp: int, level: int)
    requires 1 <= level
    ensures NextLevel(xp) > level <==> xp >= NextLevelXp(level)
    ensures 0 <= xp ==> 100 * (NextLevel(xp) - 1) * (NextLevel(xp) - 1) <= xp < NextLevelXp(NextLevel(xp))
  {
    if 0 < xp {
      var r := ISqrt(xp / 100);
      if r + 1 > level {
        SquareGrows(level, r);
      } else {
        SquareGrows(r + 1, level);
      }
    } else {
      SquareGrows(1, level);
    }
  }

  /** Level L is from 100 (L - 1)^2 up to, and not including, 100 L^2 points. */
  lemma LevelIsRoot(xp: int)
    requires 0 <= xp
    ensures 1 <= NextLevel(xp)
    ensures 100 * (NextLevel(xp) - 1) * (NextLevel(xp) - 1) <= xp < 100 * NextLevel(xp) * NextLevel(xp)
  {
    LevelCurve(xp, 1);
    ThresholdIsSquare(NextLevel(xp));
    hide NextLevel;
  }

  lemma ThresholdIsSquare(level: int)
    requires 1 <= level
    ensures NextLevelXp(level) == 100 * level * level
  {
    assert level * level * 100 == 100 * level * level;
  }

  lemma SquareGrows(a: int, b: int)
    requires 0 <= a <= b
    ensures a * a <= b * b
  {}

  /** Every award lies between the base and four times the base plus the largest bonus. */
  lemma AwardBounds(p: Profile, action: Action, now: Now)
    requires 0 <= p.streak
    ensures var base, award := BaseXp(action), Award(p, action, now);
            && 10 <= Multiplier(p, now) <= 40
            && base <= award <= 4 * base + 20
            && 0 <= Bonus(p, now.today) <= 20
  {}
}
