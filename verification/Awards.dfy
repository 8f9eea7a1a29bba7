/**
 What every recorded event was worth: its base points times a combo multiplier that comes
 from how closely the events before it follow one another.
 */
module Awards {
  import opened Progression
  import opened ProgressionAccounts
  import opened Streaks
  import opened Wrappers

  /** The points of the supported actions. */
  predicate Worth(action: Action, base: int) {
    match action
    case DailyLogin | StoryCreated => base == 20
    case PostCreated => base == 50
    case CommentCreated | CommunityEventRsvp => base == 15
    case ReactionAdded | MessageSent => base == 5
    case ContentViewed | StoryViewed => base == 2
    case FollowCreated => base == 10
    case CommunityJoined => base == 25
    case ReferralCompleted => base == 100
    case Unsupported(_) => false
  }

  /** The time of the event `i` places before the last. */
  function TimeBack(events: Run<EventRow>, i: nat): int
    requires i < Length(events)
  {
    if i == 0 then events.last.time else TimeBack(events.past, i - 1)
  }

  /** The last `n` events come each within 300 seconds of the one before, and no more than these. */
  ghost predicate Chain(events: Run<EventRow>, n: nat) {
    && 1 <= n <= Length(events)
    && (forall i | 0 <= i < n - 1 :: TimeBack(events, i) - TimeBack(events, i + 1) <= 300)
    && (n < Length(events) ==> TimeBack(events, n - 1) - TimeBack(events, n) > 300)
  }

  /**
   The points of an event that ends a chain of `n`, without its bonus: base times 1.0, and a
   tenth more for each event of the chain before it, up to 2.0, all doubled under a boost,
   rounded half up.
   */
  predicate Due(e: EventRow, base: int, n: nat) {
    var tenths := (if n <= 10 then 9 + n else 20) * if e.boosted then 2 else 1;
    var points := e.awarded - e.bonus;
    10 * points - 5 <= base * tenths < 10 * points + 5
  }

  ghost predicate AllDue(events: Run<EventRow>) {
    events.Then? ==>
      && AllDue(events.past)
      && exists base: int, n: nat :: Worth(events.last.action, base) && Chain(events, n) && Due(events.last, base, n)
  }

  lemma ChainUnique(events: Run<EventRow>, n: nat, m: nat)
    requires Chain(events, n) && Chain(events, m)
    ensures n == m
  {}

  /** The combo columns say what the chain at the end of the events is. */
  ghost predicate ComboFollows(p: Profile, events: Run<EventRow>) {
    match events
    case Start => p.comboAt == None
    case Then(_, last) => p.comboAt == Some(last.time) && 1 <= p.combo && Chain(events, p.combo)
  }

  lemma ComboGrows(p: Profile, events: Run<EventRow>, e: EventRow)
    requires ComboFollows(p, events)
    ensures 1 <= NextCombo(p, e.time) && Chain(Then(events, e), NextCombo(p, e.time))
  {
    var events', n := Then(events, e), NextCombo(p, e.time);
    if events.Then? {
      assert TimeBack(events', 1) == events.last.time;
      forall i | 0 <= i < n - 1 ensures TimeBack(events', i) - TimeBack(events', i + 1) <= 300 {
        if i > 0 {
          assert TimeBack(events', i) == TimeBack(events, i - 1) && TimeBack(events', i + 1) == TimeBack(events, i);
        }
      }
      if n < Length(events') && n > 1 {
        assert TimeBack(events', n - 1) == TimeBack(events, n - 2) && TimeBack(events', n) == TimeBack(events, n - 1);
      }
    }
  }

  /** The supported actions are worth something, and the others are refused. */
  lemma BaseIsWorth(action: Action)
    ensures if action.Unsupported? then BaseXp(action) == 0 else Worth(action, BaseXp(action))
  {}

  lemma EntryIsDue(p: Profile, action: Action, source: string, now: Now, n: nat)
    requires n == NextCombo(p, now.time) && 1 <= n
    ensures Due(Entry(p, action, source, now), BaseXp(action), n)
  {
    var tenths := (if n <= 10 then 9 + n else 20) * if now.boosted then 2 else 1;
    assert Multiplier(p, now) == tenths;
    hide NextCombo, Multiplier, BaseXp, Bonus;
  }

  /** What a call leaves in the event table: one row, about this call, or nothing. */
  predicate Notes(s: Store, c: Call, s': Store) {
    if Applies(s, c) then
      && s'.events.Then? && s'.events.past == s.events
      && var e := s'.events.last;
         e.action == c.op.action && e.source == c.op.source && e.season == c.now.season
         && e.day == c.now.today && e.time == c.now.time && e.boosted == c.now.boosted
    else s'.events == s.events
  }

  lemma CallNotes(cat: Catalog, s: Store, c: Call)
    ensures Notes(s, c, Step(cat, s, c))
  {
    if Applies(s, c) {
      RecordColumns(cat, s, c.op.action, c.op.source, c.now);
      hide Record;
    } else if c.op.ClaimQuest? {
      hide NextLevel, FindQuest, MarkClaimed;
    }
  }

  lemma CallKeepsCombo(cat: Catalog, s: Store, c: Call)
    requires !Applies(s, c)
    ensures var s' := Step(cat, s, c);
            && s'.events == s.events && s'.profile.comboAt == s.profile.comboAt && s'.profile.combo == s.profile.combo
            && s'.profile.shields == s.profile.shields && s'.profile.streak == s.profile.streak
  {
    if c.op.ClaimQuest? && Claim(cat, s, c.op.quest, c.now).Some? {
      ClaimKeeps(cat, s, c.op.quest, c.now);
      hide Claim;
    }
  }

  /**
   On every run every recorded event has its due: the multiplier comes from the length of the
   chain of events that it ends.
   */
  lemma {:induction false} AlwaysDue(cat: Catalog, run: Run<Call>)
    ensures var s := After(cat, run); AllDue(s.events) && ComboFollows(s.profile, s.events)
  {
    if run.Then? {
      var s, c := After(cat, run.past), run.last;
      AlwaysDue(cat, run.past);
      if Applies(s, c) {
        var e := Entry(s.profile, c.op.action, c.op.source, c.now);
        RecordColumns(cat, s, c.op.action, c.op.source, c.now);
        ComboGrows(s.profile, s.events, e);
        EntryIsDue(s.profile, c.op.action, c.op.source, c.now, NextCombo(s.profile, c.now.time));
        BaseIsWorth(c.op.action);
        hide Record, NextCombo, Entry, Chain, Due, Worth, NextStreak;
      } else {
        CallKeepsCombo(cat, s, c);
        hide Step;
      }
    }
  }

  // ---------------------------------------------------------------- shields

  /** How many events of the run took the streak up to 7 or 30 days. */
  function Milestones(cat: Catalog, run: Run<Call>): nat {
    match run
    case Start => 0
    case Then(past, c) =>
      var before, after := After(cat, past).profile.streak, After(cat, run).profile.streak;
      Milestones(cat, past)
      + if Applies(After(cat, past), c) && before < after && (after == 7 || after == 30) then 1 else 0
  }

  /** Each of them is rewarded with a shield, until there are three. */
  lemma {:induction false} ShieldsAreMilestones(cat: Catalog, run: Run<Call>)
    ensures var n := 1 + Milestones(cat, run);
            After(cat, run).profile.shields == if n < 3 then n else 3
  {
    if run.Then? {
      var s, c := After(cat, run.past), run.last;
      ShieldsAreMilestones(cat, run.past);
      if Applies(s, c) {
        RecordColumns(cat, s, c.op.action, c.op.source, c.now);
        hide Record, NextStreak;
      } else {
        CallKeepsCombo(cat, s, c);
        hide Step;
      }
    }
  }
}
