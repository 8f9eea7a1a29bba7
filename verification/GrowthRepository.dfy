/**
 The growth repository's two transactions as they execute: statement after statement on a
 working copy of the user's rows, which is installed at the commit and thrown away on every
 earlier return.
 */
module GrowthRepository {
  import opened Progression
  import opened Wrappers

  class PostgresGrowthRepository {
    const cat: Catalog
    var profile: Profile
    var events: Run<EventRow>
    var seasons: map<int, int>
    var quests: Run<QuestRow>
    var unlocked: Run<nat>

    constructor (cat: Catalog)
      ensures this.cat == cat && View() == NEW_USER
    {
      this.cat := cat;
      profile, events, seasons, quests, unlocked :=
        NEW_USER.profile, NEW_USER.events, NEW_USER.seasons, NEW_USER.quests, NEW_USER.unlocked;
    }

    function View(): Store
      reads this
    {
      Store(profile, events, seasons, quests, unlocked)
    }

    /**
     A call that is not refused runs through, unless the database fails before the commit:
     then, as when it is refused, nothing has changed.
     */
    twostate predicate RanAs(op: Op, now: Now, fault: Fault, ok: bool)
      reads this
    {
      && View() == Step(cat, old(View()), Call(op, now, !fault.FailsAt?))
      && ok == (Effect(cat, old(View()), Call(op, now, true)).Some? && fault == NoFault)
    }

    /** The rows found are applied one by one: insert, read the XP, write the XP, level and reputation. */
    method UnlockAchievements(p: Profile, done: Run<nat>, found: seq<nat>, first: nat, fault: Fault)
        returns (ok: bool, p': Profile, done': Run<nat>)
      ensures ok <==> !(fault.FailsAt? && first <= fault.statement < first + 3 * |found|)
      ensures ok ==> (p', done') == UnlockAll(cat, p, done, found)
    {
      p', done' := p, done;
      var i := 0;
      hide NextLevel;
      while i < |found|
        invariant 0 <= i <= |found|
        invariant (p', done') == UnlockAll(cat, p, done, found[..i])
        invariant !(fault.FailsAt? && first <= fault.statement < first + 3 * i)
      {
        assert found[..i + 1][..i] == found[..i];
        var a := Reward(cat, found[i]);
        if fault == FailsAt(first + 3 * i) {
          return false, p', done';
        }
        done' := Then(done', found[i]);
        if fault == FailsAt(first + 3 * i + 1) {
          return false, p', done';
        }
        var currentXp := p'.xp + a.xpReward;
        if fault == FailsAt(first + 3 * i + 2) {
          return false, p', done';
        }
        p' := p'.(xp := currentXp, level := NextLevel(currentXp), reputation := p'.reputation + a.repReward);
        i := i + 1;
      }
      assert found[..i] == found;
      ok := true;
    }

    /** The computation between reading the profile row and writing it back. */
    method Compute(p: Profile, action: Action, now: Now) returns (p': Profile, awarded: int, streakBonus: int)
      ensures p' == Advance(p, action, now)
      ensures awarded == Award(p, action, now) && streakBonus == Bonus(p, now.today)
      ensures p'.combo == if p.comboAt.Some? && now.time - p.comboAt.value <= 300 then p.combo + 1 else 1
    {
      hide NextLevel, RoundTenths, ComboTenths;
      var streak := p.streak;
      if p.lastDay.None? {
        streak := 1;
      } else {
        var days := now.today - p.lastDay.value;
        if days == 1 {
          streak := streak + 1;
        } else if days > 1 {
          streak := 1;
        }
      }
      var longest := if streak > p.longest then streak else p.longest;
      var combo := if p.comboAt.Some? && now.time - p.comboAt.value <= COMBO_GAP then p.combo + 1 else 1;
      var mult := ComboTenths(combo);
      if now.boosted {
        mult := mult * 2;
      }
      if mult > 40 {
        mult := 40;
      }
      assert streak == NextStreak(p, now.today) && mult == Multiplier(p, now);
      streakBonus := 0;
      if p.lastDay.None? || p.lastDay.value != now.today {
        streakBonus := Min(streak, 20);
      }
      awarded := RoundTenths(BaseXp(action) * mult) + streakBonus;
      var xp, reputation := p.xp + awarded, p.reputation + awarded / 10;
      var level := NextLevel(xp);
      p' := p.(xp := xp, level := level, reputation := reputation, streak := streak, longest := longest,
              lastDay := Some(now.dbDay), combo := combo, comboAt := Some(now.time));
    }

    /** The statements of RecordEvent before the commit, on a working copy of the rows. */
    method Work(action: Action, source: string, now: Now, fault: Fault) returns (work: Option<Store>)
      ensures work.Some? ==> work == Record(cat, View(), action, source, now)
      ensures !fault.FailsAt? ==> work == Record(cat, View(), action, source, now)
    {
      hide UnlockAll, Matches, EnsureRows, Progress, NextLevel, Recorded, Advance, Award, Bonus, Score, Min, BaseXp;
      if BaseXp(action) == 0 || (fault.FailsAt? && fault.statement <= 4) {
        return None;
      }
      if Recorded(events, action, source) {
        return if fault == FailsAt(5) then None else Some(View());
      }
      var rows := Then(events, EventRow(action, source, 0, 0, now.season, now.today, now.time, now.boosted));
      if fault == FailsAt(5) {
        return None;
      }
      var p, awarded, streakBonus := Compute(profile, action, now);
      if fault == FailsAt(6) || fault == FailsAt(7) {
        return None;
      }
      rows := Then(rows.past, rows.last.(awarded := awarded, bonus := streakBonus));
      if fault.FailsAt? && 8 <= fault.statement <= 11 {
        return None;
      }
      var scores := seasons[now.season := Score(seasons, now.season) + awarded];
      var table := EnsureRows(cat, quests, action, now, |cat.quests|);
      table := Progress(cat, table, action, now);
      var found := Matches(cat, unlocked, rows, action, p.streak, p.level, |cat.achievements|);
      var applied, p2, done := UnlockAchievements(p, unlocked, found, 12, fault);
      if !applied || fault == FailsAt(12 + 3 * |found|) {
        return None;
      }
      var shieldAward := 0;
      if (p.streak == 7 || p.streak == 30) && profile.streak < p.streak {
        shieldAward := 1;
      }
      p2 := p2.(shields := Min(3, p2.shields + shieldAward));
      return Some(Store(p2, rows, scores, table, done));
    }

    method RecordEvent(action: Action, source: string, now: Now, fault: Fault) returns (ok: bool)
      modifies this
      ensures RanAs(Op.RecordEvent(action, source), now, fault, ok)
    {
      hide Record;
      var work := Work(action, source, now, fault);
      if work.None? || fault.FailsAt? {
        return false;
      }
      var Store(p, rows, scores, table, done) := work.value;
      profile, events, seasons, quests, unlocked := p, rows, scores, table, done;
      return fault != CommitAnswerLost;
    }

    method ClaimQuest(quest: nat, now: Now, fault: Fault) returns (ok: bool)
      modifies this
      ensures RanAs(Op.ClaimQuest(quest), now, fault, ok)
    {
      if (fault.FailsAt? && fault.statement <= 1) || quest >= |cat.quests| || !cat.quests[quest].active {
        return false;
      }
      var q := cat.quests[quest];
      var start := if q.daily then now.dbDay else now.weekStart;
      var row := FindQuest(quests, quest, start);
      var progress, claimed := 0, false;
      if row.Some? {
        progress, claimed := row.value.progress, row.value.claimed;
      }
      if claimed || progress < q.target || fault == FailsAt(2) {
        return false;
      }
      var table := if row.Some? then MarkClaimed(quests, quest, start)
          else Then(quests, QuestRow(quest, start, progress, true));
      var currentXp := profile.xp + q.xpReward;
      var currentLevel := NextLevel(currentXp);
      if fault.FailsAt? {
        return false;
      }
      quests := table;
      profile := profile.(xp := currentXp, level := currentLevel, reputation := profile.reputation + q.repReward);
      return fault != CommitAnswerLost;
    }
  }
}
