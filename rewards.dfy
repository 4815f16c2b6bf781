/**
 * The rewards page: six fixed achievements judged on the dashboard counts,
 * the points they are worth, and the completion percentage. `None` stands
 * for dashboard data not (yet) loaded.
 */
module Rewards {
  import opened Wrappers
  import Server
  import Todos

  datatype Badge = FirstTodo | CompletionMaster | ProductivityGuru | StreakKeeper | SpeedDemon | Perfectionist

  datatype Achievement = Achievement(badge: Badge, id: string, title: string, reward: nat)

  /** The achievement table, in declaration order. */
  function Achievements(): (r: seq<Achievement>)
    ensures |r| == 6
    ensures forall i, j :: 0 <= i < j < |r| ==> r[i].badge != r[j].badge && r[i].id != r[j].id
    ensures RewardSum(r) == 460
  {
    [ Achievement(FirstTodo, "first_todo", "Getting Started", 10),
      Achievement(CompletionMaster, "completion_master", "Completion Master", 50),
      Achievement(ProductivityGuru, "productivity_guru", "Productivity Guru", 100),
      Achievement(StreakKeeper, "streak_keeper", "Streak Keeper", 25),
      Achievement(SpeedDemon, "speed_demon", "Speed Demon", 75),
      Achievement(Perfectionist, "perfectionist", "Perfectionist", 200) ]
  }

  /** The condition of each achievement. */
  predicate Unlocked(b: Badge, d: Server.Summary)
    ensures Unlocked(b, d) && d.completed <= d.total && b != StreakKeeper && b != SpeedDemon ==> d.total >= 1
  {
    match b
    case FirstTodo => d.total >= 1
    case CompletionMaster => d.completed >= 10
    case ProductivityGuru => d.completed >= 50
    case StreakKeeper => d.thisWeek >= 5
    case SpeedDemon => d.thisMonth >= 20
    case Perfectionist => d.total > 0 && d.completed == d.total
  }

  /** `achievements.filter(a => a.condition(data))`. */
  function Satisfied(list: seq<Achievement>, d: Server.Summary): (r: seq<Achievement>)
    ensures |r| <= |list|
  {
    if list == [] then []
    else (if Unlocked(list[0].badge, d) then [list[0]] else []) + Satisfied(list[1..], d)
  }

  /** `.reduce((total, a) => total + a.reward, 0)`. */
  function RewardSum(list: seq<Achievement>): nat {
    if list == [] then 0 else list[0].reward + RewardSum(list[1..])
  }

  /** `getCompletedAchievements`. */
  function CompletedAchievements(data: Option<Server.Summary>): (r: seq<Achievement>)
    ensures |r| <= 6
    ensures data.None? ==> r == []
  {
    if data.None? then [] else Satisfied(Achievements(), data.value)
  }

  /** `getTotalPoints`. */
  function TotalPoints(data: Option<Server.Summary>): (r: nat)
    ensures data.None? ==> r == 0
  {
    if data.None? then 0 else RewardSum(Satisfied(Achievements(), data.value))
  }

  /**
   * `getCompletionRate`: `Math.round(completed / total * 100)`, written as
   * the integer round-half-up of `100 * completed / total`; 0 without data
   * or without todos.
   */
  function CompletionRate(data: Option<Server.Summary>): (r: nat)
    ensures data.None? || data.value.total == 0 ==> r == 0
  {
    if data.None? || data.value.total == 0 then 0
    else (200 * data.value.completed + data.value.total) / (2 * data.value.total)
  }

  /** An element of a filtered list is an element of the table whose condition holds. */
  lemma {:induction false} SatisfiedMembership(list: seq<Achievement>, d: Server.Summary)
    ensures forall a :: a in Satisfied(list, d) <==> a in list && Unlocked(a.badge, d)
  {
    if list != [] {
      SatisfiedMembership(list[1..], d);
      assert list == [list[0]] + list[1..];
    }
  }

  /** The completed achievements are exactly the unlocked ones of the table. */
  lemma CompletedAreUnlocked(d: Server.Summary)
    ensures forall a :: a in CompletedAchievements(Some(d)) <==> a in Achievements() && Unlocked(a.badge, d)
  {
    SatisfiedMembership(Achievements(), d);
  }

  /**
   * Every condition but Perfectionist is a threshold: a summary that is at
   * least as large in every count keeps it unlocked. Perfectionist alone can
   * be lost, by adding a todo that is not completed.
   */
  lemma UnlockedMonotone(b: Badge, d: Server.Summary, e: Server.Summary)
    requires d.total <= e.total && d.completed <= e.completed
    requires d.thisWeek <= e.thisWeek && d.thisMonth <= e.thisMonth
    ensures b != Perfectionist && Unlocked(b, d) ==> Unlocked(b, e)
    ensures e.completed < e.total ==> !Unlocked(Perfectionist, e)
  {
  }

  /** Filtering keeps order: it distributes over concatenation. */
  lemma {:induction false} SatisfiedAppend(x: seq<Achievement>, y: seq<Achievement>, d: Server.Summary)
    ensures Satisfied(x + y, d) == Satisfied(x, d) + Satisfied(y, d)
  {
    if x == [] {
      assert x + y == y;
    } else {
      SatisfiedAppend(x[1..], y, d);
      assert (x + y)[1..] == x[1..] + y;
    }
  }

  /**
   * The completed achievements come in declaration order: for every cut of
   * the table, those unlocked before the cut precede those unlocked after it.
   */
  lemma CompletedInTableOrder(d: Server.Summary, k: nat)
    requires k <= |Achievements()|
    ensures CompletedAchievements(Some(d))
            == Satisfied(Achievements()[..k], d) + Satisfied(Achievements()[k..], d)
  {
    SatisfiedAppend(Achievements()[..k], Achievements()[k..], d);
    assert Achievements()[..k] + Achievements()[k..] == Achievements();
  }

  /** The badge's reward when its condition holds, 0 otherwise. */
  function Earned(b: Badge, reward: nat, d: Server.Summary): nat {
    if Unlocked(b, d) then reward else 0
  }

  /** The reward of every table entry whose condition holds, added up entry by entry. */
  function EarnedSum(list: seq<Achievement>, d: Server.Summary): nat {
    if list == [] then 0 else Earned(list[0].badge, list[0].reward, d) + EarnedSum(list[1..], d)
  }

  /** Filtering and then adding the rewards is adding the earned rewards. */
  lemma {:induction false} FilterThenSum(list: seq<Achievement>, d: Server.Summary)
    ensures RewardSum(Satisfied(list, d)) == EarnedSum(list, d)
  {
    if list != [] {
      FilterThenSum(list[1..], d);
      var head := if Unlocked(list[0].badge, d) then [list[0]] else [];
      RewardSumAppend(head, Satisfied(list[1..], d));
    }
  }

  lemma {:induction false} RewardSumAppend(a: seq<Achievement>, b: seq<Achievement>)
    ensures RewardSum(a + b) == RewardSum(a) + RewardSum(b)
  {
    if a == [] {
      assert a + b == b;
    } else {
      RewardSumAppend(a[1..], b);
      assert (a + b)[1..] == a[1..] + b;
    }
  }

  /** The points are the sum of the rewards of the completed achievements, written out badge by badge. */
  lemma PointsByBadge(d: Server.Summary)
    ensures TotalPoints(Some(d)) == RewardSum(CompletedAchievements(Some(d)))
    ensures TotalPoints(Some(d)) ==
      Earned(FirstTodo, 10, d) + Earned(CompletionMaster, 50, d) + Earned(ProductivityGuru, 100, d)
      + Earned(StreakKeeper, 25, d) + Earned(SpeedDemon, 75, d) + Earned(Perfectionist, 200, d)
  {
    var t := Achievements();
    FilterThenSum(t, d);
    assert t[5..][1..] == [];
    assert EarnedSum(t[5..], d) == Earned(Perfectionist, 200, d);
    assert t[4..][1..] == t[5..];
    assert EarnedSum(t[4..], d) == Earned(SpeedDemon, 75, d) + EarnedSum(t[5..], d);
    assert t[3..][1..] == t[4..];
    assert EarnedSum(t[3..], d) == Earned(StreakKeeper, 25, d) + EarnedSum(t[4..], d);
    assert t[2..][1..] == t[3..];
    assert EarnedSum(t[2..], d) == Earned(ProductivityGuru, 100, d) + EarnedSum(t[3..], d);
    assert t[1..][1..] == t[2..];
    assert EarnedSum(t[1..], d) == Earned(CompletionMaster, 50, d) + EarnedSum(t[2..], d);
  }

  /** Points lie between 0 and 460, the sum of all six rewards. */
  lemma PointsBounded(data: Option<Server.Summary>)
    ensures 0 <= TotalPoints(data) <= 460
    ensures data.Some? && data.value.total > 0 && data.value.completed == data.value.total ==> TotalPoints(data) >= 210
  {
    if data.Some? {
      PointsByBadge(data.value);
    }
  }

  /** The rate is `100 * completed / total` rounded half up: it is the integer nearest to it, ties going up. */
  lemma RateRounds(d: Server.Summary)
    requires d.total > 0
    ensures var r := CompletionRate(Some(d));
      2 * r * d.total <= 200 * d.completed + d.total < 2 * r * d.total + 2 * d.total
  {
  }

  lemma ScaleCancel(a: int, b: int, t: int)
    requires t > 0 && a * t <= b * t
    ensures a <= b
  {
  }

  /** With no more completed than total todos, the rate is a percentage; all completed gives 100. */
  lemma RateIsPercentage(data: Option<Server.Summary>)
    requires data.Some? ==> data.value.completed <= data.value.total
    ensures 0 <= CompletionRate(data) <= 100
    ensures data.Some? && data.value.total > 0 && data.value.completed == data.value.total ==> CompletionRate(data) == 100
  {
    if data.Some? && data.value.total > 0 {
      var d := data.value;
      var r, c, t := CompletionRate(data), d.completed, d.total;
      RateRounds(d);
      assert 200 * c <= 200 * t;
      ScaleCancel(2 * r, 201, t);
      if c == t {
        ScaleCancel(199, 2 * r, t);
      }
    }
  }

  /** Completing 50 todos also completes 10; a perfect record needs at least one todo. */
  lemma UnlockImplications(d: Server.Summary)
    ensures Unlocked(ProductivityGuru, d) ==> Unlocked(CompletionMaster, d)
    ensures Unlocked(Perfectionist, d) ==> Unlocked(FirstTodo, d)
  {
  }

  /** For the dashboard the server computes, the rate is always a percentage. */
  lemma ServedRateIsPercentage(rows: map<nat, Todos.Todo>, d: Server.Summary)
    requires d.total == |rows|
    requires d.completed == Server.Tally(rows, Server.StatusColumn, "completed")
    ensures 0 <= CompletionRate(Some(d)) <= 100
  {
    Server.StatusCountsBounded(rows);
    RateIsPercentage(Some(d));
  }
}
