/**
 The market calendar, and the number of sessions between two days (monitoring.py,
 `_sessions_since`).  A calendar grows from scan to scan, but the distance between two days it
 already holds must not change.
 */
module MarketCalendar {
  import opened Common

  predicate StrictlyAscending(calendar: seq<Date>) {
    forall i, j | 0 <= i < j < |calendar| :: calendar[i] < calendar[j]
  }

  /** `_sessions_since`: calendar sessions between two days, or days when one is not on the calendar. */
  function SessionsSince(calendar: seq<Date>, previous: Date, current: Date): (n: int)
    ensures n >= 0
  {
    var gap := if previous in calendar && current in calendar
               then IndexOf(calendar, current) - IndexOf(calendar, previous) else current - previous;
    if gap > 0 then gap else 0
  }

  function IndexOf(s: seq<Date>, x: Date): (i: nat)
    requires x in s
    ensures i < |s| && s[i] == x && x !in s[..i]
  {
    if s[0] == x then 0 else
      assert x in s[1..];
      var i := IndexOf(s[1..], x) + 1;
      assert s[..i] == [s[0]] + s[1..][..i - 1];
      i
  }

  // ----- sessions between days of a growing calendar

  lemma {:induction false} PrefixKeepsIndex(shorter: seq<Date>, calendar: seq<Date>, x: Date)
    requires shorter <= calendar && x in shorter
    ensures IndexOf(calendar, x) == IndexOf(shorter, x)
  {
    if shorter[0] != x {
      assert shorter[1..] <= calendar[1..];
      assert x in shorter[1..];
      PrefixKeepsIndex(shorter[1..], calendar[1..], x);
    }
  }

  lemma IndexIsMonotone(calendar: seq<Date>, x: Date, y: Date)
    requires StrictlyAscending(calendar) && x in calendar && y in calendar
    ensures x < y <==> IndexOf(calendar, x) < IndexOf(calendar, y)
  {
    assert calendar[IndexOf(calendar, x)] == x && calendar[IndexOf(calendar, y)] == y;
  }

  /** A scan that sees only the calendar up to its own day measures the same distances. */
  lemma PrefixKeepsDistance(shorter: seq<Date>, calendar: seq<Date>, previous: Date, today: Date)
    requires StrictlyAscending(calendar) && shorter <= calendar && today in shorter && previous in calendar
    ensures SessionsSince(shorter, previous, today) == SessionsSince(calendar, previous, today)
  {
    hide IndexOf;
    PrefixKeepsIndex(shorter, calendar, today);
    if previous in shorter {
      PrefixKeepsIndex(shorter, calendar, previous);
    } else {
      IndexIsMonotone(calendar, today, previous);
      var i := IndexOf(calendar, previous);
      assert forall k | 0 <= k < |shorter| :: calendar[k] == shorter[k];
    }
  }

  /** Gaps of more than a cooldown add up. */
  lemma GapsAddUp(calendar: seq<Date>, a: Date, b: Date, c: Date, cooldown: int)
    requires cooldown >= 0 && a in calendar && b in calendar && c in calendar
    requires SessionsSince(calendar, a, b) > cooldown && SessionsSince(calendar, b, c) > cooldown
    ensures SessionsSince(calendar, a, c) > cooldown
  {
    hide IndexOf;
  }

  // ----- days that are not on the calendar

  /** The earliest session at most `cooldown` sessions before a day. */
  function WithinReach(calendar: seq<Date>, today: Date, cooldown: nat): (day: Date)
    requires today in calendar
    ensures day in calendar
  {
    var i := IndexOf(calendar, today);
    calendar[if i >= cooldown then i - cooldown else 0]
  }

  /**
   When the distance from the newest day is enough to know the distances from all earlier ones: the newest
   day is on the calendar, or today is not, or no session within reach of today is more than `cooldown`
   days before the newest day.
   */
  predicate ReachesBack(calendar: seq<Date>, newest: Date, today: Date, cooldown: nat) {
    newest in calendar || today !in calendar || newest - WithinReach(calendar, today, cooldown) <= cooldown
  }

  lemma {:induction false} SessionsAreDays(calendar: seq<Date>, i: nat, j: nat)
    requires StrictlyAscending(calendar) && i <= j < |calendar|
    ensures j - i <= calendar[j] - calendar[i]
    decreases j
  {
    if i < j {
      SessionsAreDays(calendar, i, j - 1);
    }
  }

  lemma SessionsAtMostDays(calendar: seq<Date>, previous: Date, today: Date)
    requires StrictlyAscending(calendar)
    ensures SessionsSince(calendar, previous, today) > 0 ==> SessionsSince(calendar, previous, today) <= today - previous
  {
    hide IndexOf;
    if previous in calendar && today in calendar && IndexOf(calendar, previous) < IndexOf(calendar, today) {
      SessionsAreDays(calendar, IndexOf(calendar, previous), IndexOf(calendar, today));
    }
  }

  /** Comparing with the newest day is enough for this earlier day. */
  lemma NewestIsEnough(calendar: seq<Date>, early: Date, newest: Date, today: Date, cooldown: nat)
    requires StrictlyAscending(calendar) && ReachesBack(calendar, newest, today, cooldown)
    requires SessionsSince(calendar, early, newest) > cooldown && SessionsSince(calendar, newest, today) > cooldown
    ensures SessionsSince(calendar, early, today) > cooldown
  {
    hide IndexOf;
    SessionsAtMostDays(calendar, early, newest);
    SessionsAtMostDays(calendar, newest, today);
    if early in calendar && today in calendar {
      if newest !in calendar {
        IndexIsMonotone(calendar, early, WithinReach(calendar, today, cooldown));
        IndexOfElement(calendar, today, cooldown);
      }
    }
  }

  lemma IndexOfElement(calendar: seq<Date>, today: Date, cooldown: nat)
    requires StrictlyAscending(calendar) && today in calendar
    ensures var i := IndexOf(calendar, today);
            IndexOf(calendar, WithinReach(calendar, today, cooldown)) == if i >= cooldown then i - cooldown else 0
  {
    var i := IndexOf(calendar, today);
    var k := if i >= cooldown then i - cooldown else 0;
    assert calendar[IndexOf(calendar, calendar[k])] == calendar[k];
  }

  /** Otherwise some earlier day is far enough from the newest one, and too close to today. */
  lemma SomeDayIsTooClose(calendar: seq<Date>, newest: Date, today: Date, cooldown: nat) returns (early: Date)
    requires StrictlyAscending(calendar) && !ReachesBack(calendar, newest, today, cooldown)
    ensures early in calendar && early < newest
    ensures SessionsSince(calendar, early, newest) > cooldown && SessionsSince(calendar, early, today) <= cooldown
  {
    hide IndexOf;
    early := WithinReach(calendar, today, cooldown);
    IndexOfElement(calendar, today, cooldown);
  }

  /**
   The cooldown counts sessions between days on the calendar and days otherwise, so gaps need not add up.
   Comparing with the newest day is enough for all earlier days exactly when it reaches back.
   */
  lemma GapsAddUpExactly(calendar: seq<Date>, newest: Date, today: Date, cooldown: nat)
    requires StrictlyAscending(calendar) && SessionsSince(calendar, newest, today) > cooldown
    ensures (forall early | SessionsSince(calendar, early, newest) > cooldown :: SessionsSince(calendar, early, today) > cooldown)
        <==> ReachesBack(calendar, newest, today, cooldown)
  {
    hide SessionsSince, ReachesBack;
    if ReachesBack(calendar, newest, today, cooldown) {
      forall early | SessionsSince(calendar, early, newest) > cooldown ensures SessionsSince(calendar, early, today) > cooldown {
        NewestIsEnough(calendar, early, newest, today, cooldown);
      }
    } else {
      var early := SomeDayIsTooClose(calendar, newest, today, cooldown);
    }
  }

  /** Two gaps of five days pass a cooldown of two sessions, while the outer days are neighbouring sessions. */
  lemma FiveAndFiveAreOne()
    ensures SessionsSince([0, 10], 0, 5) == 5 && SessionsSince([0, 10], 5, 10) == 5 && SessionsSince([0, 10], 0, 10) == 1
    ensures StrictlyAscending([0, 10]) && !ReachesBack([0, 10], 5, 10, 2)
  {
    var calendar := [0, 10];
    assert IndexOf(calendar, 0) == 0;
    assert calendar[1..] == [10] && IndexOf([10], 10) == 0 && IndexOf(calendar, 10) == 1;
    assert 5 !in calendar;
  }

  // ----- what is counted

  function Days(s: seq<Date>): set<Date> {
    set d | d in s
  }

  /**
   Between days of the calendar: the sessions after the earlier one, up to and including the later one.
   When one of the days is no session, calendar days are counted.
   */
  lemma SessionsSinceCounts(calendar: seq<Date>, previous: Date, current: Date)
    requires StrictlyAscending(calendar)
    ensures previous in calendar && current in calendar ==>
      SessionsSince(calendar, previous, current) == |set d | d in calendar && previous < d <= current|
    ensures previous !in calendar || current !in calendar ==>
      SessionsSince(calendar, previous, current) == if current > previous then current - previous else 0
  {
    if previous in calendar && current in calendar {
      SessionsBetween(calendar, previous, current);
    }
  }

  lemma SessionsBetween(calendar: seq<Date>, previous: Date, current: Date)
    requires StrictlyAscending(calendar) && previous in calendar && current in calendar
    ensures SessionsSince(calendar, previous, current) == |set d | d in calendar && previous < d <= current|
  {
    hide IndexOf, Days;
    var i, j := IndexOf(calendar, previous), IndexOf(calendar, current);
    IndexIsMonotone(calendar, previous, current);
    var between := set d | d in calendar && previous < d <= current;
    if i < j {
      SliceSize(calendar, i + 1, j + 1);
      DaysOfSlice(calendar, i + 1, j + 1);
      forall d ensures d in between <==> d in Days(calendar[i + 1..j + 1]) {
        if d in between {
          var k :| 0 <= k < |calendar| && calendar[k] == d;
          assert i < k <= j;
        }
      }
      assert between == Days(calendar[i + 1..j + 1]);
    } else {
      assert between == {};
    }
  }

  lemma DaysOfSlice(calendar: seq<Date>, i: nat, j: nat)
    requires i <= j <= |calendar|
    ensures forall k | i <= k < j :: calendar[k] in Days(calendar[i..j])
    ensures forall d | d in Days(calendar[i..j]) :: exists k :: i <= k < j && calendar[k] == d
  {
    forall k | i <= k < j ensures calendar[k] in Days(calendar[i..j]) {
      assert calendar[i..j][k - i] == calendar[k];
    }
    forall d | d in Days(calendar[i..j]) ensures exists k :: i <= k < j && calendar[k] == d {
      var k :| 0 <= k < j - i && calendar[i..j][k] == d;
      assert calendar[i + k] == d;
    }
  }

  lemma {:induction false} SliceSize(calendar: seq<Date>, i: nat, j: nat)
    requires StrictlyAscending(calendar) && i <= j <= |calendar|
    ensures |Days(calendar[i..j])| == j - i
    decreases j
  {
    if i < j {
      SliceSize(calendar, i, j - 1);
      assert calendar[i..j] == calendar[i..j - 1] + [calendar[j - 1]];
      assert Days(calendar[i..j]) == Days(calendar[i..j - 1]) + {calendar[j - 1]};
      DaysOfSlice(calendar, i, j - 1);
    } else {
      assert calendar[i..j] == [];
    }
  }
}
