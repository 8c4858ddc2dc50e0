/**
  The achievement-logging step of `POST /api/achievements/log`: one pure
  function from (stored user row, today's day row, held badges, request) to
  (rows written, badge grants, reply).

  Calendar days in the service time zone are integers, so "yesterday" is
  `today - 1`. Every store read is a parameter; every write is part of the
  returned `LogWrites`.
 */
module Progression {
  import opened Wrappers

  /** A calendar day number in the service time zone. */
  type Day = int

  // ---------------------------------------------------------------------
  // Levels

  datatype Level = Level(number: nat, name: string, threshold: nat)

  /** The fixed level table, ascending by threshold, starting at 0. */
  const Levels: seq<Level> := [
    Level(1, "Inicio", 0),
    Level(2, "Bronce", 50),
    Level(3, "Plata", 150),
    Level(4, "Oro", 300),
    Level(5, "Platino", 600),
    Level(6, "Diamante", 1000)
  ]

  /** Entry `k` of the table is level `k + 1` and thresholds strictly increase. */
  predicate WellFormedTable(t: seq<Level>) {
    && |t| > 0
    && t[0].threshold == 0
    && (forall k :: 0 <= k < |t| ==> t[k].number == k + 1)
    && (forall j, k :: 0 <= j < k < |t| ==> t[j].threshold < t[k].threshold)
  }

  lemma LevelsWellFormed()
    ensures WellFormedTable(Levels)
  {
  }

  /** The `for (const l of LEVELS) if (points >= l.threshold) current = l`
      scan: `cur` is the entry chosen so far, `i` the next entry to look at. */
  function ScanLevels(points: int, i: nat, cur: nat): (r: nat)
    requires cur <= i <= |Levels| && cur < |Levels|
    requires cur == 0 || Levels[cur].threshold <= points
    requires forall j :: cur < j < i ==> Levels[j].threshold > points
    ensures r < |Levels|
    ensures r == 0 || Levels[r].threshold <= points
    ensures forall j :: r < j < |Levels| ==> Levels[j].threshold > points
    decreases |Levels| - i
  {
    if i == |Levels| then cur
    else ScanLevels(points, i + 1, if points >= Levels[i].threshold then i else cur)
  }

  /** Index in `Levels` of the level reached with `points`. */
  function LevelIndex(points: int): (r: nat)
    ensures r < |Levels|
  {
    ScanLevels(points, 0, 0)
  }

  /** `LEVELS.find(l => l.threshold > th)`. */
  function FirstAbove(th: int, i: nat): (r: Option<nat>)
    requires i <= |Levels|
    ensures r.Some? ==> i <= r.value < |Levels| && Levels[r.value].threshold > th
    ensures r.Some? ==> forall j :: i <= j < r.value ==> Levels[j].threshold <= th
    ensures r.None? ==> forall j :: i <= j < |Levels| ==> Levels[j].threshold <= th
    decreases |Levels| - i
  {
    if i == |Levels| then None
    else if Levels[i].threshold > th then Some(i)
    else FirstAbove(th, i + 1)
  }

  datatype LevelInfo = LevelInfo(current: Level, next: Option<Level>, toNext: int)

  /** `levelFor(points)`: the current level, the next one (if any) and the
      points still missing to reach it. */
  function LevelFor(points: int): (r: LevelInfo)
    ensures r.current in Levels
    ensures points >= 0 ==> r.current.threshold <= points
    ensures points < 0 ==> r.current == Levels[0]
    // the current level is the LAST entry whose threshold is reached
    ensures forall l :: l in Levels && l.threshold <= points ==> l.number <= r.current.number
    ensures r.next.Some? <==> r.current.number < |Levels|
    ensures r.next.Some? ==> r.next.value == Levels[r.current.number]
    ensures r.next.Some? ==> r.next.value.threshold > points && r.toNext == r.next.value.threshold - points
    ensures r.next.Some? ==> r.toNext > 0
    ensures r.next.None? ==> r.toNext == 0
  {
    LevelsWellFormed();
    var i := LevelIndex(points);
    var current := Levels[i];
    LastReached(points, i);
    var n := FirstAbove(current.threshold, 0);
    NextEntry(i);
    var next := if n.Some? then Some(Levels[n.value]) else None;
    var toNext := if next.Some? then Max(0, next.value.threshold - points) else 0;
    LevelInfo(current, next, toNext)
  }

  /** The first entry above an entry's threshold is the one after it. */
  lemma NextEntry(i: nat)
    requires i < |Levels|
    ensures var n := FirstAbove(Levels[i].threshold, 0);
      && (n.Some? <==> i + 1 < |Levels|)
      && (n.Some? ==> n.value == i + 1)
  {
    LevelsWellFormed();
    var n := FirstAbove(Levels[i].threshold, 0);
    assert i + 1 < |Levels| ==> Levels[i + 1].threshold > Levels[i].threshold;
  }

  /** The entry the scan picks is the last one reached. */
  lemma LastReached(points: int, i: nat)
    requires i < |Levels|
    requires forall j :: i < j < |Levels| ==> Levels[j].threshold > points
    ensures forall l :: l in Levels && l.threshold <= points ==> l.number <= Levels[i].number
  {
    LevelsWellFormed();
    forall l | l in Levels && l.threshold <= points ensures l.number <= Levels[i].number {
      var k :| 0 <= k < |Levels| && Levels[k] == l;
    }
  }

  /** More points never give a lower level. */
  lemma LevelForMonotone(p: int, q: int)
    requires p <= q
    ensures LevelFor(p).current.number <= LevelFor(q).current.number
  {
    LevelsWellFormed();
    var a := LevelFor(p).current;
    if p >= 0 {
      assert a.threshold <= q;
    } else {
      assert a.number == 1;
    }
  }

  // ---------------------------------------------------------------------
  // Points

  /** `Math.max(1, Number(dvg || 0))`, restricted to integer `dvg`. */
  function Gain(dvg: Option<int>): (g: int)
    ensures g >= 1
    ensures dvg.Some? ==> g >= dvg.value
    ensures g == 1 || (dvg.Some? && g == dvg.value)
  {
    Max(1, dvg.GetOr(0))
  }

  /** The fixed daily-mission bonus. */
  const Bonus: int := 5

  // ---------------------------------------------------------------------
  // Streak

  datatype Streak = Streak(current: int, best: int, last: Option<Day>)

  /** The streak update of one event logged on `today`. */
  function StreakStep(s: Streak, today: Day): (r: Streak)
    ensures r.last == Some(today)
    ensures s.last == Some(today) ==> r.current == s.current && r.best == s.best
    ensures s.last == Some(today - 1) ==> r.current == s.current + 1
    ensures s.last.None? || s.last.value !in {today, today - 1} ==> r.current == 1
    ensures s.last != Some(today) ==> r.best == Max(s.best, r.current)
  {
    if s.last == Some(today) then Streak(s.current, s.best, Some(today))
    else
      var c := if s.last == Some(today - 1) then s.current + 1 else 1;
      Streak(c, if c > s.best then c else s.best, Some(today))
  }

  /** The streak after a whole history of events, oldest first. */
  function StreakRun(s: Streak, days: seq<Day>): Streak
    decreases |days|
  {
    if |days| == 0 then s else StreakStep(StreakRun(s, days[..|days| - 1]), days[|days| - 1])
  }

  /** The `current` value after each event of the history. */
  function StreakHistory(s: Streak, days: seq<Day>): (h: seq<int>)
    ensures |h| == |days|
    decreases |days|
  {
    if |days| == 0 then []
    else StreakHistory(s, days[..|days| - 1]) + [StreakRun(s, days).current]
  }

  function MaxOf(start: int, xs: seq<int>): int
    decreases |xs|
  {
    if |xs| == 0 then start else Max(MaxOf(start, xs[..|xs| - 1]), xs[|xs| - 1])
  }

  predicate NonDecreasing(days: seq<Day>) {
    forall i, j :: 0 <= i < j < |days| ==> days[i] <= days[j]
  }

  /** `best` is the high-water mark of `current` over the whole history,
      given it already was one of `current` before. */
  lemma {:induction false} StreakBestIsMax(s: Streak, days: seq<Day>)
    requires s.best >= s.current
    ensures StreakRun(s, days).best == MaxOf(s.best, StreakHistory(s, days))
    ensures StreakRun(s, days).best >= StreakRun(s, days).current
    decreases |days|
  {
    if |days| > 0 {
      var prefix := days[..|days| - 1];
      StreakBestIsMax(s, prefix);
      var h := StreakHistory(s, days);
      assert h[..|h| - 1] == StreakHistory(s, prefix);
    }
  }

  /** The `k` consecutive days ending at `d` carry events, and `d - k` does not. */
  ghost predicate IsRunOfLength(days: set<Day>, d: Day, k: int) {
    && k >= 1
    && (forall x :: d - k < x <= d ==> x in days)
    && d - k !in days
  }

  /** In a history logged in calendar order, no event day is after the last one. */
  lemma LastIsLatest(days: seq<Day>)
    requires |days| > 0 && NonDecreasing(days)
    ensures forall x :: x in Elems(days) ==> x <= days[|days| - 1]
  {
    forall x | x in Elems(days) ensures x <= days[|days| - 1] {
      var i :| 0 <= i < |days| && days[i] == x;
    }
  }

  /** An event the day after a run's end extends the run by one. */
  lemma RunExtends(days: set<Day>, d: Day, k: int)
    requires IsRunOfLength(days, d, k)
    requires forall x :: x in days ==> x <= d
    ensures IsRunOfLength(days + {d + 1}, d + 1, k + 1)
  {
    assert d + 1 - (k + 1) == d - k;
  }

  /** An event after a gap of at least one day starts a run of one. */
  lemma RunRestarts(days: set<Day>, d: Day, d': Day)
    requires forall x :: x in days ==> x <= d
    requires d' > d + 1
    ensures IsRunOfLength(days + {d'}, d', 1)
  {
    assert d' - 1 !in days;
  }

  /** The last event joins the days of the earlier ones; the earlier ones
      are still in calendar order and end no later than it. */
  lemma ElemsOfPrefix(days: seq<Day>)
    requires |days| > 0 && NonDecreasing(days)
    ensures Elems(days) == Elems(days[..|days| - 1]) + {days[|days| - 1]}
    ensures NonDecreasing(days[..|days| - 1])
    ensures |days| > 1 ==> days[|days| - 2] <= days[|days| - 1]
  {
    assert days == days[..|days| - 1] + [days[|days| - 1]];
  }

  /** One more event on a day no earlier than the run's end keeps `current`
      equal to the length of the run ending at the new day. */
  lemma StepKeepsRun(days: set<Day>, d: Day, before: Streak, d': Day)
    requires before.last == Some(d) && IsRunOfLength(days, d, before.current)
    requires forall x :: x in days ==> x <= d
    requires d <= d'
    ensures IsRunOfLength(days + {d'}, d', StreakStep(before, d').current)
  {
    if d' == d {
      assert days + {d'} == days;
    } else if d' == d + 1 {
      RunExtends(days, d, before.current);
    } else {
      RunRestarts(days, d, d');
    }
  }

  /** For events logged in calendar order by a user with no previous log,
      `current` is the number of consecutive days, ending at the latest event
      day, that carry an event. */
  lemma {:induction false} StreakCountsConsecutiveDays(days: seq<Day>)
    requires |days| > 0 && NonDecreasing(days)
    ensures StreakRun(Streak(0, 0, None), days).last == Some(days[|days| - 1])
    ensures IsRunOfLength(Elems(days), days[|days| - 1], StreakRun(Streak(0, 0, None), days).current)
    decreases |days|
  {
    var start := Streak(0, 0, None);
    var d' := days[|days| - 1];
    var prefix := days[..|days| - 1];
    ElemsOfPrefix(days);
    if |prefix| == 0 {
      assert Elems(prefix) == {};
    } else {
      StreakCountsConsecutiveDays(prefix);
      var d := prefix[|prefix| - 1];
      LastIsLatest(prefix);
      StepKeepsRun(Elems(prefix), d, StreakRun(start, prefix), d');
    }
  }

  // ---------------------------------------------------------------------
  // Daily missions

  datatype Mission = Retos | Rutinas | Mente

  /** The section → counter mapping: only these three sections count. */
  function MissionOf(section: Option<string>): (m: Option<Mission>)
    ensures m == Some(Retos) <==> section == Some("RETOS")
    ensures m == Some(Rutinas) <==> section == Some("RUTINAS")
    ensures m == Some(Mente) <==> section == Some("MENTE")
  {
    if section == Some("RETOS") then Some(Retos)
    else if section == Some("RUTINAS") then Some(Rutinas)
    else if section == Some("MENTE") then Some(Mente)
    else None
  }

  /** One `user_day` row: a counter per mission and the bonus flag. */
  datatype DayRow = DayRow(retos: int, rutinas: int, mente: int, bonusAwarded: bool) {
    function Count(m: Mission): int {
      match m
      case Retos => retos
      case Rutinas => rutinas
      case Mente => mente
    }
    predicate MissionDone() {
      retos > 0 && rutinas > 0 && mente > 0
    }
  }

  const EmptyDay := DayRow(0, 0, 0, false)

  /** The day row after one event of mission `m`, and whether this event
      earned the daily bonus. A missing row reads as all zeros. */
  function MissionStep(stored: Option<DayRow>, m: Mission): (r: (DayRow, bool))
    ensures var before := stored.GetOr(EmptyDay);
      && r.0.Count(m) == before.Count(m) + 1
      && (forall o :: o != m ==> r.0.Count(o) == before.Count(o))
      && (r.1 <==> r.0.MissionDone() && !before.bonusAwarded)
      && (r.0.bonusAwarded <==> before.bonusAwarded || r.1)
  {
    var o := stored.GetOr(EmptyDay);
    var o1 := match m
      case Retos => o.(retos := o.retos + 1)
      case Rutinas => o.(rutinas := o.rutinas + 1)
      case Mente => o.(mente := o.mente + 1);
    if o1.MissionDone() && !o1.bonusAwarded then (o1.(bonusAwarded := true), true)
    else (o1, false)
  }

  /** Once the bonus has been awarded on a day row, no later event fires it. */
  lemma BonusAtMostOnce(row: DayRow, m: Mission)
    requires row.bonusAwarded
    ensures !MissionStep(Some(row), m).1
    ensures MissionStep(Some(row), m).0.bonusAwarded
  {
  }

  /** A whole day of events: the final row and how many of them fired the bonus. */
  function DayRun(events: seq<Option<Mission>>): (DayRow, nat)
    decreases |events|
  {
    if |events| == 0 then (EmptyDay, 0)
    else
      var (row, fired) := DayRun(events[..|events| - 1]);
      match events[|events| - 1]
      case None => (row, fired)
      case Some(m) =>
        var (row', now) := MissionStep(Some(row), m);
        (row', fired + if now then 1 else 0)
  }

  ghost predicate Covers(events: seq<Option<Mission>>, m: Mission) {
    Some(m) in events
  }

  ghost predicate CoversAll(events: seq<Option<Mission>>) {
    Covers(events, Retos) && Covers(events, Rutinas) && Covers(events, Mente)
  }

  /** Over one day, the bonus fires exactly once if every mission was logged
      at least once, and never otherwise; the row's counters count the
      events of their own mission. */
  lemma {:induction false} DailyBonusOncePerDay(events: seq<Option<Mission>>)
    ensures var (row, fired) := DayRun(events);
      && (forall m :: row.Count(m) > 0 <==> Covers(events, m))
      && (forall m :: row.Count(m) >= 0)
      && (row.bonusAwarded <==> CoversAll(events))
      && fired == (if CoversAll(events) then 1 else 0)
    decreases |events|
  {
    if |events| > 0 {
      var prefix := events[..|events| - 1];
      DailyBonusOncePerDay(prefix);
      var e := events[|events| - 1];
      assert events == prefix + [e];
      forall m ensures Covers(events, m) <==> Covers(prefix, m) || e == Some(m) {
      }
    }
  }

  // ---------------------------------------------------------------------
  // Badges

  /** A row of the `badges` table: a code and, for point badges, its threshold. */
  datatype PointBadge = PointBadge(code: string, thresholdPoints: Option<int>)

  datatype StreakBadge = StreakBadge(code: string, days: int)

  const StreakBadges: seq<StreakBadge> := [
    StreakBadge("streak3", 3),
    StreakBadge("streak7", 7),
    StreakBadge("streak14", 14),
    StreakBadge("streak30", 30)
  ]

  /** Codes of the point badges whose threshold is set and reached, in table order. */
  function PointCodes(defs: seq<PointBadge>, points: int): (r: seq<string>)
    ensures forall c :: c in r <==>
      exists b :: b in defs && b.code == c && b.thresholdPoints.Some? && b.thresholdPoints.value <= points
    decreases |defs|
  {
    if |defs| == 0 then []
    else
      var rest := PointCodes(defs[1..], points);
      var b := defs[0];
      assert forall x :: x in defs <==> x == b || x in defs[1..];
      if b.thresholdPoints.Some? && b.thresholdPoints.value <= points then [b.code] + rest else rest
  }

  /** Codes of the streak badges whose day count is reached, in table order. */
  function StreakCodes(defs: seq<StreakBadge>, streak: int): (r: seq<string>)
    ensures forall c :: c in r <==> exists b :: b in defs && b.code == c && streak >= b.days
    decreases |defs|
  {
    if |defs| == 0 then []
    else
      var rest := StreakCodes(defs[1..], streak);
      assert forall x :: x in defs <==> x == defs[0] || x in defs[1..];
      if streak >= defs[0].days then [defs[0].code] + rest else rest
  }

  /** `codes.filter(c => !have.has(c))`. */
  function NotHeld(codes: seq<string>, have: set<string>): (r: seq<string>)
    ensures forall c :: c in r <==> c in codes && c !in have
    ensures |r| <= |codes|
    decreases |codes|
  {
    if |codes| == 0 then []
    else if codes[0] in have then NotHeld(codes[1..], have)
    else [codes[0]] + NotHeld(codes[1..], have)
  }

  datatype Grants = Grants(byPoints: seq<string>, byStreak: seq<string>, held: seq<string>)

  /** Both badge reconciliations: point badges against `points`, then streak
      badges against `streak`, each skipping codes the user already holds. */
  function GrantBadges(defs: seq<PointBadge>, held: seq<string>, points: int, streak: int): (g: Grants)
    ensures Elems(g.byPoints) == Elems(PointCodes(defs, points)) - Elems(held)
    ensures Elems(g.byStreak) == Elems(StreakCodes(StreakBadges, streak)) - Elems(held) - Elems(g.byPoints)
    ensures g.held == held + g.byPoints + g.byStreak
    ensures Elems(g.held) == Elems(held) + Elems(PointCodes(defs, points)) + Elems(StreakCodes(StreakBadges, streak))
  {
    var byPoints := NotHeld(PointCodes(defs, points), Elems(held));
    var held1 := held + byPoints;
    assert Elems(held1) == Elems(held) + Elems(byPoints);
    var byStreak := NotHeld(StreakCodes(StreakBadges, streak), Elems(held1));
    assert Elems(held1 + byStreak) == Elems(held1) + Elems(byStreak);
    Grants(byPoints, byStreak, held1 + byStreak)
  }

  lemma NoElemsIsEmpty<T>(s: seq<T>)
    ensures Elems(s) == {} ==> s == []
  {
    if s != [] {
      assert s[0] in Elems(s);
    }
  }

  /** Re-running the reconciliation on its own outcome grants nothing. */
  lemma GrantBadgesIdempotent(defs: seq<PointBadge>, held: seq<string>, points: int, streak: int)
    ensures var again := GrantBadges(defs, GrantBadges(defs, held, points, streak).held, points, streak);
      again.byPoints == [] && again.byStreak == []
  {
    var g := GrantBadges(defs, held, points, streak);
    var again := GrantBadges(defs, g.held, points, streak);
    NoElemsIsEmpty(again.byPoints);
    NoElemsIsEmpty(again.byStreak);
  }

  // ---------------------------------------------------------------------
  // The handler

  datatype LogBody = LogBody(
    externalId: string,
    contentId: Option<string>,
    section: Option<string>,
    title: Option<string>,
    dvg: Option<int>)

  datatype UserRow = UserRow(
    id: string,
    points: int,
    level: int,
    streakCurrent: int,
    streakBest: int,
    lastLogDate: Option<Day>)

  /** An `achievements` row. */
  datatype Record = Record(
    userId: string,
    contentId: Option<string>,
    section: Option<string>,
    title: Option<string>,
    dvg: Option<int>,
    points: int)

  datatype LogReply = LogReply(
    level: nat,
    levelName: string,
    points: int,
    nextLevel: Option<nat>,
    toNext: int,
    streakCurrent: int,
    streakBest: int,
    dailyBonusAwarded: bool,
    badges: seq<string>)

  /** Everything the step writes: achievement rows in insertion order, the
      final user row, the day row (if a mission section was logged) and the
      badge grants. */
  datatype LogWrites = LogWrites(records: seq<Record>, user: UserRow, day: Option<DayRow>, grants: seq<string>)

  datatype LogResult = LogResult(writes: LogWrites, reply: LogReply)

  /** The row created for a first-time user. */
  function NewUser(id: string): UserRow {
    UserRow(id, 0, 1, 0, 0, None)
  }

  /** The day-row part of the step: the row is only touched, and the bonus
      can only fire, when the section is one of the three missions. */
  function MissionOutcome(section: Option<string>, storedDay: Option<DayRow>): (r: (Option<DayRow>, bool))
    ensures r.0.Some? <==> MissionOf(section).Some?
    ensures r.1 ==> MissionOf(section).Some? && !storedDay.GetOr(EmptyDay).bonusAwarded
    ensures r.0.Some? ==> (r.0.value.bonusAwarded <==> storedDay.GetOr(EmptyDay).bonusAwarded || r.1)
    // a mission event adds one to its own counter only, and fires the bonus
    // exactly when it completes all three missions for the first time today
    ensures MissionOf(section).Some? ==>
      var m := MissionOf(section).value;
      var before := storedDay.GetOr(EmptyDay);
      && r.0.value.Count(m) == before.Count(m) + 1
      && (forall o :: o != m ==> r.0.value.Count(o) == before.Count(o))
      && (r.1 <==> r.0.value.MissionDone() && !before.bonusAwarded)
  {
    match MissionOf(section)
    case None => (None, false)
    case Some(m) =>
      var (row, now) := MissionStep(storedDay, m);
      (Some(row), now)
  }

  /** The step proper, once the request has passed validation: `user` is the
      resolved user row. */
  function Apply(
    body: LogBody, user: UserRow, today: Day, storedDay: Option<DayRow>,
    badgeDefs: seq<PointBadge>, held: seq<string>): (res: LogResult)
    ensures var w := res.writes;
      var reply := res.reply;
      // the credited gain is at least 1 and is what the first record carries
      && reply.points == user.points + Gain(body.dvg)
      && reply.points >= user.points + 1
      && |w.records| == (if reply.dailyBonusAwarded then 2 else 1)
      && w.records[0].points == Gain(body.dvg)
      && w.records[0].userId == user.id
      // the achievement row carries the request's own fields
      && w.records[0] == Record(user.id, body.contentId, body.section, body.title, body.dvg, Gain(body.dvg))
      // the bonus row: no content, section RETOS, "Bonus diario", worth the bonus
      && (reply.dailyBonusAwarded ==>
            w.records[1] == Record(user.id, None, Some("RETOS"), Some("Bonus diario"), Some(Bonus), Bonus))
      // the bonus is stored, but neither returned nor used for the level
      && w.user.points == reply.points + (if reply.dailyBonusAwarded then Bonus else 0)
      && w.user.level == reply.level == LevelFor(reply.points).current.number
      && w.user.id == user.id
      && w.user.lastLogDate == Some(today)
      && reply.streakCurrent == w.user.streakCurrent && reply.streakBest == w.user.streakBest
      // the reported level is the table's entry for these points
      && reply.levelName == LevelFor(reply.points).current.name
      && (reply.nextLevel.Some? <==> LevelFor(reply.points).next.Some?)
      && (reply.nextLevel.Some? ==> reply.nextLevel.value == LevelFor(reply.points).next.value.number)
      && reply.toNext == LevelFor(reply.points).toNext
      // only a mission section touches the day row, as the mission step says
      && (w.day.Some? <==> MissionOf(body.section).Some?)
      && w.day == MissionOutcome(body.section, storedDay).0
      && reply.dailyBonusAwarded == MissionOutcome(body.section, storedDay).1
      && (reply.dailyBonusAwarded ==> MissionOf(body.section).Some? && !storedDay.GetOr(EmptyDay).bonusAwarded)
      && (w.day.Some? ==>
            (reply.dailyBonusAwarded <==> w.day.value.MissionDone() && !storedDay.GetOr(EmptyDay).bonusAwarded))
      // badges: both reconciliations, run on the pre-bonus points
      && var g := GrantBadges(badgeDefs, held, reply.points, reply.streakCurrent);
         reply.badges == g.held && w.grants == g.byPoints + g.byStreak
  {
    var gain := Gain(body.dvg);
    var record := Record(user.id, body.contentId, body.section, body.title, body.dvg, gain);
    var newPoints := user.points + gain;
    var info := LevelFor(newPoints);
    var streak := StreakStep(Streak(user.streakCurrent, user.streakBest, user.lastLogDate), today);
    var saved := UserRow(user.id, newPoints, info.current.number, streak.current, streak.best, Some(today));
    var (day, fired) := MissionOutcome(body.section, storedDay);
    var bonusRecord := Record(user.id, None, Some("RETOS"), Some("Bonus diario"), Some(Bonus), Bonus);
    var records := if fired then [record, bonusRecord] else [record];
    var final := if fired then saved.(points := newPoints + Bonus) else saved;
    var g := GrantBadges(badgeDefs, held, newPoints, streak.current);
    var reply := LogReply(
      info.current.number, info.current.name, newPoints,
      if info.next.Some? then Some(info.next.value.number) else None,
      info.toNext, streak.current, streak.best, fired, g.held);
    LogResult(LogWrites(records, final, day, g.byPoints + g.byStreak), reply)
  }

  /** After the step the user holds exactly the old badges plus every
      qualifying code, and the grants are precisely the codes that were
      missing: point badges judged on the returned (pre-bonus) points,
      streak badges on the new streak. */
  lemma ApplyGrantsQualifyingBadges(
    body: LogBody, user: UserRow, today: Day, storedDay: Option<DayRow>,
    badgeDefs: seq<PointBadge>, held: seq<string>)
    ensures var res := Apply(body, user, today, storedDay, badgeDefs, held);
      && Elems(res.reply.badges) == Elems(held) + Elems(PointCodes(badgeDefs, res.reply.points))
           + Elems(StreakCodes(StreakBadges, res.reply.streakCurrent))
      && Elems(res.writes.grants) == Elems(res.reply.badges) - Elems(held)
  {
    var res := Apply(body, user, today, storedDay, badgeDefs, held);
    var g := GrantBadges(badgeDefs, held, res.reply.points, res.reply.streakCurrent);
    assert Elems(g.byPoints + g.byStreak) == Elems(g.byPoints) + Elems(g.byStreak);
  }

  /** The streak fields of the step follow the calendar rules: same day keeps
      them, the day after the last log adds one, anything else restarts at 1,
      and `best` never falls below `current` once it was not below it. */
  lemma ApplyStreak(
    body: LogBody, user: UserRow, today: Day, storedDay: Option<DayRow>,
    badgeDefs: seq<PointBadge>, held: seq<string>)
    ensures var reply := Apply(body, user, today, storedDay, badgeDefs, held).reply;
      && (user.lastLogDate == Some(today) ==>
            reply.streakCurrent == user.streakCurrent && reply.streakBest == user.streakBest)
      && (user.lastLogDate == Some(today - 1) ==> reply.streakCurrent == user.streakCurrent + 1)
      && (user.lastLogDate.None? || user.lastLogDate.value < today - 1 ==> reply.streakCurrent == 1)
      && (user.streakBest >= user.streakCurrent ==> reply.streakBest >= reply.streakCurrent)
  {
  }

  /** What the store answers to each write the handler awaits: `None` when
      it succeeds, else the error's message. `create` is the upsert that makes
      a first-time user, `true` when it returns no row. */
  datatype Faults = Faults(
    create: bool,
    record: Option<string>,
    userUpdate: Option<string>,
    bonusRecord: Option<string>,
    bonusUpdate: Option<string>,
    dayUpdate: Option<string>)

  const NoFaults := Faults(false, None, None, None, None, None)

  /** The catch block's fallback text: `e.message || 'log failed'`. */
  const LogFailed := "log failed"

  /** The message of the first write that fails, in the handler's order,
      among the writes this event reaches: the user upsert only for a new
      user, the bonus writes only when the bonus fires, the day update only
      for a mission section. */
  function FirstFault(f: Faults, known: bool, section: Option<string>, storedDay: Option<DayRow>): (r: Option<string>)
    ensures r.None? <==>
      && (known || !f.create)
      && f.record.None? && f.userUpdate.None?
      && (MissionOutcome(section, storedDay).1 ==> f.bonusRecord.None? && f.bonusUpdate.None?)
      && (MissionOf(section).Some? ==> f.dayUpdate.None?)
  {
    var fired := MissionOutcome(section, storedDay).1;
    if !known && f.create then Some("Cannot create/find user")
    else if f.record.Some? then f.record
    else if f.userUpdate.Some? then f.userUpdate
    else if fired && f.bonusRecord.Some? then f.bonusRecord
    else if fired && f.bonusUpdate.Some? then f.bonusUpdate
    else if MissionOf(section).Some? && f.dayUpdate.Some? then f.dayUpdate
    else None
  }

  /** The JSON body: unparsable (with the parser's message), or parsed to
      `null` or to the fields the handler reads. */
  datatype JsonBody = Unparsable(message: string) | Parsed(fields: Option<LogBody>)

  /** `POST /api/achievements/log`.
      `stored` is the user row found by external id (`freshId` names the row
      the upsert creates when there is none), `storedDay` the user's row for
      `today`, `badgeDefs` the `badges` table, `held` the user's badge
      codes before this event and `faults` the store's answers to the writes. */
  function RecordAchievement(
    verb: string, body: JsonBody, today: Day, stored: Option<UserRow>, freshId: string,
    storedDay: Option<DayRow>, badgeDefs: seq<PointBadge>, held: seq<string>, faults: Faults): (r: Reply<LogResult>)
    ensures verb != "POST" ==> r == Refused(405, "Method not allowed")
    // the body is read inside the try, so a parse error lands in the catch
    ensures verb == "POST" && body.Unparsable? ==> r == Refused(500, MessageOr(body.message, LogFailed))
    ensures verb == "POST" && body.Parsed? && (body.fields.None? || body.fields.value.externalId == "") ==>
      r == Refused(400, "Missing externalId")
    ensures verb == "POST" && body.Parsed? && body.fields.Some? && body.fields.value.externalId != "" ==>
      var b := body.fields.value;
      var fault := FirstFault(faults, stored.Some?, b.section, storedDay);
      && (fault.None? ==>
            r == Answered(Apply(b, stored.GetOr(NewUser(freshId)), today, storedDay, badgeDefs, held)))
      && (fault.Some? ==> r == Refused(500, MessageOr(fault.value, LogFailed)))
    ensures r.Answered? <==>
      verb == "POST" && body.Parsed? && body.fields.Some? && body.fields.value.externalId != "" &&
      FirstFault(faults, stored.Some?, body.fields.value.section, storedDay).None?
    ensures r.Refused? ==> r.status in {400, 405, 500}
  {
    if verb != "POST" then Refused(405, "Method not allowed")
    else if body.Unparsable? then Refused(500, MessageOr(body.message, LogFailed))
    else if body.fields.None? || body.fields.value.externalId == "" then Refused(400, "Missing externalId")
    else
      var b := body.fields.value;
      var fault := FirstFault(faults, stored.Some?, b.section, storedDay);
      if fault.Some? then Refused(500, MessageOr(fault.value, LogFailed))
      else Answered(Apply(b, stored.GetOr(NewUser(freshId)), today, storedDay, badgeDefs, held))
  }

  /** A failing write the event never reaches changes nothing: a logged
      event outside the three missions is answered whatever the day-row and
      bonus writes would have done. */
  lemma UnreachedWritesDoNotMatter(
    body: LogBody, today: Day, stored: Option<UserRow>, freshId: string,
    storedDay: Option<DayRow>, badgeDefs: seq<PointBadge>, held: seq<string>, faults: Faults)
    requires body.externalId != "" && MissionOf(body.section).None?
    requires faults.record.None? && faults.userUpdate.None? && (stored.Some? || !faults.create)
    ensures RecordAchievement("POST", Parsed(Some(body)), today, stored, freshId, storedDay, badgeDefs, held, faults) ==
      RecordAchievement("POST", Parsed(Some(body)), today, stored, freshId, storedDay, badgeDefs, held, NoFaults)
    ensures RecordAchievement("POST", Parsed(Some(body)), today, stored, freshId, storedDay, badgeDefs, held, faults).Answered?
  {
  }
}
