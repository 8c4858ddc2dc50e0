/**
  `GET /api/leaderboard`: the level shown, the caller's rank within it and
  the ten best users of that level. The `users` table is a parameter.
 */
module Leaderboard {
  import opened Wrappers
  import opened JsValues

  datatype Player = Player(externalId: string, displayName: string, level: int, points: int)

  /** The users at `level`, in table order. */
  function AtLevel(users: seq<Player>, level: int): (r: seq<Player>)
    ensures |r| <= |users|
    ensures forall i :: 0 <= i < |r| ==> r[i].level == level
    ensures forall p :: p in r <==> p in users && p.level == level
    ensures multiset(r) <= multiset(users)
  {
    if |users| == 0 then []
    else
      var rest := AtLevel(users[1..], level);
      assert users == [users[0]] + users[1..];
      if users[0].level == level then [users[0]] + rest else rest
  }

  /** Row `i` is the only one carrying this external id. */
  predicate OnlyAt(users: seq<Player>, externalId: string, i: int) {
    && 0 <= i < |users|
    && users[i].externalId == externalId
    && forall j :: 0 <= j < |users| && users[j].externalId == externalId ==> j == i
  }

  /** `.single()` on the users with this external id: the row when exactly
      one carries it, nothing when none or several do. */
  function FindMe(users: seq<Player>, externalId: string): (r: Option<Player>)
    ensures r.Some? ==> r.value in users && r.value.externalId == externalId
    ensures (forall i :: 0 <= i < |users| ==> users[i].externalId != externalId) ==> r.None?
    ensures forall i :: OnlyAt(users, externalId, i) ==> r == Some(users[i])
    ensures (exists i, j :: 0 <= i < j < |users| && users[i].externalId == externalId && users[j].externalId == externalId)
      ==> r.None?
  {
    var matches := WithId(users, externalId);
    WithIdCount(users, externalId);
    if |matches| == 1 then Some(matches[0]) else None
  }

  /** One carrier gives one match; two carriers give at least two. */
  lemma WithIdCount(users: seq<Player>, externalId: string)
    ensures forall i :: OnlyAt(users, externalId, i) ==> WithId(users, externalId) == [users[i]]
    ensures (exists i, j :: 0 <= i < j < |users| && users[i].externalId == externalId && users[j].externalId == externalId)
      ==> |WithId(users, externalId)| >= 2
  {
    forall i | OnlyAt(users, externalId, i) ensures WithId(users, externalId) == [users[i]] {
      WithIdOnly(users, externalId, i);
    }
    if exists i, j :: 0 <= i < j < |users| && users[i].externalId == externalId && users[j].externalId == externalId {
      var i, j :| 0 <= i < j < |users| && users[i].externalId == externalId && users[j].externalId == externalId;
      WithIdTwo(users, externalId, i, j);
    }
  }

  /** An id carried by one row alone selects exactly that row. */
  lemma {:induction false} WithIdOnly(users: seq<Player>, externalId: string, i: int)
    requires OnlyAt(users, externalId, i)
    ensures WithId(users, externalId) == [users[i]]
    decreases |users|
  {
    var tail := users[1..];
    if i == 0 {
      forall p | p in tail ensures p.externalId != externalId {
        var k :| 0 <= k < |tail| && tail[k] == p;
        assert users[k + 1] == p;
      }
    } else {
      forall j | 0 <= j < |tail| && tail[j].externalId == externalId ensures j == i - 1 {
        assert users[j + 1] == tail[j];
      }
      assert tail[i - 1] == users[i];
      WithIdOnly(tail, externalId, i - 1);
    }
  }

  /** Two rows carrying the id both end up among the matches. */
  lemma {:induction false} WithIdTwo(users: seq<Player>, externalId: string, i: int, j: int)
    requires 0 <= i < j < |users|
    requires users[i].externalId == externalId && users[j].externalId == externalId
    ensures |WithId(users, externalId)| >= 2
    decreases |users|
  {
    var tail := users[1..];
    assert tail[j - 1] == users[j];
    if i == 0 {
      var rest := WithId(tail, externalId);
      assert users[j] in rest;
    } else {
      assert tail[i - 1] == users[i];
      WithIdTwo(tail, externalId, i - 1, j - 1);
    }
  }

  /** The users with this external id, in table order. */
  function WithId(users: seq<Player>, externalId: string): (r: seq<Player>)
    ensures forall p :: p in r <==> p in users && p.externalId == externalId
    ensures (forall p :: p in users ==> p.externalId != externalId) ==> r == []
  {
    if |users| == 0 then []
    else
      var rest := WithId(users[1..], externalId);
      assert users == [users[0]] + users[1..];
      if users[0].externalId == externalId then [users[0]] + rest else rest
  }

  /** The level: the `level` query value when it is a non-zero number, else
      the caller's level when non-zero, else 1. */
  function ResolveLevel(levelParam: Option<string>, me: Option<Player>): (level: int)
    ensures level != 0
    ensures levelParam.Some? && levelParam.value != "" && ToNumber(Str(levelParam.value)).Truthy() ==>
      level == ToNumber(Str(levelParam.value)).n
    ensures (levelParam.None? || levelParam.value == "" || !ToNumber(Str(levelParam.value)).Truthy()) ==>
      level == (if me.Some? && me.value.level != 0 then me.value.level else 1)
  {
    var fromParam := if levelParam.Some? && levelParam.value != "" then ToNumber(Str(levelParam.value)) else NaN;
    if fromParam.Truthy() then fromParam.n
    else if me.Some? && me.value.level != 0 then me.value.level
    else 1
  }

  /** How many users at `level` have strictly more than `points`. */
  function CountAbove(users: seq<Player>, level: int, points: int): (n: nat)
    ensures n <= |users|
    ensures n == 0 <==> forall i :: 0 <= i < |users| && users[i].level == level ==> users[i].points <= points
    decreases |users|
  {
    if |users| == 0 then 0
    else
      var rest := CountAbove(users[1..], level, points);
      assert forall i :: 1 <= i < |users| ==> users[i] == users[1..][i - 1];
      rest + (if users[0].level == level && users[0].points > points then 1 else 0)
  }

  /** Counting above a higher score never gives more users. */
  lemma {:induction false} CountAboveAntitone(users: seq<Player>, level: int, p: int, q: int)
    requires p <= q
    ensures CountAbove(users, level, q) <= CountAbove(users, level, p)
    decreases |users|
  {
    if |users| > 0 {
      CountAboveAntitone(users[1..], level, p, q);
    }
  }

  /** `myRank`: one more than the number of same-level users ahead. */
  function Rank(users: seq<Player>, level: int, me: Player): (rank: nat)
    ensures rank >= 1
    ensures rank == 1 <==> forall i :: 0 <= i < |users| && users[i].level == level ==> users[i].points <= me.points
  {
    CountAbove(users, level, me.points) + 1
  }

  /** More points never give a worse rank, and equal points share a rank. */
  lemma RankMonotone(users: seq<Player>, level: int, a: Player, b: Player)
    ensures a.points >= b.points ==> Rank(users, level, a) <= Rank(users, level, b)
    ensures a.points == b.points ==> Rank(users, level, a) == Rank(users, level, b)
  {
    if a.points >= b.points {
      CountAboveAntitone(users, level, b.points, a.points);
    }
  }

  predicate NonIncreasing(s: seq<Player>) {
    forall i, j :: 0 <= i < j < |s| ==> s[i].points >= s[j].points
  }

  /** Inserts `p` into a non-increasing list, ahead of any equal points. */
  function Insert(p: Player, s: seq<Player>): (r: seq<Player>)
    requires NonIncreasing(s)
    ensures NonIncreasing(r)
    ensures multiset(r) == multiset(s) + multiset{p}
    ensures |r| == |s| + 1
    ensures forall x :: x in r <==> x == p || x in s
    decreases |s|
  {
    if |s| == 0 || p.points >= s[0].points then
      AheadOfHead(p, s);
      [p] + s
    else
      var rest := Insert(p, s[1..]);
      assert s == [s[0]] + s[1..];
      HeadIsTop(s);
      MembersAtMost(rest, s[0].points);
      ConsNonIncreasing(s[0], rest);
      [s[0]] + rest
  }

  /** A row scoring at least the head's points can go in front. */
  lemma AheadOfHead(p: Player, s: seq<Player>)
    requires NonIncreasing(s)
    requires |s| == 0 || p.points >= s[0].points
    ensures NonIncreasing([p] + s)
  {
    if |s| > 0 {
      HeadIsTop(s);
      MembersAtMost(s, p.points);
    }
    ConsNonIncreasing(p, s);
  }

  /** A head scoring at least as much as every row of a non-increasing
      tail keeps the list non-increasing. */
  lemma ConsNonIncreasing(h: Player, t: seq<Player>)
    requires NonIncreasing(t)
    requires forall j :: 0 <= j < |t| ==> t[j].points <= h.points
    ensures NonIncreasing([h] + t)
  {
    var r := [h] + t;
    forall i, j | 0 <= i < j < |r| ensures r[i].points >= r[j].points {
      assert r[j] == t[j - 1];
      if i > 0 {
        assert r[i] == t[i - 1];
      }
    }
  }

  /** Nobody in a non-increasing list scores more than its head. */
  lemma HeadIsTop(s: seq<Player>)
    requires NonIncreasing(s) && |s| > 0
    ensures forall x :: x in s ==> x.points <= s[0].points
  {
  }

  lemma MembersAtMost(r: seq<Player>, bound: int)
    requires forall x :: x in r ==> x.points <= bound
    ensures forall j :: 0 <= j < |r| ==> r[j].points <= bound
  {
    forall j | 0 <= j < |r| ensures r[j].points <= bound {
      assert r[j] in r;
    }
  }

  /** `order('points', { ascending: false })`: a non-increasing permutation. */
  function SortByPoints(s: seq<Player>): (r: seq<Player>)
    ensures NonIncreasing(r)
    ensures multiset(r) == multiset(s)
    ensures |r| == |s|
    ensures forall x :: x in r <==> x in s
    decreases |s|
  {
    if |s| == 0 then []
    else
      assert s == [s[0]] + s[1..];
      Insert(s[0], SortByPoints(s[1..]))
  }

  /** `.eq('level', level).order(...).limit(10)`. */
  function Top(users: seq<Player>, level: int): (top: seq<Player>)
    ensures |top| == if |AtLevel(users, level)| <= 10 then |AtLevel(users, level)| else 10
    ensures NonIncreasing(top)
    ensures forall i :: 0 <= i < |top| ==> top[i].level == level && top[i] in users
    ensures top == SortByPoints(AtLevel(users, level))[..|top|]
  {
    var at := AtLevel(users, level);
    var sorted := SortByPoints(at);
    var top := TakeAtMost(sorted, 10);
    forall i | 0 <= i < |top| ensures top[i].level == level && top[i] in users {
      assert top[i] == sorted[i] && sorted[i] in sorted;
      assert top[i] in at;
    }
    top
  }

  /** `limit(n)`: the first `n` rows, or all of them when there are fewer. */
  function TakeAtMost(s: seq<Player>, n: nat): (r: seq<Player>)
    ensures |r| == if |s| <= n then |s| else n
    ensures r == s[..|r|]
  {
    if |s| <= n then s else s[..n]
  }

  /** The top list leaves out only users who score no more than anyone in
      it: together with the rest it is exactly the users of the level. */
  lemma TopIsBest(users: seq<Player>, level: int)
    ensures var sorted := SortByPoints(AtLevel(users, level));
      var top := Top(users, level);
      var rest := sorted[|top|..];
      && multiset(top) + multiset(rest) == multiset(AtLevel(users, level))
      && (forall i, j :: 0 <= i < |top| && 0 <= j < |rest| ==> rest[j].points <= top[i].points)
      && (|AtLevel(users, level)| <= 10 ==> multiset(top) == multiset(AtLevel(users, level)))
  {
    var at := AtLevel(users, level);
    var sorted := SortByPoints(at);
    var top := Top(users, level);
    SplitSorted(sorted, |top|);
  }

  /** Cutting a non-increasing list in two: nothing in the back half beats
      anything in the front half, and no row is lost. */
  lemma SplitSorted(sorted: seq<Player>, k: nat)
    requires NonIncreasing(sorted) && k <= |sorted|
    ensures multiset(sorted[..k]) + multiset(sorted[k..]) == multiset(sorted)
    ensures forall i, j :: 0 <= i < k && 0 <= j < |sorted| - k ==> sorted[k..][j].points <= sorted[..k][i].points
    ensures k == |sorted| ==> sorted[k..] == []
  {
    var top, rest := sorted[..k], sorted[k..];
    assert sorted == top + rest;
    forall i, j | 0 <= i < k && 0 <= j < |rest|
      ensures rest[j].points <= top[i].points
    {
      assert top[i] == sorted[i] && rest[j] == sorted[k + j];
    }
  }

  datatype Board = Board(level: int, me: Option<Player>, myRank: Option<nat>, top: seq<Player>)

  /** The handler; the caller is looked up only when `externalId` is given. */
  function Standings(users: seq<Player>, externalId: Option<string>, levelParam: Option<string>): (r: Board)
    ensures r.me == if externalId.Some? && externalId.value != "" then FindMe(users, externalId.value) else None
    ensures r.level == ResolveLevel(levelParam, r.me)
    ensures r.level != 0
    ensures r.me.Some? ==> externalId.Some? && externalId.value != "" && r.me.value in users
    ensures r.myRank.Some? <==> r.me.Some?
    ensures r.me.Some? ==> r.myRank.value == CountAbove(users, r.level, r.me.value.points) + 1
    ensures r.me.Some? ==> (r.myRank.value == 1 <==>
      forall i :: 0 <= i < |users| && users[i].level == r.level ==> users[i].points <= r.me.value.points)
    ensures r.top == Top(users, r.level)
  {
    var me := if externalId.Some? && externalId.value != "" then FindMe(users, externalId.value) else None;
    var level := ResolveLevel(levelParam, me);
    Board(level, me, if me.Some? then Some(Rank(users, level, me.value)) else None, Top(users, level))
  }
}
