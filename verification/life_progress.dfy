/**
  `GET /api/progress`: the life days and hours a user has gained, summed
  over their logged actions, grouped by pillar, plus the ten latest logs.
  The two fetched tables are parameters.
 */
module LifeProgress {
  import opened Wrappers

  /** An `action_logs` row; a missing quantity reads as 0. */
  datatype LogRow = LogRow(actionId: string, qty: Option<int>, createdAt: string)

  /** An `actions_catalog` row. A life figure that is `null` or does not
      read as a number is `None` and counts as 0; an empty pillar or title
      counts as absent. */
  datatype CatRow = CatRow(
    id: string, pillar: string, lifeDays: Option<real>, lifeHours: Option<real>, title: string)

  /** `catById`: each id mapped to the last catalog row carrying it. */
  function Index(cats: seq<CatRow>): (m: map<string, CatRow>)
    ensures forall id :: id in m ==> m[id] in cats && m[id].id == id
    ensures forall k :: 0 <= k < |cats| ==> cats[k].id in m
    decreases |cats|
  {
    if |cats| == 0 then map[]
    else
      var last := cats[|cats| - 1];
      assert forall k :: 0 <= k < |cats| - 1 ==> cats[k] == cats[..|cats| - 1][k];
      Index(cats[..|cats| - 1])[last.id := last]
  }

  /** A later row with the same id replaces an earlier one. */
  lemma {:induction false} IndexLastWins(cats: seq<CatRow>, k: nat)
    requires k < |cats|
    requires forall j :: k < j < |cats| ==> cats[j].id != cats[k].id
    ensures Index(cats)[cats[k].id] == cats[k]
    decreases |cats|
  {
    if k < |cats| - 1 {
      var init := cats[..|cats| - 1];
      assert init[k] == cats[k];
      IndexLastWins(init, k);
    }
  }

  /** `c.pillar || "Otros"`. */
  function PillarKey(c: CatRow): (p: string)
    ensures p != ""
    ensures c.pillar != "" ==> p == c.pillar
  {
    if c.pillar != "" then c.pillar else "Otros"
  }

  /** `Number(l.qty) || 0`. */
  function Quantity(l: LogRow): real {
    (l.qty.GetOr(0)) as real
  }

  /** The days one log adds: quantity times the catalog's life days, or
      nothing for an action missing from the catalog. */
  function DaysOf(l: LogRow, index: map<string, CatRow>): real {
    if l.actionId in index then Quantity(l) * index[l.actionId].lifeDays.GetOr(0.0) else 0.0
  }

  function HoursOf(l: LogRow, index: map<string, CatRow>): real {
    if l.actionId in index then Quantity(l) * index[l.actionId].lifeHours.GetOr(0.0) else 0.0
  }

  /** Reference totals: the sum of every log's contribution. */
  function TotalDays(logs: seq<LogRow>, index: map<string, CatRow>): real
    decreases |logs|
  {
    if |logs| == 0 then 0.0 else TotalDays(logs[..|logs| - 1], index) + DaysOf(logs[|logs| - 1], index)
  }

  function TotalHours(logs: seq<LogRow>, index: map<string, CatRow>): real
    decreases |logs|
  {
    if |logs| == 0 then 0.0 else TotalHours(logs[..|logs| - 1], index) + HoursOf(logs[|logs| - 1], index)
  }

  /** Reference per-pillar total: the days of the logs whose action falls
      under pillar `p`. */
  function PillarDays(logs: seq<LogRow>, index: map<string, CatRow>, p: string): real
    decreases |logs|
  {
    if |logs| == 0 then 0.0
    else
      var l := logs[|logs| - 1];
      PillarDays(logs[..|logs| - 1], index, p) +
        (if l.actionId in index && PillarKey(index[l.actionId]) == p then DaysOf(l, index) else 0.0)
  }

  /** The pillars of the logs whose action is in the catalog. */
  function Pillars(logs: seq<LogRow>, index: map<string, CatRow>): set<string>
    decreases |logs|
  {
    if |logs| == 0 then {}
    else
      var l := logs[|logs| - 1];
      Pillars(logs[..|logs| - 1], index) + (if l.actionId in index then {PillarKey(index[l.actionId])} else {})
  }

  /** Logs of actions missing from the catalog add nothing anywhere. */
  lemma UnmatchedContributesNothing(logs: seq<LogRow>, index: map<string, CatRow>, l: LogRow)
    requires l.actionId !in index
    ensures TotalDays(logs + [l], index) == TotalDays(logs, index)
    ensures TotalHours(logs + [l], index) == TotalHours(logs, index)
    ensures forall p :: PillarDays(logs + [l], index, p) == PillarDays(logs, index, p)
    ensures Pillars(logs + [l], index) == Pillars(logs, index)
  {
    assert (logs + [l])[..|logs|] == logs;
  }

  /** One `by_pillar` entry. */
  datatype PillarTotal = PillarTotal(pillar: string, days: real)

  function Keys(acc: seq<PillarTotal>): set<string> {
    set i | 0 <= i < |acc| :: acc[i].pillar
  }

  predicate DistinctKeys(acc: seq<PillarTotal>) {
    forall i, j :: 0 <= i < j < |acc| ==> acc[i].pillar != acc[j].pillar
  }

  /** The value stored under `p`, 0 when there is none. */
  function ValueOf(acc: seq<PillarTotal>, p: string): real
    decreases |acc|
  {
    if |acc| == 0 then 0.0 else if acc[0].pillar == p then acc[0].days else ValueOf(acc[1..], p)
  }

  function SumValues(acc: seq<PillarTotal>): real
    decreases |acc|
  {
    if |acc| == 0 then 0.0 else acc[0].days + SumValues(acc[1..])
  }

  lemma KeysCons(x: PillarTotal, rest: seq<PillarTotal>)
    ensures Keys([x] + rest) == {x.pillar} + Keys(rest)
  {
    var r := [x] + rest;
    assert r[0] == x;
    forall q | q in Keys(r) && q != x.pillar ensures q in Keys(rest) {
      var i :| 0 <= i < |r| && r[i].pillar == q;
      assert rest[i - 1] == r[i];
    }
    forall q | q in Keys(rest) ensures q in Keys(r) {
      var i :| 0 <= i < |rest| && rest[i].pillar == q;
      assert r[i + 1] == rest[i];
    }
  }

  lemma DistinctCons(x: PillarTotal, rest: seq<PillarTotal>)
    ensures DistinctKeys([x] + rest) <==> x.pillar !in Keys(rest) && DistinctKeys(rest)
  {
    var r := [x] + rest;
    assert r[0] == x;
    if x.pillar !in Keys(rest) && DistinctKeys(rest) {
      forall i, j | 0 <= i < j < |r| ensures r[i].pillar != r[j].pillar {
        assert r[j] == rest[j - 1];
        if i > 0 { assert r[i] == rest[i - 1]; }
      }
    }
    if DistinctKeys(r) {
      forall i | 0 <= i < |rest| ensures rest[i].pillar != x.pillar { assert r[i + 1] == rest[i]; }
      forall i, j | 0 <= i < j < |rest| ensures rest[i].pillar != rest[j].pillar {
        assert r[i + 1] == rest[i] && r[j + 1] == rest[j];
      }
    }
  }

  /** `byPillar[p] = (byPillar[p] || 0) + v`: an existing key is updated in
      place, a new key is appended. */
  function Bump(acc: seq<PillarTotal>, p: string, v: real): (r: seq<PillarTotal>)
    requires DistinctKeys(acc)
    ensures DistinctKeys(r)
    ensures Keys(r) == Keys(acc) + {p}
    ensures ValueOf(r, p) == ValueOf(acc, p) + v
    ensures forall q :: q != p ==> ValueOf(r, q) == ValueOf(acc, q)
    ensures SumValues(r) == SumValues(acc) + v
    decreases |acc|
  {
    if |acc| == 0 then
      var r := [PillarTotal(p, v)];
      assert r[0].pillar == p;
      r
    else
      assert acc == [acc[0]] + acc[1..];
      KeysCons(acc[0], acc[1..]);
      DistinctCons(acc[0], acc[1..]);
      if acc[0].pillar == p then
        var r := [PillarTotal(p, acc[0].days + v)] + acc[1..];
        KeysCons(r[0], acc[1..]);
        DistinctCons(r[0], acc[1..]);
        assert r[1..] == acc[1..];
        r
      else
        var rest := Bump(acc[1..], p, v);
        KeysCons(acc[0], rest);
        DistinctCons(acc[0], rest);
        var r := [acc[0]] + rest;
        assert r[1..] == rest;
        r
  }

  /** The totals and the pillar grouping, computed in one pass over the
      logs as the handler's loop does. */
  method Aggregate(logs: seq<LogRow>, index: map<string, CatRow>)
    returns (totalDays: real, totalHours: real, byPillar: seq<PillarTotal>)
    ensures totalDays == TotalDays(logs, index)
    ensures totalHours == TotalHours(logs, index)
    ensures DistinctKeys(byPillar)
    ensures Keys(byPillar) == Pillars(logs, index)
    ensures forall p :: ValueOf(byPillar, p) == PillarDays(logs, index, p)
    ensures SumValues(byPillar) == totalDays
  {
    totalDays, totalHours, byPillar := 0.0, 0.0, [];
    var i := 0;
    while i < |logs|
      invariant 0 <= i <= |logs|
      invariant totalDays == TotalDays(logs[..i], index)
      invariant totalHours == TotalHours(logs[..i], index)
      invariant DistinctKeys(byPillar)
      invariant Keys(byPillar) == Pillars(logs[..i], index)
      invariant forall p :: ValueOf(byPillar, p) == PillarDays(logs[..i], index, p)
      invariant SumValues(byPillar) == totalDays
    {
      var l := logs[i];
      ExtendByOne(logs, i, index);
      if l.actionId in index {
        var c := index[l.actionId];
        var q := Quantity(l);
        var d := c.lifeDays.GetOr(0.0);
        var h := c.lifeHours.GetOr(0.0);
        assert q * d == DaysOf(l, index) && q * h == HoursOf(l, index);
        totalDays := totalDays + q * d;
        totalHours := totalHours + q * h;
        byPillar := Bump(byPillar, PillarKey(c), q * d);
      }
      i := i + 1;
    }
    assert logs[..i] == logs;
  }

  /** Taking one more log adds exactly that log's contribution. */
  lemma ExtendByOne(logs: seq<LogRow>, i: nat, index: map<string, CatRow>)
    requires i < |logs|
    ensures var l := logs[i];
      && TotalDays(logs[..i + 1], index) == TotalDays(logs[..i], index) + DaysOf(l, index)
      && TotalHours(logs[..i + 1], index) == TotalHours(logs[..i], index) + HoursOf(l, index)
      && (forall p :: PillarDays(logs[..i + 1], index, p) == PillarDays(logs[..i], index, p) +
            (if l.actionId in index && PillarKey(index[l.actionId]) == p then DaysOf(l, index) else 0.0))
      && Pillars(logs[..i + 1], index) ==
           Pillars(logs[..i], index) + (if l.actionId in index then {PillarKey(index[l.actionId])} else {})
  {
    assert logs[..i + 1][..i] == logs[..i];
    assert logs[..i + 1][i] == logs[i];
  }

  /** One entry of `recent`. */
  datatype RecentLog = RecentLog(actionId: string, qty: Option<int>, createdAt: string, title: string, pillar: Option<string>)

  /** The first ten logs, in order, with the catalog title (falling back to
      the action id) and pillar. */
  function Recent(logs: seq<LogRow>, index: map<string, CatRow>): (r: seq<RecentLog>)
    ensures |r| == if |logs| < 10 then |logs| else 10
    ensures forall i :: 0 <= i < |r| ==>
      && r[i].actionId == logs[i].actionId && r[i].qty == logs[i].qty && r[i].createdAt == logs[i].createdAt
      // `catById.get(id)?.title || action_id` and `?.pillar || null`
      && (logs[i].actionId in index && index[logs[i].actionId].title != "" ==>
            r[i].title == index[logs[i].actionId].title)
      && (logs[i].actionId !in index || index[logs[i].actionId].title == "" ==> r[i].title == logs[i].actionId)
      && (logs[i].actionId in index && index[logs[i].actionId].pillar != "" ==>
            r[i].pillar == Some(index[logs[i].actionId].pillar))
      && (logs[i].actionId !in index || index[logs[i].actionId].pillar == "" ==> r[i].pillar.None?)
  {
    var n := if |logs| < 10 then |logs| else 10;
    seq(n, i requires 0 <= i < n =>
      var l := logs[i];
      var c := if l.actionId in index then Some(index[l.actionId]) else None;
      RecentLog(l.actionId, l.qty, l.createdAt,
        if c.Some? && c.value.title != "" then c.value.title else l.actionId,
        if c.Some? && c.value.pillar != "" then Some(c.value.pillar) else None))
  }

  datatype Summary = Summary(
    externalId: string, totalDays: real, totalHours: real, byPillar: seq<PillarTotal>, recent: seq<RecentLog>)

  /** The handler. `externalId` and `externalid` are the two accepted query
      spellings; `logs` are the user's logs, newest first. */
  method Progress(externalIdParam: Option<string>, externalidParam: Option<string>, logs: seq<LogRow>, cats: seq<CatRow>)
    returns (r: Reply<Summary>)
    ensures ((externalIdParam.None? || externalIdParam.value == "") &&
             (externalidParam.None? || externalidParam.value == "")) ==> r == Refused(400, "externalId requerido")
    // a given id is always answered; `externalId` wins over `externalid`
    ensures externalIdParam.Some? && externalIdParam.value != "" ==>
      r.Answered? && r.body.externalId == externalIdParam.value
    ensures (externalIdParam.None? || externalIdParam.value == "") && externalidParam.Some? && externalidParam.value != "" ==>
      r.Answered? && r.body.externalId == externalidParam.value
    ensures r.Answered? && |logs| == 0 ==>
      r.body.totalDays == 0.0 && r.body.totalHours == 0.0 && r.body.byPillar == [] && r.body.recent == []
    ensures r.Answered? ==>
      var index := Index(cats);
      && r.body.externalId != ""
      && r.body.totalDays == TotalDays(logs, index)
      && r.body.totalHours == TotalHours(logs, index)
      && SumValues(r.body.byPillar) == r.body.totalDays
      && DistinctKeys(r.body.byPillar)
      && Keys(r.body.byPillar) == Pillars(logs, index)
      && (forall p :: ValueOf(r.body.byPillar, p) == PillarDays(logs, index, p))
      && r.body.recent == Recent(logs, index)
  {
    var externalId :=
      if externalIdParam.Some? && externalIdParam.value != "" then externalIdParam.value
      else if externalidParam.Some? && externalidParam.value != "" then externalidParam.value
      else "";
    if externalId == "" {
      return Refused(400, "externalId requerido");
    }
    var index := Index(cats);
    if |logs| == 0 {
      return Answered(Summary(externalId, 0.0, 0.0, [], []));
    }
    var totalDays, totalHours, byPillar := Aggregate(logs, index);
    r := Answered(Summary(externalId, totalDays, totalHours, byPillar, Recent(logs, index)));
  }
}
