/**
  `GET /api/tips/list`: the limit clamp and the in-memory grouping of the
  level, tag and user targets under their tips.
 */
module TipsList {
  import opened Wrappers
  import opened JsValues

  /** `Math.min(100, Math.max(1, Number(limit || 50)))`. */
  function Limit(param: Option<string>): (r: Num)
    ensures param.None? || param.value == "" ==> r == Fin(50)
    ensures param.Some? && param.value != "" ==>
      (r.NaN? <==> ToNumber(Str(param.value)).NaN?)
    ensures r.Fin? ==> 1 <= r.n <= 100
    ensures param.Some? && param.value != "" && ToNumber(Str(param.value)).Fin? ==>
      var n := ToNumber(Str(param.value)).n;
      r.n == (if n < 1 then 1 else if n > 100 then 100 else n)
  {
    var requested := if param.Some? && param.value != "" then ToNumber(Str(param.value)) else Fin(50);
    JsMin(Fin(100), JsMax(Fin(1), requested))
  }

  /** The `tips` columns listed. */
  datatype TipRow = TipRow(
    id: string, title: string, body: string, isAi: bool, weight: int, isActive: bool,
    startAt: Option<string>, endAt: Option<string>)

  /** A target row: the tip it belongs to and its value. */
  datatype TargetRow<V> = TargetRow(tipId: string, value: V)

  /** The `reduce` building `{ [tip_id]: values }`: each row's value is
      pushed onto the list of its tip, in row order. */
  function Group<V>(rows: seq<TargetRow<V>>): (m: map<string, seq<V>>)
    ensures forall id :: id in m <==> exists i :: 0 <= i < |rows| && rows[i].tipId == id
    decreases |rows|
  {
    if |rows| == 0 then map[]
    else
      var init := rows[..|rows| - 1];
      var last := rows[|rows| - 1];
      var acc := Group(init);
      assert forall i :: 0 <= i < |init| ==> init[i] == rows[i];
      acc[last.tipId := (if last.tipId in acc then acc[last.tipId] else []) + [last.value]]
  }

  /** Reference: the values of the rows of tip `id`, in row order. */
  function ValuesOf<V>(rows: seq<TargetRow<V>>, id: string): seq<V>
    decreases |rows|
  {
    if |rows| == 0 then []
    else
      var last := rows[|rows| - 1];
      ValuesOf(rows[..|rows| - 1], id) + (if last.tipId == id then [last.value] else [])
  }

  /** `G[t.id] || []` is exactly the values of the rows of that tip, in the
      order the rows came: every row lands in its own tip's list and nowhere
      else. */
  lemma {:induction false} GroupSpec<V>(rows: seq<TargetRow<V>>, id: string)
    ensures (if id in Group(rows) then Group(rows)[id] else []) == ValuesOf(rows, id)
    decreases |rows|
  {
    if |rows| > 0 {
      GroupSpec(rows[..|rows| - 1], id);
    }
  }

  /** A user target, joined with the user's external id. */
  datatype UserTarget = UserTarget(userId: string, externalId: string)

  datatype ListedTip = ListedTip(tip: TipRow, levels: seq<int>, tags: seq<string>, users: seq<UserTarget>)

  function Lookup<V>(m: map<string, seq<V>>, id: string): seq<V> {
    if id in m then m[id] else []
  }

  /** The handler; `tips` is the store's answer for the clamped limit and
      the three target lists its answers for their ids (an error reads as
      no rows). */
  function ListTips(
    verb: string, tips: StoreResult<seq<TipRow>>,
    levelRows: seq<TargetRow<int>>, tagRows: seq<TargetRow<string>>, userRows: seq<TargetRow<UserTarget>>)
    : (r: Reply<seq<ListedTip>>)
    ensures verb != "GET" ==> r == Refused(405, "Method not allowed")
    ensures verb == "GET" && tips.StoreErr? ==> r == Refused(500, tips.message)
    ensures r.Answered? <==> verb == "GET" && tips.StoreOk?
    ensures r.Answered? ==> |r.body| == |tips.data|
    ensures r.Answered? ==> forall i :: 0 <= i < |r.body| ==>
      && r.body[i].tip == tips.data[i]
      && r.body[i].levels == ValuesOf(levelRows, tips.data[i].id)
      && r.body[i].tags == ValuesOf(tagRows, tips.data[i].id)
      && r.body[i].users == ValuesOf(userRows, tips.data[i].id)
  {
    if verb != "GET" then Refused(405, "Method not allowed")
    else if tips.StoreErr? then Refused(500, tips.message)
    else if |tips.data| == 0 then Answered([])
    else
      var l, g, u := Group(levelRows), Group(tagRows), Group(userRows);
      var ts := tips.data;
      var out := seq(|ts|, i requires 0 <= i < |ts| =>
        ListedTip(ts[i], Lookup(l, ts[i].id), Lookup(g, ts[i].id), Lookup(u, ts[i].id)));
      assert forall i :: 0 <= i < |ts| ==>
        && out[i].levels == ValuesOf(levelRows, ts[i].id)
        && out[i].tags == ValuesOf(tagRows, ts[i].id)
        && out[i].users == ValuesOf(userRows, ts[i].id) by {
        forall i | 0 <= i < |ts| ensures
          && out[i].levels == ValuesOf(levelRows, ts[i].id)
          && out[i].tags == ValuesOf(tagRows, ts[i].id)
          && out[i].users == ValuesOf(userRows, ts[i].id)
        {
          GroupSpec(levelRows, ts[i].id);
          GroupSpec(tagRows, ts[i].id);
          GroupSpec(userRows, ts[i].id);
        }
      }
      Answered(out)
  }
}
