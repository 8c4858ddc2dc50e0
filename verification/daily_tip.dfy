/**
  `GET /api/ai/daily-tip`: the user's tags, the candidate tips merged in
  priority order, the tips already sent today set aside, a weighted draw,
  and the choice between the tip's own text and the generated one.
  Every store read is a parameter; the random draw is the parameter `u`
  (standing for `Math.random()`), times are milliseconds.
 */
module DailyTip {
  import opened Wrappers
  import opened Text
  import opened JsValues

  /** A tip row; `startAt`/`endAt` are absent when not set. */
  datatype Tip = Tip(
    id: string,
    title: string,
    body: string,
    isAi: bool,
    weight: Option<int>,
    startAt: Option<int>,
    endAt: Option<int>,
    isActive: bool)

  // ---------------------------------------------------------------------
  // pickWeighted

  /** `it.weight ?? 1`. */
  function W(t: Tip): int {
    t.weight.GetOr(1)
  }

  /** The summed weight of the first `n` items. */
  function Prefix(items: seq<Tip>, n: nat): int
    requires n <= |items|
  {
    if n == 0 then 0 else Prefix(items, n - 1) + W(items[n - 1])
  }

  function Total(items: seq<Tip>): int {
    Prefix(items, |items|)
  }

  /** The loop of `pickWeighted`: subtract each weight from the remaining
      draw `r` and stop at the first item that brings it to 0 or below;
      the first item when none does. */
  function Scan(items: seq<Tip>, r: real, k: nat): (i: nat)
    requires 0 < |items| && k <= |items|
    ensures i < |items|
    decreases |items| - k
  {
    if k == |items| then 0
    else
      var rest := r - W(items[k]) as real;
      if rest <= 0.0 then k else Scan(items, rest, k + 1)
  }

  /** The draw `r0` falls at or before the end of item `j`'s interval. */
  predicate Reached(items: seq<Tip>, r0: real, j: nat)
    requires j < |items|
  {
    r0 <= Prefix(items, j + 1) as real
  }

  /** Item `i` is the first whose cumulative weight reaches `r0`, or item 0
      when no cumulative weight does. */
  predicate FirstReached(items: seq<Tip>, r0: real, i: nat) {
    i < |items| &&
    ((Reached(items, r0, i) && forall j :: 0 <= j < i ==> !Reached(items, r0, j)) ||
     (i == 0 && forall j :: 0 <= j < |items| ==> !Reached(items, r0, j)))
  }

  /** The subtracting loop picks the first item whose cumulative weight
      reaches the draw. */
  lemma {:induction false} ScanFindsFirstReached(items: seq<Tip>, r0: real, k: nat)
    requires 0 < |items| && k <= |items|
    requires forall j :: 0 <= j < k ==> !Reached(items, r0, j)
    ensures FirstReached(items, r0, Scan(items, r0 - Prefix(items, k) as real, k))
    decreases |items| - k
  {
    if k < |items| {
      var rest := r0 - Prefix(items, k) as real - W(items[k]) as real;
      assert rest == r0 - Prefix(items, k + 1) as real;
      if rest > 0.0 {
        ScanFindsFirstReached(items, r0, k + 1);
      }
    }
  }

  /** `Math.random() * total`, with the draw `u` in place of `Math.random()`. */
  function Scaled(items: seq<Tip>, u: real): real {
    u * (Total(items) as real)
  }

  /** `pickWeighted(items)` with `Math.random()` replaced by `u`. */
  function PickIndex(items: seq<Tip>, u: real): (i: nat)
    requires 0 < |items|
    ensures FirstReached(items, Scaled(items, u), i)
  {
    ScanFindsFirstReached(items, Scaled(items, u), 0);
    Scan(items, Scaled(items, u), 0)
  }

  function PickWeighted(items: seq<Tip>, u: real): (r: Option<Tip>)
    ensures r.None? <==> |items| == 0
    ensures r.Some? ==> r.value in items
  {
    if |items| == 0 then None else Some(items[PickIndex(items, u)])
  }

  /** With positive weights and a draw in [0, 1), the chosen item is the one
      whose interval (Prefix(i), Prefix(i + 1)] of [0, Total) holds the
      scaled draw: the fallback to the first item never applies. */
  lemma PickInInterval(items: seq<Tip>, u: real)
    requires 0 < |items|
    requires forall j :: 0 <= j < |items| ==> W(items[j]) > 0
    requires 0.0 <= u < 1.0
    ensures var r0 := Scaled(items, u);
      var i := PickIndex(items, u);
      Reached(items, r0, i) && (i == 0 || Prefix(items, i) as real < r0)
  {
    var r0 := Scaled(items, u);
    var i := PickIndex(items, u);
    PrefixPositive(items, |items|);
    ScaledDrawBelowTotal(items, u);
    var last := |items| - 1;
    assert Prefix(items, last + 1) == Total(items);
    assert Reached(items, r0, last);
    if i > 0 {
      assert !Reached(items, r0, i - 1);
    }
  }

  /** A draw in [0, 1) scales to below a positive total. */
  lemma ScaledDrawBelowTotal(items: seq<Tip>, u: real)
    requires 0.0 <= u < 1.0 && Total(items) > 0
    ensures Scaled(items, u) < Total(items) as real
  {
    var total := Total(items) as real;
    assert total - u * total == (1.0 - u) * total;
  }

  lemma {:induction false} PrefixPositive(items: seq<Tip>, n: nat)
    requires n <= |items|
    requires forall j :: 0 <= j < |items| ==> W(items[j]) > 0
    ensures n > 0 ==> Prefix(items, n) > 0
  {
    if n > 1 {
      PrefixPositive(items, n - 1);
    }
  }

  /** The items with every missing weight written out as 1. */
  function WithDefaultWeights(items: seq<Tip>): (r: seq<Tip>)
    ensures |r| == |items|
    ensures forall j :: 0 <= j < |r| ==> r[j].weight.Some? && r[j].(weight := items[j].weight) == items[j]
  {
    seq(|items|, j requires 0 <= j < |items| => items[j].(weight := Some(W(items[j]))))
  }

  /** At most one position satisfies `FirstReached`. */
  lemma FirstReachedUnique(items: seq<Tip>, r0: real, i: nat, k: nat)
    requires FirstReached(items, r0, i) && FirstReached(items, r0, k)
    ensures i == k
  {
  }

  lemma {:induction false} PrefixSameWeights(a: seq<Tip>, b: seq<Tip>, n: nat)
    requires |a| == |b| && n <= |a|
    requires forall j :: 0 <= j < |a| ==> W(a[j]) == W(b[j])
    ensures Prefix(a, n) == Prefix(b, n)
  {
    if n > 0 {
      PrefixSameWeights(a, b, n - 1);
    }
  }

  /** A missing weight counts exactly as an explicit weight of 1: the draw
      picks the same position either way. */
  lemma MissingWeightCountsAsOne(items: seq<Tip>, u: real)
    requires 0 < |items|
    ensures Total(WithDefaultWeights(items)) == Total(items)
    ensures PickIndex(WithDefaultWeights(items), u) == PickIndex(items, u)
  {
    var d := WithDefaultWeights(items);
    assert forall j :: 0 <= j < |items| ==> W(d[j]) == W(items[j]);
    forall n | 0 <= n <= |items| ensures Prefix(items, n) == Prefix(d, n) {
      PrefixSameWeights(items, d, n);
    }
    var r0 := Scaled(items, u);
    assert Total(d) == Total(items) by {
      assert Prefix(items, |items|) == Prefix(d, |d|);
    }
    assert forall j :: 0 <= j < |items| ==> (Reached(items, r0, j) <==> Reached(d, r0, j));
    assert Scaled(d, u) == r0;
    FirstReachedTransfer(d, items, r0, PickIndex(d, u));
    FirstReachedUnique(items, r0, PickIndex(d, u), PickIndex(items, u));
  }

  /** Two lists reached at the same positions by a draw have the same first
      reached position. */
  lemma FirstReachedTransfer(a: seq<Tip>, b: seq<Tip>, r0: real, i: nat)
    requires |a| == |b|
    requires forall j :: 0 <= j < |a| ==> (Reached(a, r0, j) <==> Reached(b, r0, j))
    requires FirstReached(a, r0, i)
    ensures FirstReached(b, r0, i)
  {
  }

  // ---------------------------------------------------------------------
  // pushUnique: priority merge with the active-window filter

  /** A tip `pushUnique` lets in: it has an id, is active, and `now` lies
      within its window (either end may be open). */
  predicate Eligible(t: Tip, now: int) {
    && t.id != ""
    && t.isActive
    && (t.startAt.None? || t.startAt.value <= now)
    && (t.endAt.None? || t.endAt.value >= now)
  }

  function Ids(s: seq<Tip>): set<string> {
    set i | 0 <= i < |s| :: s[i].id
  }

  predicate DistinctIds(s: seq<Tip>) {
    forall i, j :: 0 <= i < j < |s| ==> s[i].id != s[j].id
  }

  lemma IdsAppend(s: seq<Tip>, x: Tip)
    ensures Ids(s + [x]) == Ids(s) + {x.id}
  {
    var r := s + [x];
    assert r[|s|] == x;
    forall id | id in Ids(r) ensures id in Ids(s) + {x.id} {
      var i :| 0 <= i < |r| && r[i].id == id;
      if i < |s| { assert s[i] == r[i]; }
    }
    forall id | id in Ids(s) ensures id in Ids(r) {
      var i :| 0 <= i < |s| && s[i].id == id;
      assert r[i] == s[i];
    }
  }

  /** The eligible tips, in order. */
  function Filter(s: seq<Tip>, now: int): (r: seq<Tip>)
    ensures forall t :: t in r ==> t in s && Eligible(t, now)
    ensures forall t :: t in s && Eligible(t, now) ==> t in r
    decreases |s|
  {
    if |s| == 0 then []
    else
      var init := s[..|s| - 1];
      var last := s[|s| - 1];
      assert s == init + [last];
      Filter(init, now) + (if Eligible(last, now) then [last] else [])
  }

  lemma FilterAppend(s: seq<Tip>, t: Tip, now: int)
    ensures Filter(s + [t], now) == Filter(s, now) + (if Eligible(t, now) then [t] else [])
  {
    assert (s + [t])[..|s|] == s;
  }

  /** Reference de-duplication: each id kept at its first occurrence. */
  function Dedupe(s: seq<Tip>): (r: seq<Tip>)
    ensures DistinctIds(r)
    ensures Ids(r) == Ids(s)
    ensures forall t :: t in r ==> t in s
    decreases |s|
  {
    if |s| == 0 then []
    else
      var init := s[..|s| - 1];
      var last := s[|s| - 1];
      assert s == init + [last];
      IdsAppend(init, last);
      var d := Dedupe(init);
      if last.id in Ids(init) then d
      else
        IdsAppend(d, last);
        assert forall i :: 0 <= i < |d| ==> d[i].id in Ids(d);
        d + [last]
  }

  lemma DedupeAppend(s: seq<Tip>, t: Tip)
    ensures Dedupe(s + [t]) == if t.id in Ids(s) then Dedupe(s) else Dedupe(s) + [t]
  {
    assert (s + [t])[..|s|] == s;
  }

  /** The first tip of `s` with this id. */
  function First(s: seq<Tip>, id: string): (r: Option<Tip>)
    ensures r.Some? ==> r.value in s && r.value.id == id
    ensures r.None? <==> id !in Ids(s)
    decreases |s|
  {
    if |s| == 0 then None
    else
      IdsCons(s);
      if s[0].id == id then Some(s[0]) else First(s[1..], id)
  }

  lemma IdsCons(s: seq<Tip>)
    requires |s| > 0
    ensures Ids(s) == {s[0].id} + Ids(s[1..])
  {
    forall id | id in Ids(s) && id != s[0].id ensures id in Ids(s[1..]) {
      var i :| 0 <= i < |s| && s[i].id == id;
      assert s[1..][i - 1] == s[i];
    }
    forall id | id in Ids(s[1..]) ensures id in Ids(s) {
      var i :| 0 <= i < |s[1..]| && s[1..][i].id == id;
      assert s[i + 1] == s[1..][i];
    }
  }

  lemma {:induction false} FirstAppend(s: seq<Tip>, x: Tip, id: string)
    ensures First(s + [x], id) == if First(s, id).Some? then First(s, id) else if x.id == id then Some(x) else None
    decreases |s|
  {
    if |s| > 0 {
      assert (s + [x])[1..] == s[1..] + [x];
      FirstAppend(s[1..], x, id);
    }
  }

  /** Every tip kept by the de-duplication is the first of its id. */
  lemma {:induction false} DedupeKeepsFirst(s: seq<Tip>)
    ensures forall t :: t in Dedupe(s) ==> First(s, t.id) == Some(t)
    decreases |s|
  {
    if |s| > 0 {
      var init := s[..|s| - 1];
      var last := s[|s| - 1];
      assert s == init + [last];
      DedupeKeepsFirst(init);
      DedupeAppend(init, last);
      forall t | t in Dedupe(s) ensures First(s, t.id) == Some(t) {
        FirstAppend(init, last, t.id);
        if t in Dedupe(init) {
          assert First(init, t.id) == Some(t);
        } else {
          assert t == last && last.id !in Ids(init);
        }
      }
    }
  }

  /** One step of the merge, stated on the reference: a new tip is appended
      exactly when it is eligible and its id is new. */
  lemma PushStep(before: seq<Tip>, t: Tip, now: int)
    ensures Dedupe(Filter(before + [t], now)) ==
      if Eligible(t, now) && t.id !in Ids(Dedupe(Filter(before, now)))
      then Dedupe(Filter(before, now)) + [t]
      else Dedupe(Filter(before, now))
  {
    FilterAppend(before, t, now);
    var f := Filter(before, now);
    assert Ids(Dedupe(f)) == Ids(f);
    if Eligible(t, now) {
      DedupeAppend(f, t);
    } else {
      assert f + [] == f;
    }
  }

  /** The merge tip by tip: a tip is appended when it is eligible and its id
      is not yet in the result. */
  function Merge(s: seq<Tip>, now: int): seq<Tip>
    decreases |s|
  {
    if |s| == 0 then []
    else
      var m := Merge(s[..|s| - 1], now);
      var t := s[|s| - 1];
      if Eligible(t, now) && t.id !in Ids(m) then m + [t] else m
  }

  /** The tip-by-tip merge is the de-duplication of the eligible tips. */
  lemma {:induction false} MergeIsDedupeFilter(s: seq<Tip>, now: int)
    ensures Merge(s, now) == Dedupe(Filter(s, now))
    decreases |s|
  {
    if |s| > 0 {
      var init := s[..|s| - 1];
      assert s == init + [s[|s| - 1]];
      MergeIsDedupeFilter(init, now);
      PushStep(init, s[|s| - 1], now);
    }
  }

  lemma MergeSnoc(s: seq<Tip>, t: Tip, now: int)
    ensures Merge(s + [t], now) ==
      if Eligible(t, now) && t.id !in Ids(Merge(s, now)) then Merge(s, now) + [t] else Merge(s, now)
  {
    assert (s + [t])[..|s|] == s;
  }

  /** One pass of the `pushUnique` loop: skip a tip without id or already
      seen, or outside its dates, or inactive; otherwise append it. */
  method PushOne(next: seq<Tip>, seen: set<string>, t: Tip, now: int, ghost done: seq<Tip>)
    returns (next': seq<Tip>, seen': set<string>)
    requires next == Merge(done, now) && seen == Ids(next)
    ensures next' == Merge(done + [t], now) && seen' == Ids(next')
  {
    MergeSnoc(done, t, now);
    next', seen' := next, seen;
    if t.id == "" || t.id in seen {
      return;
    }
    var startOk := t.startAt.None? || t.startAt.value <= now;
    var endOk := t.endAt.None? || t.endAt.value >= now;
    if !startOk || !endOk || !t.isActive {
      return;
    }
    IdsAppend(next, t);
    next', seen' := next + [t], seen + {t.id};
  }

  /** `pushUnique(arr)`: appends, in order, each eligible tip of `arr` whose
      id has not been seen. `before` is everything pushed through earlier
      calls, so `prioritized` and `seen` are the state they left. */
  method PushUnique(prioritized: seq<Tip>, seen: set<string>, arr: seq<Tip>, now: int, ghost before: seq<Tip>)
    returns (next: seq<Tip>, nextSeen: set<string>)
    requires prioritized == Dedupe(Filter(before, now))
    requires seen == Ids(prioritized)
    ensures next == Dedupe(Filter(before + arr, now))
    ensures nextSeen == Ids(next)
  {
    next, nextSeen := prioritized, seen;
    assert next == Merge(before + arr[..0], now) by {
      assert before + arr[..0] == before;
      MergeIsDedupeFilter(before, now);
    }
    for i := 0 to |arr|
      invariant next == Merge(before + arr[..i], now)
      invariant nextSeen == Ids(next)
    {
      assert before + arr[..i + 1] == (before + arr[..i]) + [arr[i]];
      next, nextSeen := PushOne(next, nextSeen, arr[i], now, before + arr[..i]);
    }
    assert next == Dedupe(Filter(before + arr, now)) by {
      assert arr[..|arr|] == arr;
      MergeIsDedupeFilter(before + arr, now);
    }
  }

  /** The four `pushUnique` calls: user-targeted, level-targeted,
      tag-targeted, then global tips. */
  method Prioritize(byUser: seq<Tip>, byLevel: seq<Tip>, byTag: seq<Tip>, globals: seq<Tip>, now: int)
    returns (prioritized: seq<Tip>)
    ensures prioritized == Dedupe(Filter(byUser + byLevel + byTag + globals, now))
    ensures DistinctIds(prioritized)
    ensures forall t :: t in prioritized ==> Eligible(t, now)
    ensures forall t :: t in byUser + byLevel + byTag + globals && Eligible(t, now) ==> t.id in Ids(prioritized)
    ensures forall t :: t in prioritized ==> First(Filter(byUser + byLevel + byTag + globals, now), t.id) == Some(t)
  {
    var seen: set<string> := {};
    prioritized := [];
    assert Dedupe(Filter([], now)) == [];
    assert Ids([]) == {};
    prioritized, seen := PushUnique(prioritized, seen, byUser, now, []);
    assert [] + byUser == byUser;
    prioritized, seen := PushUnique(prioritized, seen, byLevel, now, byUser);
    prioritized, seen := PushUnique(prioritized, seen, byTag, now, byUser + byLevel);
    prioritized, seen := PushUnique(prioritized, seen, globals, now, byUser + byLevel + byTag);
    var all := byUser + byLevel + byTag + globals;
    DedupeKeepsFirst(Filter(all, now));
    forall t | t in all && Eligible(t, now) ensures t.id in Ids(prioritized) {
      var k :| 0 <= k < |Filter(all, now)| && Filter(all, now)[k] == t;
    }
  }

  /** A tip the user-targeted list offers is never displaced by a lower
      priority tip with the same id. */
  lemma UserTargetedWins(byUser: seq<Tip>, byLevel: seq<Tip>, byTag: seq<Tip>, globals: seq<Tip>, now: int, t: Tip)
    requires t in byUser && Eligible(t, now)
    requires forall x :: x in byUser && x.id == t.id ==> x == t
    ensures t in Dedupe(Filter(byUser + byLevel + byTag + globals, now))
  {
    var all := byUser + byLevel + byTag + globals;
    var f := Filter(all, now);
    assert all == byUser + (byLevel + byTag + globals);
    FilterSplit(byUser, byLevel + byTag + globals, now);
    FirstPrefix(Filter(byUser, now), Filter(byLevel + byTag + globals, now), t.id);
    var k :| 0 <= k < |Filter(byUser, now)| && Filter(byUser, now)[k] == t;
    assert t.id in Ids(Filter(byUser, now));
    var fst := First(Filter(byUser, now), t.id);
    assert fst.value == t;
    DedupeHasFirst(f, t.id);
  }

  lemma {:induction false} FilterSplit(a: seq<Tip>, b: seq<Tip>, now: int)
    ensures Filter(a + b, now) == Filter(a, now) + Filter(b, now)
    decreases |b|
  {
    if |b| > 0 {
      var init := b[..|b| - 1];
      var last := b[|b| - 1];
      assert b == init + [last];
      assert a + b == (a + init) + [last];
      FilterAppend(a + init, last, now);
      FilterAppend(init, last, now);
      FilterSplit(a, init, now);
    } else {
      assert a + b == a;
    }
  }

  lemma {:induction false} FirstPrefix(a: seq<Tip>, b: seq<Tip>, id: string)
    requires id in Ids(a)
    ensures First(a + b, id) == First(a, id)
    decreases |a|
  {
    IdsCons(a);
    if a[0].id != id {
      assert (a + b)[1..] == a[1..] + b;
      FirstPrefix(a[1..], b, id);
    }
  }

  /** The first tip of each id survives the de-duplication. */
  lemma {:induction false} DedupeHasFirst(s: seq<Tip>, id: string)
    requires id in Ids(s)
    ensures First(s, id).value in Dedupe(s)
    decreases |s|
  {
    var init := s[..|s| - 1];
    var last := s[|s| - 1];
    assert s == init + [last];
    FirstAppend(init, last, id);
    DedupeAppend(init, last);
    IdsAppend(init, last);
    if id in Ids(init) {
      DedupeHasFirst(init, id);
    }
  }

  // ---------------------------------------------------------------------
  // sent-today filter and the final text

  /** The tips not sent today, or all of `prioritized` when every one was. */
  function Pool(prioritized: seq<Tip>, sentToday: set<string>): (pool: seq<Tip>)
    ensures |pool| == 0 <==> |prioritized| == 0
    ensures forall t :: t in pool ==> t in prioritized
    ensures (exists t :: t in prioritized && t.id !in sentToday) ==>
      forall t :: t in pool ==> t.id !in sentToday
    ensures (forall t :: t in prioritized ==> t.id in sentToday) ==> pool == prioritized
    ensures forall t :: t in prioritized && t.id !in sentToday ==> t in pool
  {
    var candidates := NotSent(prioritized, sentToday);
    if |candidates| > 0 then
      assert candidates[0] in candidates;
      candidates
    else prioritized
  }

  function NotSent(s: seq<Tip>, sentToday: set<string>): (r: seq<Tip>)
    ensures forall t :: t in r <==> t in s && t.id !in sentToday
  {
    if |s| == 0 then []
    else
      assert s == [s[0]] + s[1..];
      (if s[0].id in sentToday then [] else [s[0]]) + NotSent(s[1..], sentToday)
  }

  /** The text sent back: the generated text when the tip asks for it and the
      generator returned more than 20 characters, otherwise the tip's body. */
  function FinalText(chosen: Tip, generated: Option<string>): (text: string)
    ensures text == chosen.body || (generated.Some? && text == generated.value)
    ensures chosen.isAi && generated.Some? && |generated.value| > 20 ==> text == generated.value
    ensures text != chosen.body ==> chosen.isAi && generated == Some(text) && |text| > 20
  {
    if chosen.isAi && generated.Some? && |generated.value| > 20 then generated.value else chosen.body
  }

  /** A tip not asking for generation always shows its own body, and a
      generated text of 20 characters or fewer is never shown. */
  lemma FinalTextNeedsAiAndLength(chosen: Tip, generated: Option<string>)
    ensures !chosen.isAi ==> FinalText(chosen, generated) == chosen.body
    ensures generated.Some? && |generated.value| <= 20 && generated.value != chosen.body ==>
      FinalText(chosen, generated) != generated.value
  {
  }

  /** What `generateWithGemini` comes back with: a text or `null`, or the
      rejection of its `fetch`, which nothing inside it catches. */
  datatype Generation = Generated(text: Option<string>) | GenerationThrew(message: string)

  /** The generated text the final-text rule sees: none when the call threw. */
  function TextOf(g: Generation): Option<string> {
    if g.Generated? then g.text else None
  }

  const FallbackText := "Sigue con tu plan hoy: hidrátate y camina 10 minutos tranquilos."

  // ---------------------------------------------------------------------
  // user tags

  /** The `LEVEL_NAME` table: entry `k` names level `k + 1`. */
  const LevelNames: seq<string> := ["inicio", "bronce", "plata", "oro", "platino", "diamante"]

  /** `LEVEL_NAME[n] || String(n || '')`: the table's name for levels 1 to 6,
      nothing for level 0 and the decimal text for any other level. */
  function LevelName(n: int): (name: string)
    ensures 1 <= n <= |LevelNames| ==> name == LevelNames[n - 1]
    ensures n == 0 ==> name == ""
    ensures n != 0 && !(1 <= n <= |LevelNames|) ==> name == IntToString(n) && ParseInt(name) == Fin(n)
  {
    IntRoundTrip(n);
    if n == 1 then "inicio"
    else if n == 2 then "bronce"
    else if n == 3 then "plata"
    else if n == 4 then "oro"
    else if n == 5 then "platino"
    else if n == 6 then "diamante"
    else if n == 0 then ""
    else IntToString(n)
  }

  /** The rendering of an integer starts with a digit or a minus sign. */
  lemma IntStringLead(n: int)
    ensures IsDigit(IntToString(n)[0]) || IntToString(n)[0] == '-'
  {
    if n >= 0 {
      assert IsDigit(NatToString(n)[0]);
    }
  }

  /** Different levels never share a name, so the `nivel:` tag identifies
      the level. */
  lemma LevelNameInjective(a: int, b: int)
    requires LevelName(a) == LevelName(b)
    ensures a == b
  {
    LevelNameLead(a);
    LevelNameLead(b);
    if 1 <= a <= |LevelNames| && 1 <= b <= |LevelNames| {
      LevelNamesDistinct(a - 1, b - 1);
    } else if a != 0 && b != 0 && !(1 <= a <= |LevelNames|) && !(1 <= b <= |LevelNames|) {
      assert Fin(a) == ParseInt(LevelName(a)) == ParseInt(LevelName(b)) == Fin(b);
    }
  }

  /** Only level 0 has an empty name, and a name starts with a lower-case
      letter exactly when it comes from the table. */
  lemma LevelNameLead(n: int)
    ensures n == 0 <==> LevelName(n) == ""
    ensures n != 0 ==> ('a' <= LevelName(n)[0] <= 'z' <==> 1 <= n <= |LevelNames|)
  {
    if 1 <= n <= |LevelNames| {
      LevelNamesLead(n - 1);
    } else if n != 0 {
      IntStringLead(n);
    }
  }

  /** Every name in the table starts with a lower-case letter. */
  lemma LevelNamesLead(k: int)
    requires 0 <= k < |LevelNames|
    ensures |LevelNames[k]| > 0 && 'a' <= LevelNames[k][0] <= 'z'
  {
  }

  /** The table's names are pairwise different. */
  lemma LevelNamesDistinct(j: int, k: int)
    requires 0 <= j < |LevelNames| && 0 <= k < |LevelNames|
    requires LevelNames[j] == LevelNames[k]
    ensures j == k
  {
    assert |LevelNames[j]| == |LevelNames[k]|;
    assert LevelNames[j][0] == LevelNames[k][0];
  }

  /** `Set.add` on an insertion-ordered set. */
  function AddUnique(tags: seq<string>, t: string): (r: seq<string>)
    ensures t in tags ==> r == tags
    ensures t !in tags ==> r == tags + [t]
  {
    if t in tags then tags else tags + [t]
  }

  predicate Distinct(s: seq<string>) {
    forall i, j :: 0 <= i < j < |s| ==> s[i] != s[j]
  }

  /** The lower-cased non-empty categories, as a set. */
  function Lowered(categories: seq<string>): set<string> {
    set c | c in categories && c != "" :: ToLower(c)
  }

  lemma LoweredCons(categories: seq<string>)
    requires |categories| > 0
    ensures Lowered(categories) ==
      (if categories[0] != "" then {ToLower(categories[0])} else {}) + Lowered(categories[1..])
  {
    assert categories == [categories[0]] + categories[1..];
  }

  /** The lower-cased non-empty categories, added in order. */
  function AddCategories(tags: seq<string>, categories: seq<string>): (r: seq<string>)
    requires Distinct(tags)
    ensures Distinct(r)
    ensures |tags| <= |r| && r[..|tags|] == tags
    ensures forall x :: x in r <==> x in tags || x in Lowered(categories)
    decreases |categories|
  {
    if |categories| == 0 then tags
    else
      var c := categories[0];
      var next := if c != "" then AddUnique(tags, ToLower(c)) else tags;
      assert next[..|tags|] == tags;
      LoweredCons(categories);
      var r := AddCategories(next, categories[1..]);
      assert r[..|tags|] == r[..|next|][..|tags|];
      r
  }

  /** The user's tags: `nivel:<name>` first for a non-zero level, then the
      lower-cased content categories without repeats. */
  function UserTags(level: Option<int>, categories: seq<string>): (tags: seq<string>)
    ensures Distinct(tags)
    ensures var n := level.GetOr(0);
      n != 0 ==> |tags| > 0 && tags[0] == "nivel:" + LevelName(n)
    ensures level.GetOr(0) == 0 ==> forall x :: x in tags <==> x in Lowered(categories)
    ensures level.GetOr(0) != 0 ==>
      forall x :: x in tags <==> x == "nivel:" + LevelName(level.GetOr(0)) || x in Lowered(categories)
    ensures forall c :: c in categories && c != "" ==> ToLower(c) in tags
    ensures forall x :: x in tags ==> x == "nivel:" + LevelName(level.GetOr(0)) || NoUpper(x)
  {
    var n := level.GetOr(0);
    var start := if n != 0 then ["nivel:" + LevelName(n)] else [];
    var r := AddCategories(start, categories);
    forall x | x in r && x != "nivel:" + LevelName(n) ensures NoUpper(x) {
      assert x in Lowered(categories);
      var c :| c in categories && c != "" && x == ToLower(c);
      ToLowerSpec(c);
    }
    r
  }

  // ---------------------------------------------------------------------
  // the handler

  /** The user row read by external id. */
  datatype TipUser = TipUser(id: string, externalId: string, level: Option<int>)

  /** The outcome of recording the tip in the history. */
  datatype HistoryInsert = HistoryRecorded | DuplicateToday | HistoryFailed(message: string)

  datatype TipAnswer =
    | NoCandidates(text: string)
    | ChosenTip(text: string, tipId: string, title: string, level: int, levelName: string, tags: seq<string>)

  /** The merged list is empty exactly when no tip is eligible, and it keeps
      an unsent tip when the candidates offer an eligible one. */
  lemma MergedCandidates(all: seq<Tip>, now: int, sentToday: set<string>)
    ensures var p := Dedupe(Filter(all, now));
      && (|p| == 0 <==> forall t :: t in all ==> !Eligible(t, now))
      && ((exists t :: t in all && Eligible(t, now) && t.id !in sentToday) ==>
            exists t :: t in p && t.id !in sentToday)
  {
    var f := Filter(all, now);
    var p := Dedupe(f);
    forall t | t in all && Eligible(t, now) ensures t.id in Ids(p) {
      var k :| 0 <= k < |f| && f[k] == t;
    }
    if |p| > 0 {
      assert p[0] in p;
    }
    if exists t :: t in all && Eligible(t, now) && t.id !in sentToday {
      var t :| t in all && Eligible(t, now) && t.id !in sentToday;
      var i :| 0 <= i < |p| && p[i].id == t.id;
      assert p[i] in p;
    }
  }

  /** The tip the handler settles on for the merged candidate list `all`:
      the weighted draw over the eligible, de-duplicated tips not sent today
      (or over all of them when every one was). */
  function Chosen(all: seq<Tip>, now: int, sentToday: set<string>, u: real): (c: Option<Tip>)
    ensures c.None? <==> forall t :: t in all ==> !Eligible(t, now)
    ensures c.Some? ==> c.value in all && Eligible(c.value, now)
    ensures c.Some? && (exists t :: t in all && Eligible(t, now) && t.id !in sentToday) ==>
      c.value.id !in sentToday
  {
    var p := Dedupe(Filter(all, now));
    MergedCandidates(all, now, sentToday);
    PickWeighted(Pool(p, sentToday), u)
  }

  /** The handler. `categories` are the categories of the content the user
      achieved most recently; the four tip lists are the store's answers for
      the user, their level, their tags and untargeted tips. */
  method DailyTipFor(
    externalId: Option<string>, user: Option<TipUser>, categories: seq<string>,
    byUser: seq<Tip>, byLevel: seq<Tip>, byTag: seq<Tip>, globals: seq<Tip>,
    now: int, sentToday: set<string>, u: real, history: HistoryInsert, generation: Generation)
    returns (r: Reply<TipAnswer>, recorded: Option<string>)
    ensures externalId.None? || externalId.value == "" ==> r == Refused(400, "Missing externalId")
    // the `tip_history` row, by tip id, is written once a tip is drawn
    ensures (externalId.None? || externalId.value == "" || user.None?) ==> recorded.None?
    ensures externalId.Some? && externalId.value != "" && user.Some? ==>
      var c := Chosen(byUser + byLevel + byTag + globals, now, sentToday, u);
      recorded == if c.Some? then Some(c.value.id) else None
    ensures externalId.Some? && externalId.value != "" && user.None? ==> r == Refused(404, "User not found")
    // past the checks: the fallback exactly when nothing is eligible, the
    // history failure, or the drawn tip with its final text
    ensures externalId.Some? && externalId.value != "" && user.Some? ==>
      var c := Chosen(byUser + byLevel + byTag + globals, now, sentToday, u);
      var level := user.value.level.GetOr(0);
      && (c.None? ==> r == Answered(NoCandidates(FallbackText)))
      && (c.Some? && history.HistoryFailed? ==> r == Refused(500, history.message))
      // generation runs after the history insert, only for a tip asking for it
      && (c.Some? && !history.HistoryFailed? && c.value.isAi && generation.GenerationThrew? ==>
            r == Refused(500, generation.message))
      && (c.Some? && !history.HistoryFailed? && !(c.value.isAi && generation.GenerationThrew?) ==>
            r == Answered(ChosenTip(FinalText(c.value, TextOf(generation)), c.value.id, c.value.title,
                                    level, LevelName(level), UserTags(user.value.level, categories))))
    ensures externalId.Some? && externalId.value != "" && user.Some? &&
            (forall t :: t in byUser + byLevel + byTag + globals ==> !Eligible(t, now)) ==>
      r == Answered(NoCandidates(FallbackText))
    ensures r.Answered? && r.body.NoCandidates? ==>
      r.body.text == FallbackText &&
      forall t :: t in byUser + byLevel + byTag + globals ==> !Eligible(t, now)
    ensures r.Answered? && r.body.ChosenTip? ==>
      var all := byUser + byLevel + byTag + globals;
      exists t :: t in all && Eligible(t, now) && t.id == r.body.tipId && t.title == r.body.title &&
        r.body.text == FinalText(t, TextOf(generation))
    ensures r.Answered? && r.body.ChosenTip? ==>
      r.body.level == user.value.level.GetOr(0) && r.body.tags == UserTags(user.value.level, categories)
    ensures r.Refused? ==>
      r.status == 400 || r.status == 404 || (r.status == 500 && (history.HistoryFailed? || generation.GenerationThrew?))
  {
    if externalId.None? || externalId.value == "" {
      return Refused(400, "Missing externalId"), None;
    }
    if user.None? {
      return Refused(404, "User not found"), None;
    }
    var level := user.value.level.GetOr(0);
    var tags := UserTags(user.value.level, categories);
    var prioritized := Prioritize(byUser, byLevel, byTag, globals, now);
    var pool := Pool(prioritized, sentToday);
    var chosen := PickWeighted(pool, u);
    assert chosen == Chosen(byUser + byLevel + byTag + globals, now, sentToday, u);
    if chosen.None? {
      return Answered(NoCandidates(FallbackText)), None;
    }
    recorded := Some(chosen.value.id);
    if history.HistoryFailed? {
      return Refused(500, history.message), recorded;
    }
    var t := chosen.value;
    if t.isAi && generation.GenerationThrew? {
      return Refused(500, generation.message), recorded;
    }
    r := Answered(ChosenTip(FinalText(t, TextOf(generation)), t.id, t.title, level, LevelName(level), tags));
  }
}
