/**
  `POST /api/tips/create`: normalising the tip payload, inserting the tip
  and its level, user and tag targets, and deleting the tip again when a
  target write fails. The store's answers are parameters and the writes
  attempted are part of the result.
 */
module TipsCreate {
  import opened Wrappers
  import opened Text

  datatype Targets = Targets(levels: seq<Num>, userExternalIds: seq<string>, tags: seq<string>)

  /** The request body; an absent optional field is `None`. */
  datatype TipPayload = TipPayload(
    title: string,
    body: string,
    isAi: Option<bool>,
    weight: Option<Num>,
    isActive: Option<bool>,
    startAt: Option<string>,
    endAt: Option<string>,
    targets: Option<Targets>)

  /** The `tips` row inserted. */
  datatype TipRow = TipRow(
    title: string, body: string, isAi: bool, weight: int, isActive: bool,
    startAt: Option<string>, endAt: Option<string>)

  /** `body.weight && body.weight > 0 ? body.weight : 1`. */
  function StoredWeight(w: Option<Num>): (r: int)
    ensures r > 0
    ensures w.Some? && w.value.Fin? && w.value.n > 0 ==> r == w.value.n
    ensures (w.None? || w.value.NaN? || w.value.n <= 0) ==> r == 1
  {
    if w.Some? && w.value.Truthy() && w.value.n > 0 then w.value.n else 1
  }

  /** `s || null`. */
  function NonEmptyOrNull(s: Option<string>): (r: Option<string>)
    ensures r.Some? ==> r.value != ""
    ensures s.Some? && s.value != "" ==> r == s
  {
    if s.Some? && s.value != "" then s else None
  }

  function BuildTipRow(p: TipPayload): (row: TipRow)
    ensures row.title == p.title && row.body == p.body
    ensures row.isAi <==> p.isAi == Some(true)
    ensures row.isActive <==> p.isActive != Some(false)
    ensures row.weight == StoredWeight(p.weight)
    ensures row.startAt == NonEmptyOrNull(p.startAt) && row.endAt == NonEmptyOrNull(p.endAt)
  {
    TipRow(p.title, p.body, p.isAi.GetOr(false), StoredWeight(p.weight), p.isActive.GetOr(true),
      NonEmptyOrNull(p.startAt), NonEmptyOrNull(p.endAt))
  }

  /** `levels.filter(n => Number.isFinite(n))`, as integers. */
  function FiniteLevels(levels: seq<Num>): (r: seq<int>)
    ensures |r| <= |levels|
    ensures forall n :: n in r <==> Fin(n) in levels
    decreases |levels|
  {
    if |levels| == 0 then []
    else
      assert levels == [levels[0]] + levels[1..];
      (if levels[0].Fin? then [levels[0].n] else []) + FiniteLevels(levels[1..])
  }

  /** `.filter(Boolean)` on strings. */
  function NonEmpty(ids: seq<string>): (r: seq<string>)
    ensures forall x :: x in r <==> x in ids && x != ""
    decreases |ids|
  {
    if |ids| == 0 then []
    else
      assert ids == [ids[0]] + ids[1..];
      (if ids[0] != "" then [ids[0]] else []) + NonEmpty(ids[1..])
  }

  /** The level filter keeps order and multiplicity: it works element by
      element and distributes over concatenation. */
  lemma {:induction false} FiniteLevelsAppend(a: seq<Num>, b: seq<Num>)
    ensures FiniteLevels(a + b) == FiniteLevels(a) + FiniteLevels(b)
    decreases |a|
  {
    if |a| > 0 {
      assert (a + b)[1..] == a[1..] + b;
      FiniteLevelsAppend(a[1..], b);
    } else {
      assert a + b == b;
    }
  }

  /** The level filter on the empty list and on a single element. */
  lemma FiniteLevelsBase()
    ensures FiniteLevels([]) == []
    ensures forall x :: FiniteLevels([x]) == if x.Fin? then [x.n] else []
  {
    forall x ensures FiniteLevels([x]) == if x.Fin? then [x.n] else [] {
      assert [x][1..] == [];
    }
  }

  /** The same for the `filter(Boolean)` on strings. */
  lemma {:induction false} NonEmptyAppend(a: seq<string>, b: seq<string>)
    ensures NonEmpty(a + b) == NonEmpty(a) + NonEmpty(b)
    decreases |a|
  {
    if |a| > 0 {
      assert (a + b)[1..] == a[1..] + b;
      NonEmptyAppend(a[1..], b);
    } else {
      assert a + b == b;
    }
  }

  /** The string filter on the empty list and on a single element. */
  lemma NonEmptyBase()
    ensures NonEmpty([]) == []
    ensures forall x :: NonEmpty([x]) == if x != "" then [x] else []
  {
    forall x ensures NonEmpty([x]) == if x != "" then [x] else [] {
      assert [x][1..] == [];
    }
  }

  /** `String(t).toLowerCase().trim()`. */
  function NormaliseTag(t: string): (r: string)
    ensures NoUpper(r)
    ensures r == [] || (!IsSpace(r[0]) && !IsSpace(r[|r| - 1]))
  {
    LowerTrimmed(t);
    Trim(ToLower(t))
  }

  lemma LowerTrimmed(t: string)
    ensures NoUpper(Trim(ToLower(t)))
    ensures var r := Trim(ToLower(t)); r == [] || (!IsSpace(r[0]) && !IsSpace(r[|r| - 1]))
  {
    TrimEdges(ToLower(t));
    ToLowerSpec(t);
    TrimKeepsNoUpper(ToLower(t));
  }

  /** Lower-casing before trimming, as the handler does, is the same as
      trimming first, and a normalised tag normalises to itself. */
  lemma NormaliseTagSpec(t: string)
    ensures NormaliseTag(t) == ToLower(Trim(t))
    ensures NormaliseTag(NormaliseTag(t)) == NormaliseTag(t)
  {
    TrimToLower(t);
    var r := NormaliseTag(t);
    TrimToLower(r);
    ToLowerSpec(Trim(t));
    TrimIdempotent(t);
    TrimToLower(Trim(t));
  }

  /** Every tag normalised, in order. */
  function NormaliseEach(tags: seq<string>): (r: seq<string>)
    ensures |r| == |tags|
    ensures forall i :: 0 <= i < |tags| ==> r[i] == NormaliseTag(tags[i])
  {
    seq(|tags|, i requires 0 <= i < |tags| => NormaliseTag(tags[i]))
  }

  /** The tags to store: normalised, empty ones dropped, order kept. */
  function NormaliseTags(tags: seq<string>): (r: seq<string>)
    ensures forall x :: x in r <==> x in NormaliseEach(tags) && x != ""
  {
    NonEmpty(NormaliseEach(tags))
  }

  /** Every stored tag is non-empty, lower-case and trimmed, and every tag
      that does not normalise to the empty string is stored. */
  lemma NormaliseTagsSpec(tags: seq<string>)
    ensures forall x :: x in NormaliseTags(tags) ==>
      x != "" && NoUpper(x) && !IsSpace(x[0]) && !IsSpace(x[|x| - 1])
    ensures forall i :: 0 <= i < |tags| && NormaliseTag(tags[i]) != "" ==> NormaliseTag(tags[i]) in NormaliseTags(tags)
  {
    var each := NormaliseEach(tags);
    forall x | x in NormaliseTags(tags)
      ensures x != "" && NoUpper(x) && !IsSpace(x[0]) && !IsSpace(x[|x| - 1])
    {
      var i :| 0 <= i < |each| && each[i] == x;
    }
    forall i | 0 <= i < |tags| && NormaliseTag(tags[i]) != ""
      ensures NormaliseTag(tags[i]) in NormaliseTags(tags)
    {
      assert each[i] in each;
    }
  }

  /** A user the store matched by external id. */
  datatype UserRef = UserRef(id: string, externalId: string)

  /** The writes the handler issues, in the order tip, level targets, user
      targets, tag targets, and finally the tip's deletion. */
  datatype Writes = Writes(
    tip: Option<TipRow>,
    levels: Option<seq<int>>,
    userIds: Option<seq<string>>,
    tags: Option<seq<string>>,
    deleted: bool)

  const NoWrites := Writes(None, None, None, None, false)

  datatype CreateResult = CreateResult(reply: Reply<string>, writes: Writes)

  function UserIds(users: seq<UserRef>): (r: seq<string>)
    ensures |r| == |users|
    ensures forall i :: 0 <= i < |r| ==> r[i] == users[i].id
  {
    seq(|users|, i requires 0 <= i < |users| => users[i].id)
  }

  function TargetsOf(p: TipPayload): Targets {
    p.targets.GetOr(Targets([], [], []))
  }

  /** Each target stage that writes and is refused. A stage writes only
      when it has something to write: finite levels, non-empty external ids
      (the lookup), users found, non-empty normalised tags. */
  predicate LevelFails(t: Targets, levelInsert: StoreResult<()>) {
    |FiniteLevels(t.levels)| > 0 && levelInsert.StoreErr?
  }

  predicate LookupFails(t: Targets, userLookup: StoreResult<seq<UserRef>>) {
    |NonEmpty(t.userExternalIds)| > 0 && userLookup.StoreErr?
  }

  /** The users to target: those the lookup found, when there were ids to look up. */
  predicate UsersFound(t: Targets, userLookup: StoreResult<seq<UserRef>>) {
    |NonEmpty(t.userExternalIds)| > 0 && userLookup.StoreOk? && |userLookup.data| > 0
  }

  predicate UserFails(t: Targets, userLookup: StoreResult<seq<UserRef>>, userInsert: StoreResult<()>) {
    UsersFound(t, userLookup) && userInsert.StoreErr?
  }

  predicate TagFails(t: Targets, tagInsert: StoreResult<()>) {
    |NormaliseTags(t.tags)| > 0 && tagInsert.StoreErr?
  }

  predicate AnyTargetFails(
    t: Targets, levelInsert: StoreResult<()>, userLookup: StoreResult<seq<UserRef>>,
    userInsert: StoreResult<()>, tagInsert: StoreResult<()>)
  {
    LevelFails(t, levelInsert) || LookupFails(t, userLookup) ||
    UserFails(t, userLookup, userInsert) || TagFails(t, tagInsert)
  }

  /** The payload passes the `title`/`body` check. */
  predicate Valid(payload: Option<TipPayload>) {
    payload.Some? && payload.value.title != "" && payload.value.body != ""
  }

  /** The handler. `tipInsert` is the new tip's id or the store's error;
      `levelInsert`, `userInsert` and `tagInsert` are the outcomes of the
      target inserts and `userLookup` the users found for the external ids. */
  function CreateTip(
    verb: string, payload: Option<TipPayload>,
    tipInsert: StoreResult<string>, levelInsert: StoreResult<()>,
    userLookup: StoreResult<seq<UserRef>>, userInsert: StoreResult<()>, tagInsert: StoreResult<()>)
    : (r: CreateResult)
    ensures verb != "POST" ==> r == CreateResult(Refused(405, "Method not allowed"), NoWrites)
    ensures verb == "POST" && !Valid(payload) ==>
      r == CreateResult(Refused(400, "Missing title/body"), NoWrites)
    // a valid request always writes its tip, built from the payload
    ensures verb == "POST" && Valid(payload) ==> r.writes.tip == Some(BuildTipRow(payload.value))
    ensures r.writes.tip.Some? ==> verb == "POST" && Valid(payload)
    ensures verb == "POST" && Valid(payload) && tipInsert.StoreErr? ==>
      r == CreateResult(Refused(500, MessageOr(tipInsert.message, "create failed")),
                        NoWrites.(tip := Some(BuildTipRow(payload.value))))
    // with the tip stored: answered exactly when no target write is refused,
    // deleted and 500 otherwise
    ensures verb == "POST" && Valid(payload) && tipInsert.StoreOk? ==>
      var t := TargetsOf(payload.value);
      && (r.reply.Answered? <==> !AnyTargetFails(t, levelInsert, userLookup, userInsert, tagInsert))
      && (r.writes.deleted <==> AnyTargetFails(t, levelInsert, userLookup, userInsert, tagInsert))
      && (r.reply.Answered? ==> r.reply.body == tipInsert.data)
      && (r.writes.deleted ==> r.reply.Refused? && r.reply.status == 500)
    ensures r.reply.Answered? ==> r.reply.body == tipInsert.data
    ensures r.writes.deleted ==> tipInsert.StoreOk? && r.reply.Refused? && r.reply.status == 500
    // the targets written are the normalised ones
    ensures r.writes.levels.Some? ==>
      r.writes.levels.value == FiniteLevels(TargetsOf(payload.value).levels) && |r.writes.levels.value| > 0
    ensures r.writes.userIds.Some? ==>
      userLookup.StoreOk? && r.writes.userIds.value == UserIds(userLookup.data)
    ensures r.writes.tags.Some? ==>
      r.writes.tags.value == NormaliseTags(TargetsOf(payload.value).tags) && |r.writes.tags.value| > 0
  {
    if verb != "POST" then CreateResult(Refused(405, "Method not allowed"), NoWrites)
    else if payload.None? || payload.value.title == "" || payload.value.body == "" then
      CreateResult(Refused(400, "Missing title/body"), NoWrites)
    else
      var p := payload.value;
      var w := NoWrites.(tip := Some(BuildTipRow(p)));
      if tipInsert.StoreErr? then CreateResult(Refused(500, MessageOr(tipInsert.message, "create failed")), w)
      else WriteTargets(tipInsert.data, TargetsOf(p), w, levelInsert, userLookup, userInsert, tagInsert)
  }

  /** The target writes, in order levels, users, tags: each stage writes
      what it has, the first refused write stops the later stages and
      deletes the tip, and with no refusal the tip's id is the answer. */
  function WriteTargets(
    tipId: string, targets: Targets, w: Writes,
    levelInsert: StoreResult<()>, userLookup: StoreResult<seq<UserRef>>,
    userInsert: StoreResult<()>, tagInsert: StoreResult<()>)
    : (r: CreateResult)
    requires w.tip.Some? && w.levels.None? && w.userIds.None? && w.tags.None? && !w.deleted
    ensures r.writes.tip == w.tip
    // levels come first and are written whenever there are any
    ensures r.writes.levels == if |FiniteLevels(targets.levels)| > 0 then Some(FiniteLevels(targets.levels)) else None
    ensures LevelFails(targets, levelInsert) ==>
      r == CreateResult(Refused(500, MessageOr(levelInsert.message, "targets failed")),
                        w.(levels := r.writes.levels, deleted := true))
    ensures !LevelFails(targets, levelInsert) && LookupFails(targets, userLookup) ==>
      r == CreateResult(Refused(500, MessageOr(userLookup.message, "targets failed")),
                        w.(levels := r.writes.levels, deleted := true))
    // users found are targeted once the earlier stages went through
    ensures r.writes.userIds.Some? <==>
      !LevelFails(targets, levelInsert) && UsersFound(targets, userLookup)
    ensures r.writes.userIds.Some? ==> r.writes.userIds.value == UserIds(userLookup.data)
    ensures !LevelFails(targets, levelInsert) && !LookupFails(targets, userLookup) &&
            UserFails(targets, userLookup, userInsert) ==>
      r.reply == Refused(500, MessageOr(userInsert.message, "targets failed")) &&
      r.writes.deleted && r.writes.tags.None?
    // tags come last
    ensures r.writes.tags.Some? <==>
      !LevelFails(targets, levelInsert) && !LookupFails(targets, userLookup) &&
      !UserFails(targets, userLookup, userInsert) && |NormaliseTags(targets.tags)| > 0
    ensures r.writes.tags.Some? ==> r.writes.tags.value == NormaliseTags(targets.tags)
    ensures !LevelFails(targets, levelInsert) && !LookupFails(targets, userLookup) &&
            !UserFails(targets, userLookup, userInsert) && TagFails(targets, tagInsert) ==>
      r.reply == Refused(500, MessageOr(tagInsert.message, "targets failed")) && r.writes.deleted
    ensures r.writes.deleted <==> AnyTargetFails(targets, levelInsert, userLookup, userInsert, tagInsert)
    ensures !AnyTargetFails(targets, levelInsert, userLookup, userInsert, tagInsert) ==> r.reply == Answered(tipId)
    ensures r.reply.Answered? <==> !r.writes.deleted
    ensures r.writes.deleted ==> r.reply.Refused? && r.reply.status == 500
  {
    var levels := FiniteLevels(targets.levels);
    var w1 := if |levels| > 0 then w.(levels := Some(levels)) else w;
    if |levels| > 0 && levelInsert.StoreErr? then
      CreateResult(Refused(500, MessageOr(levelInsert.message, "targets failed")), w1.(deleted := true))
    else
      var extIds := NonEmpty(targets.userExternalIds);
      if |extIds| > 0 && userLookup.StoreErr? then
        CreateResult(Refused(500, MessageOr(userLookup.message, "targets failed")), w1.(deleted := true))
      else
        var users := if |extIds| > 0 then userLookup.data else [];
        var w2 := if |users| > 0 then w1.(userIds := Some(UserIds(users))) else w1;
        if |users| > 0 && userInsert.StoreErr? then
          CreateResult(Refused(500, MessageOr(userInsert.message, "targets failed")), w2.(deleted := true))
        else
          var tags := NormaliseTags(targets.tags);
          var w3 := if |tags| > 0 then w2.(tags := Some(tags)) else w2;
          if |tags| > 0 && tagInsert.StoreErr? then
            CreateResult(Refused(500, MessageOr(tagInsert.message, "targets failed")), w3.(deleted := true))
          else
            CreateResult(Answered(tipId), w3)
  }
}
