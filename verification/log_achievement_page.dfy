/**
  The "log an achievement" screen: the challenge filter (category group and
  title search) and the action dispatched on save.
 */
module LogAchievementPage {
  import opened Wrappers
  import opened Text
  import opened AppTypes
  import AppReducer

  datatype CategoryFilter = Fisico | Mental | Alimentacion | Todos

  /** `challengeCategoryMap`: every challenge category belongs to one group. */
  function CategoryGroup(c: ChallengeCategory): (f: CategoryFilter)
    ensures f != Todos
  {
    match c
    case ActividadFisica => Fisico
    case Entrenamiento => Fisico
    case Pasos => Fisico
    case Meditacion => Mental
    case Sueno => Mental
    case Nutricion => Alimentacion
  }

  /** The filter test of one challenge: category group and case-insensitive
      title search. */
  predicate Matches(c: Challenge, filter: CategoryFilter, search: string) {
    && (filter == Todos || CategoryGroup(c.category) == filter)
    && Contains(ToLower(c.title), ToLower(search))
  }

  /** `filteredChallenges`: the challenges passing the filter, in list order. */
  function FilteredChallenges(cs: seq<Challenge>, filter: CategoryFilter, search: string): (r: seq<Challenge>)
    ensures IsSubsequence(r, cs)
    ensures forall c :: c in r <==> c in cs && Matches(c, filter, search)
    decreases |cs|
  {
    if |cs| == 0 then []
    else
      var rest := FilteredChallenges(cs[1..], filter, search);
      assert forall c :: c in cs <==> c == cs[0] || c in cs[1..];
      if Matches(cs[0], filter, search) then
        assert ([cs[0]] + rest)[1..] == rest;
        [cs[0]] + rest
      else rest
  }

  /** The filter works challenge by challenge: it distributes over
      concatenation, so order and repeats are kept. */
  lemma {:induction false} FilteredChallengesAppend(a: seq<Challenge>, b: seq<Challenge>, filter: CategoryFilter, search: string)
    ensures FilteredChallenges(a + b, filter, search) == FilteredChallenges(a, filter, search) + FilteredChallenges(b, filter, search)
    decreases |a|
  {
    if |a| > 0 {
      assert (a + b)[1..] == a[1..] + b;
      FilteredChallengesAppend(a[1..], b, filter, search);
    } else {
      assert a + b == b;
    }
  }

  /** A single challenge is listed exactly when it matches. */
  lemma FilteredChallengesSingle(c: Challenge, filter: CategoryFilter, search: string)
    ensures FilteredChallenges([c], filter, search) == if Matches(c, filter, search) then [c] else []
  {
    assert [c][1..] == [];
  }

  /** With the "Todos" filter and an empty search every challenge is listed. */
  lemma {:induction false} NoFilterListsAll(cs: seq<Challenge>)
    ensures FilteredChallenges(cs, Todos, "") == cs
    decreases |cs|
  {
    if |cs| > 0 {
      ContainsEmpty(ToLower(cs[0].title));
      assert ToLower("") == "";
      NoFilterListsAll(cs[1..]);
    }
  }

  /** "Todos" imposes no category restriction: only the search decides. */
  lemma TodosIgnoresCategory(cs: seq<Challenge>, search: string)
    ensures forall c :: c in FilteredChallenges(cs, Todos, search) <==>
      c in cs && Contains(ToLower(c.title), ToLower(search))
  {
  }

  /** `handleSave`: nothing is dispatched without a selected challenge;
      otherwise an ADD_ACHIEVEMENT_LOG carrying the challenge's id and title.
      `now` and `isoNow` stand for `Date.now()` and the ISO timestamp. */
  function HandleSave(selected: Option<Challenge>, achieved: bool, comment: string, now: nat, isoNow: string)
    : (r: Option<AppAction>)
    ensures r.None? <==> selected.None?
    ensures r.Some? ==>
      && r.value.AddAchievementLog?
      && r.value.log.challengeId == selected.value.id
      && r.value.log.challengeTitle == selected.value.title
      && r.value.log.achieved == achieved
      && r.value.log.comment == comment
      // `ach_${Date.now()}` and `new Date().toISOString()`
      && r.value.log.id == "ach_" + NatToString(now)
      && r.value.log.timestamp == isoNow
  {
    if selected.None? then None
    else
      var c := selected.value;
      Some(AddAchievementLog(AchievementLog("ach_" + NatToString(now), c.id, c.title, achieved, comment, isoNow)))
  }

  /** Logs saved at different times carry different ids. */
  lemma SaveIdsDistinct(c: Challenge, d: Challenge, achieved: bool, comment: string, now: nat, later: nat, isoNow: string)
    requires now != later
    ensures HandleSave(Some(c), achieved, comment, now, isoNow).value.log.id
         != HandleSave(Some(d), achieved, comment, later, isoNow).value.log.id
  {
    var x := HandleSave(Some(c), achieved, comment, now, isoNow).value.log.id;
    var y := HandleSave(Some(d), achieved, comment, later, isoNow).value.log.id;
    if x == y {
      assert NatToString(now) == x[4..] == y[4..] == NatToString(later);
      NatToStringRoundTrip(now);
      NatToStringRoundTrip(later);
    }
  }

  /** Saving an achieved challenge of the list and dispatching the action
      leaves that challenge completed at 100% in the new state. */
  lemma SaveCompletesChallenge(state: AppState, i: nat, comment: string, now: nat, isoNow: string)
    requires i < |state.challenges|
    ensures var a := HandleSave(Some(state.challenges[i]), true, comment, now, isoNow);
      a.Some? && var next := AppReducer.Reduce(state, a.value);
      && next.challenges[i].status == Completed
      && next.challenges[i].progress == 100
      && next.achievementLogs[0].challengeId == state.challenges[i].id
  {
    var a := HandleSave(Some(state.challenges[i]), true, comment, now, isoNow);
    AppReducer.AddAchievementLogSpec(state, a.value.log);
  }
}
