/**
  `appReducer` of the client context: a pure state machine over `AppState`.
 */
module AppReducer {
  import opened Wrappers
  import opened AppTypes

  /** Every routine with id `id` becomes completed at 100%; the rest stay. */
  function CompleteRoutines(rs: seq<Routine>, id: string): (r: seq<Routine>)
    ensures |r| == |rs|
    ensures forall i :: 0 <= i < |rs| && rs[i].id != id ==> r[i] == rs[i]
    ensures forall i :: 0 <= i < |rs| && rs[i].id == id ==>
      r[i] == rs[i].(status := RoutineCompleted, progress := 100)
  {
    seq(|rs|, i requires 0 <= i < |rs| =>
      if rs[i].id == id then rs[i].(status := RoutineCompleted, progress := 100) else rs[i])
  }

  /** The matching challenge after an achievement log: completed at 100% when
      achieved, otherwise not-completed with its progress kept. */
  function LogChallenges(cs: seq<Challenge>, log: AchievementLog): (r: seq<Challenge>)
    ensures |r| == |cs|
    ensures forall i :: 0 <= i < |cs| && cs[i].id != log.challengeId ==> r[i] == cs[i]
    ensures forall i :: 0 <= i < |cs| && cs[i].id == log.challengeId ==>
      r[i] == if log.achieved then cs[i].(status := Completed, progress := 100)
              else cs[i].(status := NotCompleted)
  {
    seq(|cs|, i requires 0 <= i < |cs| =>
      if cs[i].id != log.challengeId then cs[i]
      else if log.achieved then cs[i].(status := Completed, progress := 100)
      else cs[i].(status := NotCompleted, progress := cs[i].progress))
  }

  /** The matching challenge becomes in-progress; its progress is kept. */
  function JoinChallenges(cs: seq<Challenge>, id: string): (r: seq<Challenge>)
    ensures |r| == |cs|
    ensures forall i :: 0 <= i < |cs| && cs[i].id != id ==> r[i] == cs[i]
    ensures forall i :: 0 <= i < |cs| && cs[i].id == id ==> r[i] == cs[i].(status := InProgress)
  {
    seq(|cs|, i requires 0 <= i < |cs| =>
      if cs[i].id == id then cs[i].(status := InProgress) else cs[i])
  }

  /** `appReducer(state, action)`. */
  function Reduce(state: AppState, action: AppAction): (r: AppState)
    // HYDRATE replaces everything; no other action touches user, KPIs or stats
    ensures action.Hydrate? ==> r == action.payload
    ensures !action.Hydrate? ==> r.user == state.user && r.kpis == state.kpis && r.stats == state.stats
    ensures !action.Hydrate? && !action.Login? ==> r.isAuthenticated == state.isAuthenticated
    ensures action.Login? ==> r.isAuthenticated
    // each list changes only under its own actions
    ensures !action.Hydrate? && !action.CompleteRoutine? ==> r.routines == state.routines
    ensures !action.Hydrate? && !action.AddAchievementLog? && !action.JoinChallenge? ==>
      r.challenges == state.challenges
    ensures !action.Hydrate? && !action.AddAchievementLog? ==> r.achievementLogs == state.achievementLogs
    ensures !action.Hydrate? && !action.AddJournalEntry? ==> r.mind == state.mind
    ensures action.CompleteRoutine? || action.JoinChallenge? || action.AddAchievementLog? ==>
      |r.routines| == |state.routines| && |r.challenges| == |state.challenges|
    // a journal entry needs a mind section; a log is prepended
    ensures action.AddJournalEntry? ==> (r.mind.Some? <==> state.mind.Some?)
    ensures action.AddJournalEntry? && state.mind.None? ==> r == state
    ensures action.AddAchievementLog? ==> r.achievementLogs == [action.log] + state.achievementLogs
    ensures action.Unrecognised? ==> r == state
  {
    match action
    case Hydrate(payload) => payload
    case Login => state.(isAuthenticated := true)
    case CompleteRoutine(id) => state.(routines := CompleteRoutines(state.routines, id))
    case AddJournalEntry(entry) =>
      if state.mind.None? then state
      else
        var mind := state.mind.value;
        state.(mind := Some(mind.(journalEntries := [entry] + mind.journalEntries)))
    case AddAchievementLog(log) =>
      state.(achievementLogs := [log] + state.achievementLogs,
             challenges := LogChallenges(state.challenges, log))
    case JoinChallenge(id) => state.(challenges := JoinChallenges(state.challenges, id))
    case Unrecognised(_) => state
  }

  /** LOGIN sets the flag and nothing else. */
  lemma LoginOnlyAuthenticates(state: AppState)
    ensures Reduce(state, Login).isAuthenticated
    ensures Reduce(state, Login).(isAuthenticated := state.isAuthenticated) == state
  {
  }

  /** COMPLETE_ROUTINE: the matching routines end completed at 100%, every
      other routine keeps its value and position, and applying the action a
      second time changes nothing. */
  lemma CompleteRoutineSpec(state: AppState, id: string)
    ensures var r := Reduce(state, CompleteRoutine(id)).routines;
      && |r| == |state.routines|
      && (forall i :: 0 <= i < |r| ==> r[i].id == state.routines[i].id)
      && (forall i :: 0 <= i < |r| && r[i].id == id ==> r[i].status == RoutineCompleted && r[i].progress == 100)
      && (forall i :: 0 <= i < |r| && r[i].id != id ==> r[i] == state.routines[i])
    ensures Reduce(Reduce(state, CompleteRoutine(id)), CompleteRoutine(id)) == Reduce(state, CompleteRoutine(id))
  {
    var once := Reduce(state, CompleteRoutine(id));
    var twice := Reduce(once, CompleteRoutine(id));
    assert twice.routines == once.routines;
  }

  /** ADD_JOURNAL_ENTRY prepends the entry and keeps the rest of the mind data. */
  lemma AddJournalEntrySpec(state: AppState, entry: MindEntry)
    requires state.mind.Some?
    ensures var m := Reduce(state, AddJournalEntry(entry)).mind;
      && m.Some?
      && m.value.journalEntries == [entry] + state.mind.value.journalEntries
      && m.value.(journalEntries := state.mind.value.journalEntries) == state.mind.value
  {
  }

  /** ADD_ACHIEVEMENT_LOG: the logged challenge becomes completed at 100% if
      achieved, otherwise not-completed with its progress kept. */
  lemma AddAchievementLogSpec(state: AppState, log: AchievementLog)
    ensures var cs := Reduce(state, AddAchievementLog(log)).challenges;
      && |cs| == |state.challenges|
      && (forall i :: 0 <= i < |cs| && state.challenges[i].id == log.challengeId ==>
            && cs[i].status == (if log.achieved then Completed else NotCompleted)
            && cs[i].progress == (if log.achieved then 100 else state.challenges[i].progress)
            && cs[i].(status := state.challenges[i].status, progress := state.challenges[i].progress)
               == state.challenges[i])
      && (forall i :: 0 <= i < |cs| && state.challenges[i].id != log.challengeId ==> cs[i] == state.challenges[i])
  {
  }

  /** JOIN_CHALLENGE only moves the matching challenge to in-progress. */
  lemma JoinChallengeSpec(state: AppState, id: string)
    ensures var cs := Reduce(state, JoinChallenge(id)).challenges;
      && |cs| == |state.challenges|
      && (forall i :: 0 <= i < |cs| && state.challenges[i].id == id ==>
            cs[i].status == InProgress && cs[i].progress == state.challenges[i].progress)
      && (forall i :: 0 <= i < |cs| && state.challenges[i].id != id ==> cs[i] == state.challenges[i])
    ensures Reduce(Reduce(state, JoinChallenge(id)), JoinChallenge(id)) == Reduce(state, JoinChallenge(id))
  {
    var once := Reduce(state, JoinChallenge(id));
    assert Reduce(once, JoinChallenge(id)).challenges == once.challenges;
  }

  /** An id that matches nothing leaves both lists exactly as they were. */
  lemma UnmatchedIdChangesNoList(state: AppState, id: string, log: AchievementLog)
    requires forall i :: 0 <= i < |state.routines| ==> state.routines[i].id != id
    requires forall i :: 0 <= i < |state.challenges| ==> state.challenges[i].id != id
    requires log.challengeId == id
    ensures Reduce(state, CompleteRoutine(id)) == state
    ensures Reduce(state, JoinChallenge(id)) == state
    ensures Reduce(state, AddAchievementLog(log)).challenges == state.challenges
  {
    assert Reduce(state, CompleteRoutine(id)).routines == state.routines;
    assert Reduce(state, JoinChallenge(id)).challenges == state.challenges;
    assert Reduce(state, AddAchievementLog(log)).challenges == state.challenges;
  }
}
