/**
  The client application's state and actions (`types.ts`).
 */
module AppTypes {
  import opened Wrappers

  datatype Profile = Obesidad | Menopausia | Onco | Longevidad

  datatype User = User(id: string, name: string, profile: Profile)

  datatype Kpis = Kpis(
    level: int, xp: int, maxXp: int, calories: int, protein: int, carbs: int, weeklyProgress: int)

  datatype RoutineCategory = Cardio | Fuerza | Yoga

  datatype RoutineStatus = Pending | RoutineCompleted

  datatype Routine = Routine(
    id: string,
    title: string,
    category: RoutineCategory,
    duration: int,
    status: RoutineStatus,
    progress: int,
    dvg: int)

  datatype ChallengeKind = Daily | Weekly

  datatype ChallengeCategory =
    ActividadFisica | Nutricion | Sueno | Pasos | Entrenamiento | Meditacion

  datatype ChallengeStatus = NotStarted | InProgress | Completed | NotCompleted

  datatype Challenge = Challenge(
    id: string,
    kind: ChallengeKind,
    category: ChallengeCategory,
    title: string,
    description: string,
    fullDescription: string,
    progress: int,
    dvg: int,
    status: ChallengeStatus,
    durationText: string)

  datatype DayValue = DayValue(day: string, value: real)

  datatype StatsData = StatsData(weekly: seq<DayValue>, healthyHabits: seq<DayValue>)

  datatype Mood = Happy | Neutral | Sad

  datatype MindEntry = MindEntry(id: string, text: string, mood: Mood, timestamp: string)

  /** A labelled figure with its change, as `sleep` and `stress` hold. */
  datatype Trend = Trend(summary: string, change: real)

  datatype MindData = MindData(
    sleep: Trend, stress: Trend, weeklySleep: seq<DayValue>, journalEntries: seq<MindEntry>)

  datatype AchievementLog = AchievementLog(
    id: string,
    challengeId: string,
    challengeTitle: string,
    achieved: bool,
    comment: string,
    timestamp: string)

  datatype AppState = AppState(
    isAuthenticated: bool,
    user: Option<User>,
    kpis: Option<Kpis>,
    routines: seq<Routine>,
    challenges: seq<Challenge>,
    achievementLogs: seq<AchievementLog>,
    stats: Option<StatsData>,
    mind: Option<MindData>)

  /** The dispatched actions; `Unrecognised` stands for any other `type` tag. */
  datatype AppAction =
    | Hydrate(payload: AppState)
    | Login
    | CompleteRoutine(routineId: string)
    | AddJournalEntry(entry: MindEntry)
    | AddAchievementLog(log: AchievementLog)
    | JoinChallenge(challengeId: string)
    | Unrecognised(tag: string)
}
