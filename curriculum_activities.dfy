/**
 * The curriculum activity board: the list of activities, the draft of the
 * creation form, creating an activity from the draft, the type lookup, the
 * status counts and the filtered view by type, status and search term.
 */
module CurriculumActivities {
  import opened Options
  import opened Seqs
  import opened Text
  import opened App

  datatype ActivityType = Quiz | Debate | Sports | Cultural | Academic | Extracurricular
  {
    /** The string the activity carries in its `type` field. */
    function Name(): string
    {
      match this
      case Quiz => "quiz"
      case Debate => "debate"
      case Sports => "sports"
      case Cultural => "cultural"
      case Academic => "academic"
      case Extracurricular => "extracurricular"
    }
  }

  datatype ActivityStatus = Planned | Ongoing | Completed
  {
    function Name(): string
    {
      match this
      case Planned => "planned"
      case Ongoing => "ongoing"
      case Completed => "completed"
    }
  }

  /**
   * A curriculum activity. `subject` and `maxScore` may be absent; a maximum
   * score typed as text that is not a number is held as `NaN`.
   */
  datatype Activity = Activity(
    id: string,
    name: string,
    activityType: ActivityType,
    klass: string,
    section: string,
    subject: Option<string>,
    description: string,
    date: string,
    duration: string,
    teacherId: string,
    teacherName: string,
    participants: seq<string>,
    maxScore: Option<IntOrNaN>,
    scores: map<string, int>,
    status: ActivityStatus,
    createdDate: string)

  /** The creation form; every field but the type is text. */
  datatype ActivityDraft = ActivityDraft(
    name: string,
    activityType: ActivityType,
    klass: string,
    section: string,
    subject: string,
    description: string,
    date: string,
    duration: string,
    maxScore: string)

  /** The form as it is first shown and after every creation. */
  const EmptyActivityDraft := ActivityDraft("", Quiz, "", "", "", "", "", "", "")

  /** An entry of the type table: the stored value and the label shown for it (`label` in the source). */
  datatype TypeInfo = TypeInfo(value: string, shown: string)

  const ActivityTypes: seq<TypeInfo> := [
    TypeInfo("quiz", "Quiz"),
    TypeInfo("debate", "Debate"),
    TypeInfo("sports", "Sports"),
    TypeInfo("cultural", "Cultural"),
    TypeInfo("academic", "Academic"),
    TypeInfo("extracurricular", "Extracurricular")
  ]

  function ValueIs(t: string): TypeInfo -> bool
  {
    (info: TypeInfo) => info.value == t
  }

  /** `getActivityTypeInfo`: the table entry of the type, or the "quiz" entry when there is none. */
  function GetActivityTypeInfo(t: string): (info: TypeInfo)
    ensures info in ActivityTypes
    ensures (exists i :: 0 <= i < |ActivityTypes| && ActivityTypes[i].value == t) ==> info.value == t
    ensures (forall i :: 0 <= i < |ActivityTypes| ==> ActivityTypes[i].value != t) ==> info == TypeInfo("quiz", "Quiz")
  {
    match FindFirst(ActivityTypes, ValueIs(t))
    case Some(i) => ActivityTypes[i]
    case None => ActivityTypes[0]
  }

  /** Every type an activity can have finds its own entry. */
  lemma EveryActivityTypeHasInfo(t: ActivityType)
    ensures GetActivityTypeInfo(t.Name()).value == t.Name()
  {
    var i := match t
      case Quiz => 0 case Debate => 1 case Sports => 2 case Cultural => 3 case Academic => 4 case Extracurricular => 5;
    assert ActivityTypes[i].value == t.Name();
  }

  /** `maxScore ? parseInt(maxScore) : undefined`: no maximum exactly when the field is empty. */
  function MaxScoreOf(field: string): (r: Option<IntOrNaN>)
    ensures r.None? <==> field == ""
    ensures r.Some? ==> r.value == ParseInt(field)
  {
    if field != "" then Some(ParseInt(field)) else None
  }

  /** A maximum typed as a number is stored as that number. */
  lemma MaxScoreRoundTrip(n: nat)
    ensures MaxScoreOf(NatToDecimal(n)) == Some(Int(n))
  {
    ParseIntOfDecimal(n, "");
    assert NatToDecimal(n) + "" == NatToDecimal(n);
  }

  /** A maximum typed as text that is not a number is kept as `NaN`, not dropped. */
  lemma NonNumericMaxScoreIsNaN()
    ensures MaxScoreOf("ten") == Some(NaN)
  {
  }

  /**
   * The activity `handleCreateActivity` builds from the draft: the draft's
   * fields, led by the user's teacher id, planned, with no participants and
   * no scores yet. The draft's subject is kept even when it is empty.
   */
  function ActivityFromDraft(d: ActivityDraft, user: User, id: string, today: string): (a: Activity)
    ensures a.status == Planned && a.participants == [] && a.scores == map[]
    ensures a.teacherId == AssignedTeacherId(user) && a.teacherName == user.name
    ensures a.id == id && a.createdDate == today
    ensures a.name == d.name && a.activityType == d.activityType && a.subject == Some(d.subject)
    ensures a.klass == d.klass && a.section == d.section && a.description == d.description
    ensures a.date == d.date && a.duration == d.duration
    ensures a.maxScore == MaxScoreOf(d.maxScore)
  {
    Activity(id, d.name, d.activityType, d.klass, d.section, Some(d.subject), d.description, d.date,
             d.duration, AssignedTeacherId(user), user.name, [], MaxScoreOf(d.maxScore), map[], Planned, today)
  }

  function HasStatus(s: ActivityStatus): Activity -> bool
  {
    (a: Activity) => a.status == s
  }

  /** The number of activities with the given status, as the summary cards show it. */
  function StatusCount(activities: seq<Activity>, s: ActivityStatus): (n: nat)
    ensures n <= |activities|
  {
    Count(activities, HasStatus(s))
  }

  /** Every activity has exactly one status, so the three status cards add up to the total card. */
  lemma StatusCountsAddUp(activities: seq<Activity>)
    ensures StatusCount(activities, Planned) + StatusCount(activities, Ongoing) + StatusCount(activities, Completed) == |activities|
  {
    CountPartition3(activities, HasStatus(Planned), HasStatus(Ongoing), HasStatus(Completed));
  }

  /** Creating an activity adds one to the planned count and leaves the other counts alone. */
  lemma CreateAddsOnePlanned(activities: seq<Activity>, d: ActivityDraft, user: User, id: string, today: string, s: ActivityStatus)
    ensures StatusCount(activities + [ActivityFromDraft(d, user, id, today)], s)
         == StatusCount(activities, s) + (if s == Planned then 1 else 0)
  {
    var a := ActivityFromDraft(d, user, id, today);
    CountAppend(activities, [a], HasStatus(s));
    FilterSingleton(a, HasStatus(s));
  }

  /** The three tests of `filteredActivities`: type, status, and the search in name, description or teacher. */
  predicate ActivityShown(a: Activity, filterType: string, filterStatus: string, searchTerm: string)
  {
    (filterType == "all" || a.activityType.Name() == filterType)
    && (filterStatus == "all" || a.status.Name() == filterStatus)
    && (MatchesSearch(a.name, searchTerm) || MatchesSearch(a.description, searchTerm) || MatchesSearch(a.teacherName, searchTerm))
  }

  function ShownBy(filterType: string, filterStatus: string, searchTerm: string): Activity -> bool
  {
    (a: Activity) => ActivityShown(a, filterType, filterStatus, searchTerm)
  }

  /** `filteredActivities`: exactly the activities that pass the three tests, in list order. */
  function FilteredActivities(activities: seq<Activity>, filterType: string, filterStatus: string, searchTerm: string): (r: seq<Activity>)
    ensures |r| <= |activities|
    ensures forall i :: 0 <= i < |r| ==> r[i] in activities && ActivityShown(r[i], filterType, filterStatus, searchTerm)
    ensures forall k :: 0 <= k < |activities| && ActivityShown(activities[k], filterType, filterStatus, searchTerm) ==> activities[k] in r
  {
    Filter(activities, ShownBy(filterType, filterStatus, searchTerm))
  }

  /** With both filters at "all" and no search term every activity is shown. */
  lemma DefaultViewShowsAll(activities: seq<Activity>)
    ensures FilteredActivities(activities, "all", "all", "") == activities
  {
    assert ToLower("") == "";
    FilterAll(activities, ShownBy("all", "all", ""));
  }

  /** The view filtered by one status holds exactly as many activities as that status's card counts. */
  lemma StatusViewMatchesCount(activities: seq<Activity>, s: ActivityStatus)
    ensures |FilteredActivities(activities, "all", s.Name(), "")| == StatusCount(activities, s)
  {
    assert ToLower("") == "";
    forall a: Activity
      ensures ShownBy("all", s.Name(), "")(a) == HasStatus(s)(a)
    {
      assert a.status.Name() == s.Name() <==> a.status == s;
    }
    FilterSameOn(activities, ShownBy("all", s.Name(), ""), HasStatus(s));
  }

  /** The board's state: the activities and the creation form. */
  class ActivityBoard {
    var activities: seq<Activity>
    var newActivity: ActivityDraft

    constructor (initial: seq<Activity>)
      ensures activities == initial && newActivity == EmptyActivityDraft
    {
      activities := initial;
      newActivity := EmptyActivityDraft;
    }

    /** Typing into the form replaces the draft and leaves the activities alone. */
    method EditDraft(d: ActivityDraft)
      modifies this
      ensures newActivity == d && activities == old(activities)
    {
      newActivity := d;
    }

    /** `handleCreateActivity`: the activity built from the draft goes at the end, and the form is reset. */
    method HandleCreateActivity(user: User, id: string, today: string)
      modifies this
      ensures activities == old(activities) + [ActivityFromDraft(old(newActivity), user, id, today)]
      ensures StatusCount(activities, Planned) == StatusCount(old(activities), Planned) + 1
      ensures newActivity == EmptyActivityDraft
    {
      CreateAddsOnePlanned(activities, newActivity, user, id, today, Planned);
      activities := activities + [ActivityFromDraft(newActivity, user, id, today)];
      newActivity := EmptyActivityDraft;
    }
  }
}
