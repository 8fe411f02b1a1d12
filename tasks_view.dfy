/**
 * The tasks page: the queue of stale tasks and the sidebar of fresh ones
 * (frozen tasks first, then by name), the empty-state flags, the
 * brownie-points animation trigger, the popup selection, and the
 * leaderboard the page shows on wide windows.
 */
module TasksView {
  import opened Common
  import opened Text
  import opened UserStatsBox

  /** What the page reads of a task. */
  datatype TaskCard = TaskCard(id: nat, taskName: string, staleness: real, frozen: bool)

  // ---------------------------------------------------------------- queue and sidebar

  /** `tasks.filter(task => task.staleness !== 0)`: the queue. */
  function Queue(tasks: seq<TaskCard>): (r: seq<TaskCard>)
    ensures forall t :: t in r <==> t in tasks && t.staleness != 0.0
    ensures |r| <= |tasks|
  {
    if tasks == [] then []
    else (if tasks[0].staleness != 0.0 then [tasks[0]] else []) + Queue(tasks[1..])
  }

  /** `tasks.filter(task => task.staleness === 0)`: the sidebar's tasks before sorting. */
  function Fresh(tasks: seq<TaskCard>): (r: seq<TaskCard>)
    ensures forall t :: t in r <==> t in tasks && t.staleness == 0.0
    ensures |r| <= |tasks|
  {
    if tasks == [] then []
    else (if tasks[0].staleness == 0.0 then [tasks[0]] else []) + Fresh(tasks[1..])
  }

  /** Every task is shown exactly once: the queue and the fresh tasks split the list. */
  lemma {:induction false} QueueAndFreshPartition(tasks: seq<TaskCard>)
    ensures multiset(Queue(tasks)) + multiset(Fresh(tasks)) == multiset(tasks)
  {
    if tasks != [] {
      var t, rest := tasks[0], tasks[1..];
      QueueAndFreshPartition(rest);
      assert multiset(tasks) == multiset{t} + multiset(rest) by {
        assert tasks == [t] + rest;
      }
      if t.staleness != 0.0 {
        assert Queue(tasks) == [t] + Queue(rest);
        assert Fresh(tasks) == [] + Fresh(rest);
      } else {
        assert Queue(tasks) == [] + Queue(rest);
        assert Fresh(tasks) == [t] + Fresh(rest);
      }
    }
  }

  /** String order by character codes, standing in for `localeCompare`. */
  predicate NameLe(a: string, b: string) {
    a == [] || (b != [] && (a[0] < b[0] || (a[0] == b[0] && NameLe(a[1..], b[1..]))))
  }

  lemma {:induction false} NameLeTotal(a: string, b: string)
    ensures NameLe(a, b) || NameLe(b, a)
  {
    if a != [] && b != [] && a[0] == b[0] {
      NameLeTotal(a[1..], b[1..]);
    }
  }

  lemma {:induction false} NameLeTransitive(a: string, b: string, c: string)
    requires NameLe(a, b) && NameLe(b, c)
    ensures NameLe(a, c)
  {
    if a != [] && b != [] && c != [] && a[0] == b[0] && b[0] == c[0] {
      NameLeTransitive(a[1..], b[1..], c[1..]);
    }
  }

  /** The sidebar comparator as an order: frozen before not frozen, then by name. */
  predicate SidebarLe(x: TaskCard, y: TaskCard) {
    (x.frozen && !y.frozen) || (x.frozen == y.frozen && NameLe(x.taskName, y.taskName))
  }

  lemma SidebarLeTotal(x: TaskCard, y: TaskCard)
    ensures SidebarLe(x, y) || SidebarLe(y, x)
  {
    NameLeTotal(x.taskName, y.taskName);
  }

  lemma SidebarLeTransitive(x: TaskCard, y: TaskCard, z: TaskCard)
    requires SidebarLe(x, y) && SidebarLe(y, z)
    ensures SidebarLe(x, z)
  {
    if x.frozen == y.frozen && y.frozen == z.frozen {
      NameLeTransitive(x.taskName, y.taskName, z.taskName);
    }
  }

  /** Each task is at most its successor in the sidebar order. */
  predicate SidebarSorted(s: seq<TaskCard>) {
    forall i :: 0 <= i < |s| - 1 ==> SidebarLe(s[i], s[i + 1])
  }

  function Insert(x: TaskCard, s: seq<TaskCard>): (r: seq<TaskCard>)
    requires SidebarSorted(s)
    ensures SidebarSorted(r)
    ensures multiset(r) == multiset(s) + multiset{x}
    ensures |r| == |s| + 1 && (r[0] == x || (s != [] && r[0] == s[0]))
  {
    if s == [] || SidebarLe(x, s[0]) then [x] + s
    else
      SidebarLeTotal(x, s[0]);
      var rest := Insert(x, s[1..]);
      assert s == [s[0]] + s[1..];
      [s[0]] + rest
  }

  /** The sidebar's sort, on the filtered copy. */
  function SortSidebar(s: seq<TaskCard>): (r: seq<TaskCard>)
    ensures SidebarSorted(r)
    ensures multiset(r) == multiset(s)
  {
    if s == [] then []
    else
      assert s == [s[0]] + s[1..];
      Insert(s[0], SortSidebar(s[1..]))
  }

  /** The sidebar: the fresh tasks, sorted. */
  function Sidebar(tasks: seq<TaskCard>): seq<TaskCard> {
    SortSidebar(Fresh(tasks))
  }

  lemma {:induction false} SortedPairs(s: seq<TaskCard>, i: nat, j: nat)
    requires SidebarSorted(s) && i < j < |s|
    ensures SidebarLe(s[i], s[j])
    decreases j - i
  {
    if j > i + 1 {
      SortedPairs(s, i + 1, j);
      SidebarLeTransitive(s[i], s[i + 1], s[j]);
    }
  }

  /** The sidebar holds exactly the fresh tasks, frozen ones first, and names ascend within each group. */
  lemma SidebarOrder(tasks: seq<TaskCard>)
    ensures multiset(Sidebar(tasks)) == multiset(Fresh(tasks))
    ensures var s := Sidebar(tasks);
      forall i, j :: 0 <= i < j < |s| ==>
        (s[j].frozen ==> s[i].frozen) &&
        (s[i].frozen == s[j].frozen ==> NameLe(s[i].taskName, s[j].taskName))
  {
    var s := Sidebar(tasks);
    forall i, j | 0 <= i < j < |s|
      ensures (s[j].frozen ==> s[i].frozen) && (s[i].frozen == s[j].frozen ==> NameLe(s[i].taskName, s[j].taskName))
    {
      SortedPairs(s, i, j);
    }
  }

  // ---------------------------------------------------------------- empty states

  /** `noStaleTasks` holds exactly when no task has non-zero staleness. */
  lemma NoStaleTasksMeaning(tasks: seq<TaskCard>)
    ensures |Queue(tasks)| == 0 <==> forall t :: t in tasks ==> t.staleness == 0.0
  {
    if |Queue(tasks)| != 0 {
      assert Queue(tasks)[0] in Queue(tasks);
    }
  }

  /** With nothing stale, the sidebar shows every task. */
  lemma AllDoneAllFresh(tasks: seq<TaskCard>)
    requires |Queue(tasks)| == 0
    ensures multiset(Sidebar(tasks)) == multiset(tasks)
  {
    QueueAndFreshPartition(tasks);
    SidebarOrder(tasks);
    assert multiset(Queue(tasks)) == multiset{};
  }

  datatype PopupType = NoPopup | TaskDetails | CompleteTask | AwardBrowniePoints
                     | CreateScheduledTask | CreateFlexibleTask | EditFlexibleTask | EditScheduledTask

  /** `!selectedHousehold`, for a household id. */
  predicate HouseholdSelected(selectedHousehold: Option<nat>) {
    selectedHousehold.Some? && selectedHousehold.value != 0
  }

  class TasksPage {
    var tasks: seq<TaskCard>
    var noTasks: bool
    var noStaleTasks: bool
    var isInitialRender: bool
    var browniePoints: int
    var showFlipAnimation: bool
    var currentPopup: PopupType
    var selectedTask: Option<TaskCard>
    var selectedTaskId: Option<nat>

    /** The flags agree with the tasks, and the first render is over. */
    predicate Valid()
      reads this
    {
      noTasks == (|tasks| == 0) && noStaleTasks == (|Queue(tasks)| == 0) && !isInitialRender
    }

    /** The first render and its effects: the brownie-points effect only clears the first-render flag. */
    constructor ()
      ensures Valid()
      ensures tasks == [] && browniePoints == 0 && !showFlipAnimation
      ensures currentPopup == NoPopup && selectedTask.None? && selectedTaskId.None?
    {
      tasks := [];
      noTasks := true;
      noStaleTasks := true;
      isInitialRender := true;
      browniePoints := 0;
      showFlipAnimation := false;
      currentPopup := NoPopup;
      selectedTask := None;
      selectedTaskId := None;
      new;
      BrowniePointsEffect();
    }

    /** The effect on `browniePoints`: skipped on the first render and for 0 points, otherwise it starts the animation. */
    method BrowniePointsEffect()
      modifies this
      ensures !isInitialRender
      ensures showFlipAnimation == (old(showFlipAnimation) || (!old(isInitialRender) && browniePoints != 0))
      ensures tasks == old(tasks) && noTasks == old(noTasks) && noStaleTasks == old(noStaleTasks)
      ensures browniePoints == old(browniePoints) && currentPopup == old(currentPopup)
      ensures selectedTask == old(selectedTask) && selectedTaskId == old(selectedTaskId)
    {
      if isInitialRender {
        isInitialRender := false;
        return;
      }
      if browniePoints == 0 {
        return;
      }
      showFlipAnimation := true;
    }

    /** `setBrowniePoints`: the effect runs only when the value changes. */
    method SetBrowniePoints(points: int)
      requires Valid()
      modifies this
      ensures Valid()
      ensures browniePoints == points
      ensures showFlipAnimation == (old(showFlipAnimation) || (points != old(browniePoints) && points != 0))
      ensures tasks == old(tasks) && currentPopup == old(currentPopup)
      ensures selectedTask == old(selectedTask) && selectedTaskId == old(selectedTaskId)
    {
      if points != browniePoints {
        browniePoints := points;
        BrowniePointsEffect();
      }
    }

    /** The timeout that hides the animation. */
    method HideFlipAnimation()
      requires Valid()
      modifies this
      ensures Valid() && !showFlipAnimation
      ensures tasks == old(tasks) && browniePoints == old(browniePoints) && currentPopup == old(currentPopup)
      ensures selectedTask == old(selectedTask) && selectedTaskId == old(selectedTaskId)
    {
      showFlipAnimation := false;
    }

    /** `setTasks` followed by the two effects on `tasks`. */
    method SetTasks(newTasks: seq<TaskCard>)
      requires Valid()
      modifies this
      ensures Valid() && tasks == newTasks
      ensures browniePoints == old(browniePoints) && showFlipAnimation == old(showFlipAnimation)
      ensures currentPopup == old(currentPopup) && selectedTask == old(selectedTask) && selectedTaskId == old(selectedTaskId)
    {
      tasks := newTasks;
      noTasks := |tasks| == 0;
      var stale := Queue(tasks);
      noStaleTasks := |stale| == 0;
    }

    /** The "no tasks" empty state. */
    predicate ShowsNoTasks(selectedHousehold: Option<nat>)
      reads this
    {
      noTasks && HouseholdSelected(selectedHousehold)
    }

    /** The "all done" empty state. */
    predicate ShowsAllDone(selectedHousehold: Option<nat>)
      reads this
    {
      !noTasks && noStaleTasks && HouseholdSelected(selectedHousehold)
    }

    /** `handleOpenTaskDetails` and `handleOpenCompleteTaskPopup`: select the task and open the popup. */
    method OpenTaskPopup(task: TaskCard, popup: PopupType)
      requires Valid() && (popup == TaskDetails || popup == CompleteTask)
      modifies this
      ensures Valid()
      ensures selectedTask == Some(task) && selectedTaskId == Some(task.id) && currentPopup == popup
      ensures tasks == old(tasks) && browniePoints == old(browniePoints) && showFlipAnimation == old(showFlipAnimation)
    {
      selectedTask := Some(task);
      selectedTaskId := Some(task.id);
      currentPopup := popup;
    }

    /** `closeCurrentPopup`: no popup and no selected task. */
    method CloseCurrentPopup()
      requires Valid()
      modifies this
      ensures Valid()
      ensures currentPopup == NoPopup && selectedTask.None? && selectedTaskId.None?
      ensures tasks == old(tasks) && browniePoints == old(browniePoints) && showFlipAnimation == old(showFlipAnimation)
    {
      currentPopup := NoPopup;
      selectedTask := None;
      selectedTaskId := None;
    }
  }

  /** The two empty states never show together; "all done" means tasks exist and none is stale. */
  lemma EmptyStatesMeaning(page: TasksPage, selectedHousehold: Option<nat>)
    requires page.Valid()
    ensures !(page.ShowsNoTasks(selectedHousehold) && page.ShowsAllDone(selectedHousehold))
    ensures page.ShowsNoTasks(selectedHousehold) <==> page.tasks == [] && HouseholdSelected(selectedHousehold)
    ensures page.ShowsAllDone(selectedHousehold) <==>
      page.tasks != [] && (forall t :: t in page.tasks ==> t.staleness == 0.0) && HouseholdSelected(selectedHousehold)
  {
    NoStaleTasksMeaning(page.tasks);
  }

  /**
   * The leaderboard of the page: shown with a household on windows wider
   * than 800, it sorts the page's `users` in place and shows the first five.
   */
  method Leaderboard(selectedHousehold: Option<nat>, windowWidth: int, mode: ViewMode, users: array<UserStats>)
    returns (rows: Option<seq<Row>>)
    modifies users
    ensures !(HouseholdSelected(selectedHousehold) && windowWidth > 800) ==> rows.None? && users[..] == old(users[..])
    ensures HouseholdSelected(selectedHousehold) && windowWidth > 800 ==>
      Ranked(users[..], selectedHousehold.value, mode) &&
      multiset(users[..]) == old(multiset(users[..])) &&
      rows == Some(Rows(Top(users[..]), selectedHousehold.value, mode))
  {
    if !HouseholdSelected(selectedHousehold) || windowWidth <= 800 {
      return None;
    }
    var household := selectedHousehold.value;
    SortByScore(users, household, mode);
    rows := Some(Rows(Top(users[..]), household, mode));
  }
}
