/**
 * The complete-task popup: the completion-time slider and its lookup
 * table, the completion-time text sent with the work log, the user and
 * grossness toggles, and the submit handler.
 */
module CompleteTaskPopup {
  import opened Common
  import opened Text
  import opened Timedeltas
  import opened TaskUtils
  import opened IntervalForm

  /** Minutes for each slider position. */
  const CompletionTimeLookup: seq<nat> := [0, 1, 2, 5, 10, 15, 20, 30, 45, 60, 90, 120]

  /** Each further slider position is a longer time. */
  lemma LookupIncreasing(i: nat, j: nat)
    requires i < j < |CompletionTimeLookup|
    ensures CompletionTimeLookup[i] < CompletionTimeLookup[j]
  {
  }

  /** `0 ${floor(m / 60)}:${m % 60}:00`. */
  function CompletionTimeText(minutes: nat): string {
    "0 " + IntToString(minutes / 60) + ":" + IntToString(minutes % 60) + ":00"
  }

  /** The completion-time text is the interval text of zero days, the hours and the remaining minutes. */
  lemma CompletionTimeIsInterval(minutes: nat)
    ensures CompletionTimeText(minutes) == IntervalText(Interval(Num(0), Num(minutes / 60), Num(minutes % 60)))
  {
    assert IntToString(0) == ['0'];
    assert "0 " == ['0'] + " ";
  }

  /** The backend's `parse_duration` reads the completion-time text as exactly the given minutes. */
  lemma CompletionTimeParses(minutes: nat)
    requires InTimedeltaRange(60 * minutes)
    ensures ParseDuration(CompletionTimeText(minutes)) == Success(60 * minutes)
  {
    var i := Interval(Num(0), Num(minutes / 60), Num(minutes % 60));
    CompletionTimeIsInterval(minutes);
    assert TotalMinutes(i) == minutes;
    IntervalTextParses(i);
  }

  /** Every slider position sends the minutes it shows. */
  lemma SliderTimesParse(position: nat)
    requires position < |CompletionTimeLookup|
    ensures ParseDuration(CompletionTimeText(CompletionTimeLookup[position])) == Success(60 * CompletionTimeLookup[position])
  {
    CompletionTimeParses(CompletionTimeLookup[position]);
  }

  predicate NoDuplicates(xs: seq<nat>) {
    forall i, j :: 0 <= i < j < |xs| ==> xs[i] != xs[j]
  }

  /** `xs.filter(x => x !== id)`. */
  function Without(xs: seq<nat>, id: nat): (r: seq<nat>)
    ensures forall x :: x in r <==> x in xs && x != id
    ensures |r| <= |xs|
    ensures id !in xs ==> r == xs
    ensures NoDuplicates(xs) ==> NoDuplicates(r)
  {
    if xs == [] then []
    else if xs[0] == id then Without(xs[1..], id)
    else
      var rest := Without(xs[1..], id);
      assert NoDuplicates(xs) ==> NoDuplicates(xs[1..]) && xs[0] !in rest by {
        if NoDuplicates(xs) {
          assert forall k :: 0 < k < |xs| ==> xs[k] != xs[0];
          assert xs[0] !in xs[1..];
        }
      }
      [xs[0]] + rest
  }

  /** A user button: remove the user when selected, append them otherwise. */
  function Toggle(users: seq<nat>, id: nat): (r: seq<nat>)
    ensures id in r <==> id !in users
    ensures forall x :: x != id ==> (x in r <==> x in users)
    ensures NoDuplicates(users) ==> NoDuplicates(r)
  {
    if id in users then Without(users, id) else users + [id]
  }

  /** Removing a selected user leaves nobody exactly when that user was the only one selected. */
  lemma WithoutEmpty(users: seq<nat>, id: nat)
    requires NoDuplicates(users) && id in users
    ensures Without(users, id) == [] <==> users == [id]
  {
    if users != [id] {
      var k :| 0 <= k < |users| && users[k] == id;
      assert |users| >= 2 by {
        assert |users| == 1 ==> users == [id];
      }
      var other := if k == 0 then 1 else 0;
      assert users[other] != id;
      assert users[other] in Without(users, id);
    }
  }

  /** Selecting a user and pressing the button again gives the same selection back. */
  lemma ToggleTwice(users: seq<nat>, id: nat)
    requires id !in users
    ensures Toggle(Toggle(users, id), id) == users
  {
    WithoutLast(users, id);
  }

  lemma {:induction false} WithoutLast(users: seq<nat>, id: nat)
    requires id !in users
    ensures Without(users + [id], id) == users
  {
    if users != [] {
      assert (users + [id])[1..] == users[1..] + [id];
      WithoutLast(users[1..], id);
    }
  }

  /** Deselecting and selecting again keeps who is selected, with the user moved to the end. */
  lemma ToggleTwiceSelected(users: seq<nat>, id: nat)
    requires id in users
    ensures Toggle(Toggle(users, id), id) == Without(users, id) + [id]
    ensures forall x :: x in Toggle(Toggle(users, id), id) <==> x in users
  {
  }

  /** A grossness emoji: clicking the current level clears it, any other sets it. */
  function NextGrossness(grossness: nat, num: nat): (r: nat)
    requires 1 <= num <= 5
    ensures r <= 5
    ensures r == 0 <==> grossness == num
    ensures r != 0 ==> r == num
  {
    if grossness == num then 0 else num
  }

  /** The arguments of `createWorkLog`. */
  datatype WorkLogRequest = WorkLogRequest(household: nat, taskId: nat, completionTime: string, completionUsers: seq<nat>, grossness: nat)

  // ---------------------------------------------------------------- createWorkLog

  /** How one POST of a work log ends: created (201), another status, or an exception. */
  datatype PostOutcome = Created | OtherStatus | Threw

  /** What `createWorkLog` resolves to: a number of points, `null`, or the `undefined` of a bare `return`. */
  datatype ApiAnswer = Points(points: int) | JsNull | JsUndefined

  /** JavaScript `Math.round`: the nearest integer, halves rounded up. */
  function JsRound(x: real): (n: int)
    ensures x - 0.5 < n as real <= x + 0.5
  {
    (x + 0.5).Floor
  }

  /**
   * The answer of `createWorkLog`: `undefined` without a household, when the
   * points request throws, or when a work-log POST answers with a status
   * other than 201; otherwise the rounded points. A POST that throws is
   * logged and the next user is tried. It never answers `null`.
   */
  function WorkLogAnswer(hasHousehold: bool, reply: Option<real>, posts: seq<PostOutcome>): (a: ApiAnswer)
    ensures a != JsNull
    ensures a.Points? <==> hasHousehold && reply.Some? && forall i :: 0 <= i < |posts| ==> posts[i] != OtherStatus
    ensures a.Points? ==> reply.value - 0.5 < a.points as real <= reply.value + 0.5
  {
    if !hasHousehold || reply.None? || OtherStatus in posts then JsUndefined
    else Points(JsRound(reply.value))
  }

  /** `createWorkLog`, given the outcome of the points request and of each user's POST, in order. */
  method CreateWorkLog(hasHousehold: bool, reply: Option<real>, posts: seq<PostOutcome>) returns (a: ApiAnswer)
    ensures a == WorkLogAnswer(hasHousehold, reply, posts)
  {
    if !hasHousehold {
      return JsUndefined;
    }
    if reply.None? {
      return JsUndefined;
    }
    var points := JsRound(reply.value);
    for i := 0 to |posts|
      invariant OtherStatus !in posts[..i]
    {
      if posts[i] == OtherStatus {
        return JsUndefined;
      }
    }
    assert posts[..|posts|] == posts;
    return Points(points);
  }

  /** The popup's guard `browniePoints === null` as written: only `null` keeps the popup open. */
  predicate ClosesAsWritten(a: ApiAnswer) {
    a != JsNull
  }

  /** The guard as its comment intends: only brownie points close the popup. */
  predicate ClosesIntended(a: ApiAnswer) {
    a.Points?
  }

  /** As written, every failure of `createWorkLog` answers `undefined`, which passes the guard and closes the popup. */
  lemma FailedRequestClosesAsWritten(hasHousehold: bool, reply: Option<real>, posts: seq<PostOutcome>)
    requires !hasHousehold || reply.None? || OtherStatus in posts
    ensures WorkLogAnswer(hasHousehold, reply, posts) == JsUndefined
    ensures ClosesAsWritten(WorkLogAnswer(hasHousehold, reply, posts))
  {
  }

  /** With the intended guard, the popup closes exactly when every request succeeded. */
  lemma ClosesIntendedIffSuccess(hasHousehold: bool, reply: Option<real>, posts: seq<PostOutcome>)
    ensures ClosesIntended(WorkLogAnswer(hasHousehold, reply, posts)) <==>
      hasHousehold && reply.Some? && OtherStatus !in posts
  {
  }

  class Popup {
    var completionUsers: seq<nat>
    var grossness: nat
    var completionTime: nat

    /** The selection has no repeats, grossness is a level from 0 to 5 and the slider is in range. */
    predicate Valid()
      reads this
    {
      NoDuplicates(completionUsers) && grossness <= 5 && completionTime < |CompletionTimeLookup|
    }

    constructor ()
      ensures completionUsers == [] && grossness == 0 && completionTime == 0
      ensures Valid()
    {
      completionUsers := [];
      grossness := 0;
      completionTime := 0;
    }

    /** The submit button is disabled while nobody is selected. */
    predicate SubmitDisabled()
      reads this
    {
      |completionUsers| == 0
    }

    method ToggleUser(id: nat)
      requires Valid()
      modifies this
      ensures Valid()
      ensures completionUsers == Toggle(old(completionUsers), id)
      ensures SubmitDisabled() <==> old(completionUsers) == [id]
      ensures grossness == old(grossness) && completionTime == old(completionTime)
    {
      if id in completionUsers {
        WithoutEmpty(completionUsers, id);
        completionUsers := Without(completionUsers, id);
      } else {
        completionUsers := completionUsers + [id];
      }
    }

    method ClickGrossness(num: nat)
      requires Valid() && 1 <= num <= 5
      modifies this
      ensures Valid()
      ensures grossness == NextGrossness(old(grossness), num)
      ensures completionUsers == old(completionUsers) && completionTime == old(completionTime)
    {
      grossness := if grossness == num then 0 else num;
    }

    /** The range input only offers the positions of the lookup table. */
    method SetCompletionTime(position: nat)
      requires Valid() && position < |CompletionTimeLookup|
      modifies this
      ensures Valid()
      ensures completionTime == position
      ensures completionUsers == old(completionUsers) && grossness == old(grossness)
    {
      completionTime := position;
    }

    /** The request `handleCreateWorkLog` sends: the slider's minutes as a duration text, the selection and the grossness. */
    function Request(household: nat, taskId: nat): WorkLogRequest
      reads this
      requires completionTime < |CompletionTimeLookup|
    {
      WorkLogRequest(household, taskId, CompletionTimeText(CompletionTimeLookup[completionTime]), completionUsers, grossness)
    }

    /**
     * `handleCreateWorkLog` as written, given what `createWorkLog` answers.
     * Anything but `null`, including the `undefined` of a failed request, is
     * passed up, clears the selection and closes the popup. The form can only
     * be submitted while its button is enabled, that is while somebody is
     * selected.
     */
    method HandleCreateWorkLog(household: nat, taskId: nat, answer: ApiAnswer)
      returns (request: WorkLogRequest, passedUp: Option<ApiAnswer>, closed: bool)
      requires Valid() && !SubmitDisabled()
      modifies this
      ensures Valid()
      ensures |request.completionUsers| > 0
      ensures request == old(Request(household, taskId))
      ensures closed == ClosesAsWritten(answer) && SubmitDisabled() == closed
      ensures passedUp == if closed then Some(answer) else None
      ensures completionUsers == if closed then [] else old(completionUsers)
      ensures grossness == old(grossness) && completionTime == old(completionTime)
    {
      var minutes := CompletionTimeLookup[completionTime];
      var text := "0 " + IntToString(minutes / 60) + ":" + IntToString(minutes % 60) + ":00";
      request := WorkLogRequest(household, taskId, text, completionUsers, grossness);
      if answer == JsNull {
        return request, None, false;
      }
      passedUp := Some(answer);
      completionUsers := [];
      closed := true;
    }

    /** `handleCreateWorkLog` with the intended guard: a failed request keeps the popup open and the selection intact. */
    method HandleCreateWorkLogIntended(household: nat, taskId: nat, answer: ApiAnswer)
      returns (request: WorkLogRequest, passedUp: Option<ApiAnswer>, closed: bool)
      requires Valid() && !SubmitDisabled()
      modifies this
      ensures Valid()
      ensures request == old(Request(household, taskId))
      ensures closed == ClosesIntended(answer) && SubmitDisabled() == closed
      ensures passedUp == if closed then Some(answer) else None
      ensures completionUsers == if closed then [] else old(completionUsers)
      ensures grossness == old(grossness) && completionTime == old(completionTime)
    {
      request := Request(household, taskId);
      if !answer.Points? {
        return request, None, false;
      }
      passedUp := Some(answer);
      completionUsers := [];
      closed := true;
    }
  }
}
