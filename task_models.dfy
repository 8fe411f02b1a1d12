/**
 * The task models of tasks/models.py: the staleness of flexible and
 * scheduled tasks, their mean completion time, the per-household
 * brownie-point ledgers kept on each user, the work-log save that stamps a
 * task and credits its user, and the lookup of a task by id across kinds.
 *
 * Times are whole seconds on one clock. `now` is a parameter, and so is a
 * scheduled task's `last_due`, which the source obtains from the cron
 * library.
 */
module TaskModels {
  import opened Common
  import opened Text
  import opened Timedeltas

  // ---------------------------------------------------------------- staleness

  /** `FlexibleTask.staleness`: 0 before `minInterval` has elapsed, 1 after `maxInterval`, a ramp in between. */
  function FlexibleStaleness(frozen: bool, now: int, lastCompleted: int, minInterval: int, maxInterval: int): (r: Result<real, PyError>)
    ensures r.Failure? <==> !frozen && now - lastCompleted == minInterval == maxInterval
    ensures r.Failure? ==> r.error == ZeroDivisionError
  {
    var elapsed := now - lastCompleted;
    if frozen then Success(0.0)
    else if elapsed < minInterval then Success(0.0)
    else if elapsed > maxInterval then Success(1.0)
    else if maxInterval - minInterval == 0 then Failure(ZeroDivisionError)
    else Success((elapsed - minInterval) as real / (maxInterval - minInterval) as real)
  }

  /** A frozen task, or one done less than `minInterval` ago, is fresh; one done more than `maxInterval` ago is fully stale. */
  lemma FlexibleThresholds(frozen: bool, now: int, lastCompleted: int, minInterval: int, maxInterval: int)
    ensures frozen || now - lastCompleted < minInterval ==>
      FlexibleStaleness(frozen, now, lastCompleted, minInterval, maxInterval) == Success(0.0)
    ensures !frozen && now - lastCompleted >= minInterval && now - lastCompleted > maxInterval ==>
      FlexibleStaleness(frozen, now, lastCompleted, minInterval, maxInterval) == Success(1.0)
  {
  }

  /** Between the thresholds, with `minInterval < maxInterval`, it is the elapsed fraction of the gap, in [0, 1]. */
  lemma FlexibleRamp(now: int, lastCompleted: int, minInterval: int, maxInterval: int)
    requires minInterval < maxInterval
    requires minInterval <= now - lastCompleted <= maxInterval
    ensures var r := FlexibleStaleness(false, now, lastCompleted, minInterval, maxInterval);
            r == Success((now - lastCompleted - minInterval) as real / (maxInterval - minInterval) as real) &&
            0.0 <= r.value <= 1.0
  {
    var e, w := now - lastCompleted - minInterval, maxInterval - minInterval;
    FractionInUnit(e, w);
  }

  lemma FractionInUnit(part: int, whole: int)
    requires 0 <= part <= whole && 0 < whole
    ensures 0.0 <= part as real / whole as real <= 1.0
  {
    DivMonotone(part as real, whole as real, whole as real);
  }

  lemma DivMonotone(x: real, y: real, d: real)
    requires 0.0 <= x <= y && 0.0 < d
    ensures 0.0 <= x / d <= y / d
  {
    assert y / d - x / d == (y - x) / d;
  }

  /** With `minInterval < maxInterval`, an unfrozen task never gets fresher as time passes. */
  lemma FlexibleMonotone(now1: int, now2: int, lastCompleted: int, minInterval: int, maxInterval: int)
    requires minInterval < maxInterval && now1 <= now2
    ensures FlexibleStaleness(false, now1, lastCompleted, minInterval, maxInterval).value
         <= FlexibleStaleness(false, now2, lastCompleted, minInterval, maxInterval).value
  {
    var w := maxInterval - minInterval;
    var e1, e2 := now1 - lastCompleted, now2 - lastCompleted;
    if minInterval <= e1 <= maxInterval {
      FlexibleRamp(now1, lastCompleted, minInterval, maxInterval);
      if e2 <= maxInterval {
        FlexibleRamp(now2, lastCompleted, minInterval, maxInterval);
        DivMonotone((e1 - minInterval) as real, (e2 - minInterval) as real, w as real);
      }
    } else if e1 < minInterval && e2 <= maxInterval && minInterval <= e2 {
      FlexibleRamp(now2, lastCompleted, minInterval, maxInterval);
    }
  }

  /**
   * `ScheduledTask.staleness`: fresh when done after the last due date, or
   * before it by less than `maxInterval`; otherwise it ramps from the due
   * date and reaches 1 once `maxInterval` has passed.
   */
  function ScheduledStaleness(frozen: bool, now: int, lastCompleted: int, lastDue: int, maxInterval: int): (r: Result<real, PyError>)
    ensures r.Failure? <==> !frozen && lastCompleted <= lastDue && now <= lastDue && maxInterval == 0
    ensures r.Failure? ==> r.error == ZeroDivisionError
  {
    if frozen then Success(0.0)
    else if lastCompleted > lastDue then Success(0.0)
    else if lastCompleted < lastDue && lastDue - lastCompleted < maxInterval then Success(0.0)
    else if now > lastDue + maxInterval then Success(1.0)
    else if maxInterval == 0 then Failure(ZeroDivisionError)
    else Success((now - lastDue) as real / maxInterval as real)
  }

  /** The fresh cases: frozen, done since the due date, or done within `maxInterval` (strictly) before it. */
  lemma ScheduledFresh(frozen: bool, now: int, lastCompleted: int, lastDue: int, maxInterval: int)
    requires frozen || lastCompleted > lastDue || (lastCompleted < lastDue && lastDue - lastCompleted < maxInterval)
    ensures ScheduledStaleness(frozen, now, lastCompleted, lastDue, maxInterval) == Success(0.0)
  {
  }

  /**
   * Otherwise the task is fully stale once `maxInterval` has passed since
   * the due date, and before that it is the elapsed fraction of
   * `maxInterval`, in [0, 1] when `lastDue <= now`. Completion exactly at
   * the due date, or exactly `maxInterval` before it, is not fresh.
   */
  lemma ScheduledRampAndClamp(now: int, lastCompleted: int, lastDue: int, maxInterval: int)
    requires lastCompleted == lastDue || (lastCompleted < lastDue && lastDue - lastCompleted >= maxInterval)
    requires lastDue <= now && 0 < maxInterval
    ensures var r := ScheduledStaleness(false, now, lastCompleted, lastDue, maxInterval);
            r.Success? && 0.0 <= r.value <= 1.0
    ensures now > lastDue + maxInterval ==> ScheduledStaleness(false, now, lastCompleted, lastDue, maxInterval) == Success(1.0)
    ensures now <= lastDue + maxInterval ==>
      ScheduledStaleness(false, now, lastCompleted, lastDue, maxInterval) == Success((now - lastDue) as real / maxInterval as real)
  {
    if now <= lastDue + maxInterval {
      FractionInUnit(now - lastDue, maxInterval);
    }
  }

  /** A task whose `maxInterval` is zero and that is neither fresh nor overdue divides by zero. */
  lemma ScheduledZeroInterval(now: int, lastCompleted: int, lastDue: int)
    requires lastCompleted <= lastDue && now <= lastDue
    ensures ScheduledStaleness(false, now, lastCompleted, lastDue, 0) == Failure(ZeroDivisionError)
  {
  }

  /** With `lastDue <= now` and `maxInterval > 0`, a scheduled task never gets fresher as time passes. */
  lemma ScheduledMonotone(now1: int, now2: int, lastCompleted: int, lastDue: int, maxInterval: int)
    requires lastDue <= now1 <= now2 && 0 < maxInterval
    ensures ScheduledStaleness(false, now1, lastCompleted, lastDue, maxInterval).value
         <= ScheduledStaleness(false, now2, lastCompleted, lastDue, maxInterval).value
  {
    if lastCompleted == lastDue || (lastCompleted < lastDue && lastDue - lastCompleted >= maxInterval) {
      ScheduledRampAndClamp(now1, lastCompleted, lastDue, maxInterval);
      ScheduledRampAndClamp(now2, lastCompleted, lastDue, maxInterval);
      if now2 <= lastDue + maxInterval {
        DivMonotone((now1 - lastDue) as real, (now2 - lastDue) as real, maxInterval as real);
      }
    }
  }

  // ---------------------------------------------------------------- mean completion time

  /**
   * `mean_completion_time` in seconds: the `timedelta` sum of the logged
   * times divided by their count (to the microsecond), or 0 with no logs.
   */
  function MeanCompletionTime(times: seq<int>): (r: Result<real, PyError>)
    ensures r.Failure? ==> r.error == OverflowError
    ensures r.Success? <==> PartialSumsInRange(0, times)
    ensures times == [] ==> r == Success(0.0)
  {
    if times == [] then Success(0.0)
    else match Accumulate(0, times)
      case Failure(e) => Failure(e)
      case Success(total) => Success(AverageMicros(total, |times|) as real / MicrosPerSecond as real)
  }

  /**
   * A log of nonnegative times of at most `hi` seconds each, whose bound
   * `hi * count` stays below the `timedelta` limit, has a mean.
   */
  lemma MeanCompletionTimeOfBoundedLog(times: seq<int>, hi: int)
    requires forall i :: 0 <= i < |times| ==> 0 <= times[i] <= hi
    requires hi * |times| < (MaxDays + 1) * SecondsPerDay
    ensures MeanCompletionTime(times).Success?
  {
    forall k | 1 <= k <= |times|
      ensures InTimedeltaRange(SumFrom(times[..k]))
    {
      var prefix := times[..k];
      SumFromIsSum(prefix);
      SumBounds(prefix, 0, hi);
      assert hi * k <= hi * |times| by {
        if hi > 0 {
          MulStepLe(k, |times|, hi);
        }
      }
      BelowLimitInRange(SumFrom(prefix));
    }
  }

  lemma MulStepLe(x: int, y: int, b: int)
    requires x <= y && 0 < b
    ensures b * x <= b * y
  {
    if x < y {
      MulStep(x, y, b);
    }
  }

  lemma BelowLimitInRange(seconds: int)
    requires 0 <= seconds < (MaxDays + 1) * SecondsPerDay
    ensures InTimedeltaRange(seconds)
  {
    var d := seconds / SecondsPerDay;
    if d > MaxDays {
      MulStep(MaxDays, d, SecondsPerDay);
    }
  }

  /** The mean of times that all lie in [lo, hi] lies in [lo, hi] too. */
  lemma MeanCompletionTimeBounds(times: seq<int>, lo: int, hi: int)
    requires times != [] && MeanCompletionTime(times).Success?
    requires forall i :: 0 <= i < |times| ==> lo <= times[i] <= hi
    ensures lo as real <= MeanCompletionTime(times).value <= hi as real
  {
    var total := Accumulate(0, times).value;
    SumFromIsSum(times);
    SumBounds(times, lo, hi);
    AverageMicrosBounds(total, |times|, lo, hi);
    var q := AverageMicros(total, |times|);
    MicrosToSeconds(q, lo, hi);
  }

  lemma MicrosToSeconds(q: int, lo: int, hi: int)
    requires lo * MicrosPerSecond <= q <= hi * MicrosPerSecond
    ensures lo as real <= q as real / MicrosPerSecond as real <= hi as real
  {
    var m := MicrosPerSecond as real;
    assert (lo as real * m) / m == lo as real;
    assert (hi as real * m) / m == hi as real;
    DivMonotoneSigned(lo as real * m, q as real, m);
    DivMonotoneSigned(q as real, hi as real * m, m);
  }

  lemma DivMonotoneSigned(x: real, y: real, d: real)
    requires x <= y && 0.0 < d
    ensures x / d <= y / d
  {
    assert y / d - x / d == (y - x) / d;
  }

  /** When every log took `k` seconds on average exactly (the count divides the total), the mean is exactly `k`. */
  lemma MeanCompletionTimeExact(times: seq<int>, k: int)
    requires times != [] && Accumulate(0, times) == Success(k * |times|)
    ensures MeanCompletionTime(times) == Success(k as real)
  {
    AverageMicrosBounds(k * |times|, |times|, k, k);
    assert AverageMicros(k * |times|, |times|) == k * MicrosPerSecond;
    assert (k as real * MicrosPerSecond as real) / MicrosPerSecond as real == k as real;
  }

  // ---------------------------------------------------------------- ledgers

  /** A user with a brownie-point credit and debit per household, keyed by the household id as a string. */
  class User {
    var credit: map<string, real>
    var debit: map<string, real>

    constructor (credit: map<string, real>, debit: map<string, real>)
      ensures this.credit == credit && this.debit == debit
    {
      this.credit := credit;
      this.debit := debit;
    }
  }

  /** The ledger key of a household: `str(household.id)`. */
  function LedgerKey(householdId: nat): string {
    NatToString(householdId)
  }

  /** A ledger with `key` seeded to 0.0 unless it is already present. */
  function Seed(ledger: map<string, real>, key: string): (r: map<string, real>)
    ensures key in r && r.Keys == ledger.Keys + {key}
  {
    if key in ledger then ledger else ledger[key := 0.0]
  }

  /** Seeding keeps existing entries and every other key, and gives a missing key 0.0. */
  lemma SeedFrames(ledger: map<string, real>, key: string)
    ensures key in ledger ==> Seed(ledger, key)[key] == ledger[key]
    ensures key !in ledger ==> Seed(ledger, key)[key] == 0.0
    ensures forall k :: k in ledger ==> Seed(ledger, key)[k] == ledger[k]
  {
  }

  /** Seeding twice is seeding once. */
  lemma SeedIdempotent(ledger: map<string, real>, key: string)
    ensures Seed(Seed(ledger, key), key) == Seed(ledger, key)
  {
  }

  /** Distinct household ids give distinct keys, so seeding one household's key leaves another's entry alone. */
  lemma LedgerKeysDistinct(id1: nat, id2: nat, ledger: map<string, real>)
    requires id1 != id2
    ensures LedgerKey(id1) != LedgerKey(id2)
    ensures LedgerKey(id2) in ledger ==> Seed(ledger, LedgerKey(id1))[LedgerKey(id2)] == ledger[LedgerKey(id2)]
    ensures (LedgerKey(id2) in Seed(ledger, LedgerKey(id1))) == (LedgerKey(id2) in ledger)
  {
    NatToStringValue(id1);
    NatToStringValue(id2);
  }

  class Household {
    const id: nat
    var members: seq<User>

    constructor (id: nat, members: seq<User>)
      ensures this.id == id && this.members == members
    {
      this.id := id;
      this.members := members;
    }

    /** The member loop of `save` and of the `post_add` receiver: seed this household's key in both ledgers. */
    method SeedMembers()
      modifies set u | u in members
      ensures forall u :: u in members ==>
        u.credit == Seed(old(u.credit), LedgerKey(id)) && u.debit == Seed(old(u.debit), LedgerKey(id))
    {
      var key := LedgerKey(id);
      var i := 0;
      while i < |members|
        invariant 0 <= i <= |members|
        invariant forall u :: u in members ==>
          if u in members[..i] then u.credit == Seed(old(u.credit), key) && u.debit == Seed(old(u.debit), key)
          else u.credit == old(u.credit) && u.debit == old(u.debit)
      {
        var user := members[i];
        SeedIdempotent(old(user.credit), key);
        SeedIdempotent(old(user.debit), key);
        if key !in user.credit {
          user.credit := user.credit[key := 0.0];
        }
        if key !in user.debit {
          user.debit := user.debit[key := 0.0];
        }
        assert members[..i + 1] == members[..i] + [user];
        i := i + 1;
      }
      assert members[..i] == members;
    }

    /** `Household.save`: after the row is stored, every member gets this household's ledger entries. */
    method Save()
      modifies set u | u in members
      ensures forall u :: u in members ==>
        u.credit == Seed(old(u.credit), LedgerKey(id)) && u.debit == Seed(old(u.debit), LedgerKey(id))
    {
      SeedMembers();
    }

    /**
     * The `m2m_changed` receiver: on "post_add" it runs the member loop once
     * per member (the outer loop variable is shadowed), which seeds each
     * member exactly as one pass would; any other action changes nothing.
     */
    method UpdateBrowniePoints(action: string) returns (responded: bool)
      modifies set u | u in members
      ensures responded <==> action == "post_add"
      ensures action == "post_add" ==> forall u :: u in members ==>
        u.credit == Seed(old(u.credit), LedgerKey(id)) && u.debit == Seed(old(u.debit), LedgerKey(id))
      ensures action != "post_add" ==> forall u :: u in members ==> u.credit == old(u.credit) && u.debit == old(u.debit)
    {
      if action != "post_add" {
        return false;
      }
      var key := LedgerKey(id);
      var k := 0;
      while k < |members|
        invariant 0 <= k <= |members|
        invariant forall u :: u in members ==>
          if k == 0 then u.credit == old(u.credit) && u.debit == old(u.debit)
          else u.credit == Seed(old(u.credit), key) && u.debit == Seed(old(u.debit), key)
      {
        SeedMembers();
        k := k + 1;
      }
      return true;
    }
  }

  // ---------------------------------------------------------------- work logs

  datatype TaskKind = Flexible | Scheduled

  /** A stored task of either kind: the fields a work log touches. */
  class Task {
    const id: string
    const kind: TaskKind
    const household: Household
    var lastCompleted: int

    constructor (id: string, kind: TaskKind, household: Household, lastCompleted: int)
      ensures this.id == id && this.kind == kind && this.household == household && this.lastCompleted == lastCompleted
    {
      this.id := id;
      this.kind := kind;
      this.household := household;
      this.lastCompleted := lastCompleted;
    }
  }

  class WorkLog {
    const user: User
    /** The logged task, or null once it has been deleted. */
    const task: Task?
    const browniePoints: int
    /** The primary key: None until the log is first stored. */
    var pk: Option<nat>

    constructor (user: User, task: Task?, browniePoints: int)
      ensures this.user == user && this.task == task && this.browniePoints == browniePoints && this.pk == None
    {
      this.user := user;
      this.task := task;
      this.browniePoints := browniePoints;
      this.pk := None;
    }

    /**
     * `WorkLog.save` at time `now`, with `newPk` the key the database would
     * assign. The task (when it still exists) is stamped; a new log credits
     * its points to the user's entry for the task's household. A deleted
     * task raises AttributeError, which is caught: nothing is credited but
     * the log is stored. A missing ledger entry raises KeyError, which is
     * not caught: the stamp stays and the log is not stored.
     */
    method Save(now: int, newPk: nat) returns (outcome: Result<(), PyError>)
      modifies this, task, user
      ensures task != null ==> task.lastCompleted == now
      ensures user.debit == old(user.debit)
      ensures var key := if task == null then "" else LedgerKey(task.household.id);
        outcome.Failure? <==> old(pk).None? && task != null && key !in old(user.credit)
      ensures outcome.Failure? ==> outcome.error == KeyError && user.credit == old(user.credit) && pk == old(pk)
      ensures outcome.Success? ==> pk == (if old(pk).None? then Some(newPk) else old(pk))
      ensures outcome.Success? && old(pk).None? && task != null ==>
        var key := LedgerKey(task.household.id);
        user.credit == old(user.credit)[key := old(user.credit)[key] + browniePoints as real]
      ensures old(pk).Some? || task == null ==> user.credit == old(user.credit)
    {
      if task != null {
        task.lastCompleted := now;
      }
      if pk.None? && task != null {
        var key := LedgerKey(task.household.id);
        if key !in user.credit {
          return Failure(KeyError);
        }
        user.credit := user.credit[key := user.credit[key] + browniePoints as real];
      }
      if pk.None? {
        pk := Some(newPk);
      }
      return Success(());
    }
  }

  /** A credit changes only the credited key: every other entry keeps its value. */
  lemma CreditFrames(ledger: map<string, real>, key: string, points: int)
    requires key in ledger
    ensures var after := ledger[key := ledger[key] + points as real];
            after.Keys == ledger.Keys && after[key] - ledger[key] == points as real &&
            forall k :: k in ledger && k != key ==> after[k] == ledger[k]
  {
  }

  // ---------------------------------------------------------------- get_task_by_id

  /** The task kinds in the order `get_task_by_id` probes them. */
  const TaskModelsOrder: seq<TaskKind> := [Flexible, Scheduled]

  /** The first kind in `kinds` whose table holds `id` and whose content type exists, with that task and type. */
  function FirstHit(kinds: seq<TaskKind>, tables: map<TaskKind, map<string, Task>>, contentTypes: map<TaskKind, int>, id: string): Option<(Task, int)>
  {
    if kinds == [] then None
    else
      var k := kinds[0];
      if k in tables && id in tables[k] && k in contentTypes then Some((tables[k][id], contentTypes[k]))
      else FirstHit(kinds[1..], tables, contentTypes, id)
  }

  predicate Hit(k: TaskKind, tables: map<TaskKind, map<string, Task>>, contentTypes: map<TaskKind, int>, id: string) {
    k in tables && id in tables[k] && k in contentTypes
  }

  /** `FirstHit` finds something exactly when some kind is a hit, and what it finds is the earliest hit. */
  lemma {:induction false} FirstHitIsFirst(kinds: seq<TaskKind>, tables: map<TaskKind, map<string, Task>>, contentTypes: map<TaskKind, int>, id: string)
    ensures FirstHit(kinds, tables, contentTypes, id).None? <==> forall i :: 0 <= i < |kinds| ==> !Hit(kinds[i], tables, contentTypes, id)
    ensures FirstHit(kinds, tables, contentTypes, id).Some? ==>
      exists i :: 0 <= i < |kinds| && Hit(kinds[i], tables, contentTypes, id) &&
        (forall j :: 0 <= j < i ==> !Hit(kinds[j], tables, contentTypes, id)) &&
        FirstHit(kinds, tables, contentTypes, id).value == (tables[kinds[i]][id], contentTypes[kinds[i]])
    decreases |kinds|
  {
    if kinds != [] && !Hit(kinds[0], tables, contentTypes, id) {
      FirstHitIsFirst(kinds[1..], tables, contentTypes, id);
      if FirstHit(kinds, tables, contentTypes, id).Some? {
        var i :| 0 <= i < |kinds[1..]| && Hit(kinds[1..][i], tables, contentTypes, id) &&
          (forall j :: 0 <= j < i ==> !Hit(kinds[1..][j], tables, contentTypes, id)) &&
          FirstHit(kinds[1..], tables, contentTypes, id).value == (tables[kinds[1..][i]][id], contentTypes[kinds[1..][i]]);
        assert Hit(kinds[i + 1], tables, contentTypes, id);
        assert forall j :: 0 <= j < i + 1 ==> !Hit(kinds[j], tables, contentTypes, id) by {
          forall j | 0 <= j < i + 1
            ensures !Hit(kinds[j], tables, contentTypes, id)
          {
            if j > 0 {
              assert kinds[j] == kinds[1..][j - 1];
            }
          }
        }
      } else {
        forall i | 0 <= i < |kinds|
          ensures !Hit(kinds[i], tables, contentTypes, id)
        {
          if i > 0 {
            assert kinds[i] == kinds[1..][i - 1];
          }
        }
      }
    }
  }

  /** A hexadecimal digit, as `int(.., 16)` reads one. */
  predicate IsHexDigit(c: char) {
    '0' <= c <= '9' || 'a' <= c <= 'f' || 'A' <= c <= 'F'
  }

  /** `s.strip('{}')`: braces removed from both ends. */
  function StripBraces(s: string): (r: string)
    ensures |r| <= |s|
    decreases |s|
  {
    if |s| > 0 && (s[0] == '{' || s[0] == '}') then StripBraces(s[1..])
    else if |s| > 0 && (s[|s| - 1] == '{' || s[|s| - 1] == '}') then StripBraces(s[..|s| - 1])
    else s
  }

  /** `s.replace('-', '')`. */
  function DropHyphens(s: string): (r: string)
    ensures |r| <= |s| && '-' !in r
    ensures forall c :: c in r <==> c in s && c != '-'
  {
    if s == [] then [] else (if s[0] == '-' then [] else [s[0]]) + DropHyphens(s[1..])
  }

  /**
   * Whether a `UUIDField` accepts the text as a UUID: braces at the ends
   * and hyphens anywhere are dropped, and 32 hexadecimal digits must remain.
   */
  predicate IsUuidText(s: string) {
    var h := DropHyphens(StripBraces(s));
    |h| == 32 && forall i :: 0 <= i < |h| ==> IsHexDigit(h[i])
  }

  /**
   * `get_task_by_id`: probe each kind in order, skipping a kind without the
   * row or without a content type, and return the first match, or
   * `(None, None)`. An id that is not a UUID text makes the first probe's
   * `objects.get` raise a ValidationError, which no handler catches.
   */
  method GetTaskById(tables: map<TaskKind, map<string, Task>>, contentTypes: map<TaskKind, int>, id: string)
    returns (r: Result<(Option<Task>, Option<int>), PyError>)
    ensures r.Failure? <==> !IsUuidText(id)
    ensures r.Failure? ==> r.error == ValidationError
    ensures r.Success? ==> (r.value.0.Some? <==> r.value.1.Some?)
    ensures r.Success? ==>
            var hit := FirstHit(TaskModelsOrder, tables, contentTypes, id);
            if hit.None? then r.value.0.None? && r.value.1.None?
            else r.value.0 == Some(hit.value.0) && r.value.1 == Some(hit.value.1)
  {
    var i := 0;
    while i < |TaskModelsOrder|
      invariant 0 <= i <= |TaskModelsOrder|
      invariant i > 0 ==> IsUuidText(id)
      invariant FirstHit(TaskModelsOrder, tables, contentTypes, id) == FirstHit(TaskModelsOrder[i..], tables, contentTypes, id)
    {
      var model := TaskModelsOrder[i];
      assert TaskModelsOrder[i..][1..] == TaskModelsOrder[i + 1..];
      if !IsUuidText(id) {
        return Failure(ValidationError);
      }
      if model in tables && id in tables[model] {
        if model in contentTypes {
          return Success((Some(tables[model][id]), Some(contentTypes[model])));
        }
      }
      i := i + 1;
    }
    return Success((None, None));
  }

  /** Thirty-two hexadecimal digits, with no hyphens or braces, pass the field's check. */
  lemma HexIdIsUuid(s: string)
    requires |s| == 32 && forall i :: 0 <= i < |s| ==> IsHexDigit(s[i])
    ensures IsUuidText(s)
  {
    assert StripBraces(s) == s;
    DropHyphensOfHex(s);
  }

  lemma {:induction false} DropHyphensOfHex(s: string)
    requires forall i :: 0 <= i < |s| ==> IsHexDigit(s[i])
    ensures DropHyphens(s) == s
  {
    if s != [] {
      DropHyphensOfHex(s[1..]);
    }
  }

  /** A text shorter than 32 characters, such as "xyz", is refused. */
  lemma ShortIdIsNotUuid(s: string)
    requires |s| < 32
    ensures !IsUuidText(s)
  {
  }

  /** A flexible task with the id wins over a scheduled one; with neither, the lookup finds nothing. */
  lemma GetTaskByIdOrder(tables: map<TaskKind, map<string, Task>>, contentTypes: map<TaskKind, int>, id: string)
    ensures Hit(Flexible, tables, contentTypes, id) ==>
      FirstHit(TaskModelsOrder, tables, contentTypes, id) == Some((tables[Flexible][id], contentTypes[Flexible]))
    ensures !Hit(Flexible, tables, contentTypes, id) && Hit(Scheduled, tables, contentTypes, id) ==>
      FirstHit(TaskModelsOrder, tables, contentTypes, id) == Some((tables[Scheduled][id], contentTypes[Scheduled]))
    ensures !Hit(Flexible, tables, contentTypes, id) && !Hit(Scheduled, tables, contentTypes, id) ==>
      FirstHit(TaskModelsOrder, tables, contentTypes, id) == None
  {
    assert TaskModelsOrder[1..] == [Scheduled];
    assert TaskModelsOrder[1..][1..] == [];
    assert FirstHit([], tables, contentTypes, id) == None;
  }
}
