/**
 * The leaderboard of a household: each user's score in the current view
 * mode (all-time balance or the rolling seven-day points), the in-place
 * sort of the users array by that score, highest first, and the top five
 * rows the user-stats box shows.
 */
module UserStatsBox {
  import opened Common
  import opened Text

  datatype UserStats = UserStats(id: nat, username: string, credit: map<string, real>, debit: map<string, real>, rollingPoints: real)

  datatype ViewMode = Total | Rolling

  /** The mode switch. */
  function ToggledMode(mode: ViewMode): (r: ViewMode)
    ensures r != mode
  {
    if mode == Total then Rolling else Total
  }

  /** A ledger entry, with a missing household read as 0. */
  function LedgerEntry(ledger: map<string, real>, key: string): real {
    if key in ledger then ledger[key] else 0.0
  }

  /** The sort key and the shown value: `credit[h] - debit[h]` in total mode, the rolling points otherwise. */
  function Score(u: UserStats, household: nat, mode: ViewMode): real {
    match mode
    case Total => LedgerEntry(u.credit, NatToString(household)) - LedgerEntry(u.debit, NatToString(household))
    case Rolling => u.rollingPoints
  }

  /** Highest score first. */
  predicate Ranked(s: seq<UserStats>, household: nat, mode: ViewMode) {
    forall p, q :: 0 <= p < q < |s| ==> Score(s[p], household, mode) >= Score(s[q], household, mode)
  }

  method SwapAdjacent(a: array<UserStats>, j: int)
    requires 0 < j < a.Length
    modifies a
    ensures a[j - 1] == old(a[j]) && a[j] == old(a[j - 1])
    ensures forall k :: 0 <= k < a.Length && k != j - 1 && k != j ==> a[k] == old(a[k])
    ensures multiset(a[..]) == old(multiset(a[..]))
  {
    a[j - 1], a[j] := a[j], a[j - 1];
  }

  /** `users.sort((a, b) => key(b) - key(a))`, in place. */
  method SortByScore(a: array<UserStats>, household: nat, mode: ViewMode)
    modifies a
    ensures Ranked(a[..], household, mode)
    ensures multiset(a[..]) == old(multiset(a[..]))
  {
    if a.Length == 0 {
      return;
    }
    var i := 1;
    while i < a.Length
      invariant 1 <= i <= a.Length
      invariant forall p, q :: 0 <= p < q < i ==> Score(a[p], household, mode) >= Score(a[q], household, mode)
      invariant multiset(a[..]) == old(multiset(a[..]))
    {
      var j := i;
      while j > 0 && Score(a[j - 1], household, mode) < Score(a[j], household, mode)
        invariant 0 <= j <= i
        invariant forall p, q :: 0 <= p < q <= i && p != j && q != j ==> Score(a[p], household, mode) >= Score(a[q], household, mode)
        invariant forall q :: j < q <= i ==> Score(a[j], household, mode) > Score(a[q], household, mode)
        invariant multiset(a[..]) == old(multiset(a[..]))
      {
        SwapAdjacent(a, j);
        j := j - 1;
      }
      i := i + 1;
    }
  }

  /** `slice(0, 5)`. */
  function Top(s: seq<UserStats>): (r: seq<UserStats>)
    ensures |r| == if |s| < 5 then |s| else 5
    ensures r == s[..|r|]
  {
    if |s| < 5 then s else s[..5]
  }

  /** In a ranked list, nobody left out of the top five has a higher score than anybody shown. */
  lemma TopIsHighest(s: seq<UserStats>, household: nat, mode: ViewMode, x: UserStats, y: UserStats)
    requires Ranked(s, household, mode)
    requires x in Top(s) && y in s && y !in Top(s)
    ensures Score(x, household, mode) >= Score(y, household, mode)
  {
    var top := Top(s);
    var p :| 0 <= p < |top| && top[p] == x;
    var q :| 0 <= q < |s| && s[q] == y;
    assert q >= |top|;
  }

  datatype Row = Row(username: string, value: real)

  /** One row per user: the name and the score of the current mode. */
  function Rows(s: seq<UserStats>, household: nat, mode: ViewMode): (r: seq<Row>)
    ensures |r| == |s|
    ensures forall k :: 0 <= k < |s| ==> r[k] == Row(s[k].username, Score(s[k], household, mode))
  {
    if s == [] then [] else [Row(s[0].username, Score(s[0], household, mode))] + Rows(s[1..], household, mode)
  }

  /** The shown rows are ordered by the value they show. */
  lemma RowsDescend(s: seq<UserStats>, household: nat, mode: ViewMode)
    requires Ranked(s, household, mode)
    ensures var rows := Rows(Top(s), household, mode);
      forall p, q :: 0 <= p < q < |rows| ==> rows[p].value >= rows[q].value
  {
  }

  /** The box renders nothing without a household (`!selectedHousehold`), on narrow windows, or without users. */
  predicate ShowsBox(selectedHousehold: Option<nat>, windowWidth: int, userCount: nat) {
    selectedHousehold.Some? && selectedHousehold.value != 0 && windowWidth > 800 && userCount != 0
  }

  /**
   * `UserStatsBox`: when it renders, it sorts the caller's `users` array in
   * place and shows the first five.
   */
  method Render(selectedHousehold: Option<nat>, windowWidth: int, mode: ViewMode, users: array<UserStats>)
    returns (rows: Option<seq<Row>>)
    modifies users
    ensures !ShowsBox(selectedHousehold, windowWidth, users.Length) ==> rows.None? && users[..] == old(users[..])
    ensures ShowsBox(selectedHousehold, windowWidth, users.Length) ==>
      Ranked(users[..], selectedHousehold.value, mode) &&
      multiset(users[..]) == old(multiset(users[..])) &&
      rows == Some(Rows(Top(users[..]), selectedHousehold.value, mode))
  {
    if selectedHousehold.None? || selectedHousehold.value == 0 || windowWidth <= 800 || users.Length == 0 {
      return None;
    }
    var household := selectedHousehold.value;
    SortByScore(users, household, mode);
    rows := Some(Rows(Top(users[..]), household, mode));
  }
}
