/**
 * The validator list page: a status badge per validator, the status-rank
 * ordering used when the list is sorted by status, and the column header
 * clicks that choose the sort column and direction.
 */
module Validators {
  import opened Text

  datatype ValidatorInfo = ValidatorInfo(address: string, status: string, stakedAmount: string, totalRewards: string)

  // ---------------------------------------------------------------------
  // Status badge

  datatype Badge = Badge(text: string, className: string)

  const ActiveText := "\U{1F7E2} \U{D65C}\U{C131}"
  const PendingText := "\U{1F7E1} \U{B300}\U{AE30}"
  const ExitedText := "\U{26AA} \U{BE44}\U{D65C}\U{C131}"
  const GreenClass := "bg-green-100 text-green-800 dark:bg-green-900 dark:text-green-200"
  const YellowClass := "bg-yellow-100 text-yellow-800 dark:bg-yellow-900 dark:text-yellow-200"
  const GrayClass := "bg-gray-100 text-gray-800 dark:bg-gray-900 dark:text-gray-200"

  /** `getStatusBadge`: substring tests in a fixed order, else the raw text. */
  function StatusBadge(status: string): Badge {
    if Contains(status, "active_ongoing") then Badge(ActiveText, GreenClass)
    else if Contains(status, "pending") then Badge(PendingText, YellowClass)
    else if Contains(status, "exited") then Badge(ExitedText, GrayClass)
    else Badge(status, GrayClass)
  }

  /** Every character of a contained string occurs in the containing one. */
  lemma {:induction false} ContainedChars(s: string, sub: string, c: char)
    requires Contains(s, sub) && c in sub
    ensures c in s
    decreases |s|
  {
    if StartsWith(s, sub) {
      var i :| 0 <= i < |sub| && sub[i] == c;
      assert s[i] == c;
    } else {
      ContainedChars(s[1..], sub, c);
    }
  }

  /** The badge is green exactly for statuses mentioning `active_ongoing`,
      yellow exactly for the others mentioning `pending`, and gray for all
      the rest; only a status matching none of the three markers is shown
      as its own text. */
  lemma StatusBadgeMeaning(status: string)
    ensures StatusBadge(status).className == GreenClass <==> Contains(status, "active_ongoing")
    ensures StatusBadge(status).className == YellowClass <==>
      !Contains(status, "active_ongoing") && Contains(status, "pending")
    ensures StatusBadge(status).className == GrayClass <==>
      !Contains(status, "active_ongoing") && !Contains(status, "pending")
    ensures !Contains(status, "active_ongoing") && !Contains(status, "pending") && !Contains(status, "exited") ==>
      StatusBadge(status).text == status
  {
    assert |GreenClass| == |GrayClass| + 4 && |YellowClass| == |GrayClass| + 8;
  }

  /** Which badge each combination of markers selects. */
  lemma BadgeByMarkers(status: string)
    ensures Contains(status, "active_ongoing") ==> StatusBadge(status) == Badge(ActiveText, GreenClass)
    ensures !Contains(status, "active_ongoing") && Contains(status, "pending") ==>
      StatusBadge(status) == Badge(PendingText, YellowClass)
    ensures !Contains(status, "active_ongoing") && !Contains(status, "pending") && Contains(status, "exited") ==>
      StatusBadge(status) == Badge(ExitedText, GrayClass)
    ensures !Contains(status, "active_ongoing") && !Contains(status, "pending") && !Contains(status, "exited") ==>
      StatusBadge(status) == Badge(status, GrayClass)
  {
  }

  // The badges of the six statuses the chain knows. The spelling facts
  // each one rests on are kept apart from the badge reasoning.

  lemma ActiveOngoingBadge(status: string)
    requires status == "active_ongoing"
    ensures StatusBadge(status) == Badge(ActiveText, GreenClass)
  {
    assert StartsWith(status, "active_ongoing");
    BadgeByMarkers(status);
  }

  lemma PendingSpelling(status: string)
    requires status == "pending_initialized" || status == "pending_queued"
    ensures 'o' !in status && StartsWith(status, "pending")
  {
  }

  lemma PendingBadge(status: string)
    requires status == "pending_initialized" || status == "pending_queued"
    ensures StatusBadge(status) == Badge(PendingText, YellowClass)
  {
    PendingSpelling(status);
    NotContained(status, "active_ongoing", 'o');
    BadgeByMarkers(status);
  }

  lemma ActiveExitingSpelling(status: string)
    requires status == "active_exiting"
    ensures 'o' !in status && 'p' !in status && 'd' !in status
  {
  }

  /** `active_exiting` mentions none of the three markers, so it is shown
      as its raw text. */
  lemma ActiveExitingBadge(status: string)
    requires status == "active_exiting"
    ensures StatusBadge(status) == Badge(status, GrayClass)
  {
    ActiveExitingSpelling(status);
    NotContained(status, "active_ongoing", 'o');
    NotContained(status, "pending", 'p');
    NotContained(status, "exited", 'd');
    BadgeByMarkers(status);
  }

  lemma ExitedSpelling(status: string)
    requires status == "exited_withdrawable" || status == "exited_withdrawn"
    ensures 'o' !in status && 'p' !in status && StartsWith(status, "exited")
  {
  }

  lemma ExitedBadge(status: string)
    requires status == "exited_withdrawable" || status == "exited_withdrawn"
    ensures StatusBadge(status) == Badge(ExitedText, GrayClass)
  {
    ExitedSpelling(status);
    NotContained(status, "active_ongoing", 'o');
    NotContained(status, "pending", 'p');
    BadgeByMarkers(status);
  }

  lemma NotContained(s: string, sub: string, c: char)
    requires c in sub && c !in s
    ensures !Contains(s, sub)
  {
    if Contains(s, sub) {
      ContainedChars(s, sub, c);
    }
  }

  // ---------------------------------------------------------------------
  // Sorting by status

  /** The rank of a status when sorting by status; 999 for any other. */
  function StatusRank(status: string): int {
    if status == "active_ongoing" then 1
    else if status == "pending_initialized" then 2
    else if status == "pending_queued" then 3
    else if status == "active_exiting" then 4
    else if status == "exited_withdrawable" then 5
    else if status == "exited_withdrawn" then 6
    else 999
  }

  /** The six known statuses rank 1 to 6 in lifecycle order, every other
      status ranks 999, and two statuses rank alike only if both are unknown
      or they are the same status. */
  lemma StatusRankMeaning(a: string, b: string)
    ensures StatusRank(a) in {1, 2, 3, 4, 5, 6, 999}
    ensures StatusRank(a) == 999 <==>
      a !in {"active_ongoing", "pending_initialized", "pending_queued", "active_exiting", "exited_withdrawable", "exited_withdrawn"}
    ensures StatusRank(a) == StatusRank(b) && StatusRank(a) != 999 ==> a == b
    ensures StatusRank("active_ongoing") < StatusRank("pending_initialized") < StatusRank("pending_queued")
      < StatusRank("active_exiting") < StatusRank("exited_withdrawable") < StatusRank("exited_withdrawn")
  {
  }

  datatype Order = Asc | Desc

  /** The comparator reduced to a key: ascending rank, or descending rank
      (`bValue - aValue`) as ascending negated rank. */
  function SortKey(v: ValidatorInfo, order: Order): int {
    if order == Asc then StatusRank(v.status) else -StatusRank(v.status)
  }

  /** The comparator's key as a function. */
  function KeyOf(order: Order): ValidatorInfo -> int {
    v => SortKey(v, order)
  }

  /** `x` placed before the first entry whose key is not smaller: equal
      keys keep their original order. */
  function InsertBy(x: ValidatorInfo, s: seq<ValidatorInfo>, key: ValidatorInfo -> int): (r: seq<ValidatorInfo>)
    ensures multiset(r) == multiset(s) + multiset{x}
    ensures |r| == |s| + 1
  {
    if s == [] || key(s[0]) >= key(x) then [x] + s
    else
      assert s == [s[0]] + s[1..];
      [s[0]] + InsertBy(x, s[1..], key)
  }

  /** A stable sort on `key`, by insertion. */
  function SortBy(s: seq<ValidatorInfo>, key: ValidatorInfo -> int): seq<ValidatorInfo> {
    if s == [] then [] else InsertBy(s[0], SortBy(s[1..], key), key)
  }

  /** The list sorted by status in the given order, as a stable sort with
      the page's comparator produces it. */
  function SortByStatus(s: seq<ValidatorInfo>, order: Order): seq<ValidatorInfo> {
    SortBy(s, KeyOf(order))
  }

  predicate SortedOn(s: seq<ValidatorInfo>, key: ValidatorInfo -> int) {
    forall i, j | 0 <= i < j < |s| :: key(s[i]) <= key(s[j])
  }

  /** The validators whose key is `k`, in order. */
  function WithKey(s: seq<ValidatorInfo>, key: ValidatorInfo -> int, k: int): seq<ValidatorInfo> {
    if s == [] then []
    else (if key(s[0]) == k then [s[0]] else []) + WithKey(s[1..], key, k)
  }

  /** The validators of a given rank, in order. */
  function WithRank(s: seq<ValidatorInfo>, rank: int): seq<ValidatorInfo> {
    if s == [] then []
    else (if StatusRank(s[0].status) == rank then [s[0]] else []) + WithRank(s[1..], rank)
  }

  lemma {:induction false} InsertSorted(x: ValidatorInfo, s: seq<ValidatorInfo>, key: ValidatorInfo -> int)
    requires SortedOn(s, key)
    ensures SortedOn(InsertBy(x, s, key), key)
  {
    if s != [] && key(s[0]) < key(x) {
      assert SortedOn(s[1..], key);
      InsertSorted(x, s[1..], key);
      var t := InsertBy(x, s[1..], key);
      assert InsertBy(x, s, key) == [s[0]] + t;
      forall y | y in t ensures key(s[0]) <= key(y) {
        assert y in multiset(t);
        if y != x {
          var k :| 0 <= k < |s[1..]| && s[1..][k] == y;
          assert s[k + 1] == y;
        }
      }
    }
  }

  lemma {:induction false} InsertWithKey(x: ValidatorInfo, s: seq<ValidatorInfo>, key: ValidatorInfo -> int, k: int)
    ensures WithKey(InsertBy(x, s, key), key, k) == (if key(x) == k then [x] else []) + WithKey(s, key, k)
  {
    if s == [] || key(s[0]) >= key(x) {
      assert ([x] + s)[1..] == s;
    } else {
      var t := InsertBy(x, s[1..], key);
      InsertWithKey(x, s[1..], key, k);
      assert InsertBy(x, s, key) == [s[0]] + t;
      var h := if key(s[0]) == k then [s[0]] else [];
      var hx := if key(x) == k then [x] else [];
      assert WithKey([s[0]] + t, key, k) == h + WithKey(t, key, k) by {
        assert ([s[0]] + t)[1..] == t;
      }
      assert WithKey(s, key, k) == h + WithKey(s[1..], key, k);
      assert h == [] || hx == [];
      assert h + (hx + WithKey(s[1..], key, k)) == hx + (h + WithKey(s[1..], key, k));
    }
  }

  lemma {:induction false} SortPermutes(s: seq<ValidatorInfo>, key: ValidatorInfo -> int)
    ensures multiset(SortBy(s, key)) == multiset(s)
  {
    if s != [] {
      SortPermutes(s[1..], key);
      assert s == [s[0]] + s[1..];
    }
  }

  lemma {:induction false} SortOrders(s: seq<ValidatorInfo>, key: ValidatorInfo -> int)
    ensures SortedOn(SortBy(s, key), key)
  {
    if s != [] {
      SortOrders(s[1..], key);
      InsertSorted(s[0], SortBy(s[1..], key), key);
    }
  }

  lemma {:induction false} SortKeepsKeyOrder(s: seq<ValidatorInfo>, key: ValidatorInfo -> int, k: int)
    ensures WithKey(SortBy(s, key), key, k) == WithKey(s, key, k)
  {
    if s != [] {
      SortKeepsKeyOrder(s[1..], key, k);
      InsertWithKey(s[0], SortBy(s[1..], key), key, k);
    }
  }

  /** Selecting one rank is selecting its key. */
  lemma {:induction false} WithRankIsWithKey(s: seq<ValidatorInfo>, order: Order, rank: int)
    ensures WithRank(s, rank) == WithKey(s, KeyOf(order), if order == Asc then rank else -rank)
  {
    if s != [] {
      WithRankIsWithKey(s[1..], order, rank);
    }
  }

  /** The sorted list is a permutation whose ranks ascend for `Asc` and
      descend for `Desc`, and which keeps equal-rank validators in order. */
  lemma SortByStatusMeaning(s: seq<ValidatorInfo>, order: Order)
    ensures multiset(SortByStatus(s, order)) == multiset(s)
    ensures var r := SortByStatus(s, order);
      forall i, j | 0 <= i < j < |r| ::
        if order == Asc then StatusRank(r[i].status) <= StatusRank(r[j].status)
        else StatusRank(r[i].status) >= StatusRank(r[j].status)
    ensures forall rank :: WithRank(SortByStatus(s, order), rank) == WithRank(s, rank)
  {
    SortPermutes(s, KeyOf(order));
    SortOrders(s, KeyOf(order));
    var r := SortByStatus(s, order);
    forall i, j | 0 <= i < j < |r|
      ensures if order == Asc then StatusRank(r[i].status) <= StatusRank(r[j].status)
        else StatusRank(r[i].status) >= StatusRank(r[j].status)
    {
      assert KeyOf(order)(r[i]) <= KeyOf(order)(r[j]);
    }
    forall rank ensures WithRank(SortByStatus(s, order), rank) == WithRank(s, rank) {
      SortKeepsKeyOrder(s, KeyOf(order), if order == Asc then rank else -rank);
      WithRankIsWithKey(s, order, rank);
      WithRankIsWithKey(r, order, rank);
    }
  }

  // ---------------------------------------------------------------------
  // Column header clicks

  datatype Column = StakedAmount | TotalRewards | Status

  /** The sort column and direction of the page. */
  class SortControl {
    var sortBy: Column
    var sortOrder: Order

    constructor ()
      ensures sortBy == StakedAmount && sortOrder == Desc
    {
      sortBy := StakedAmount;
      sortOrder := Desc;
    }

    /** `handleSort`: the current column flips the direction; another column
        becomes current, descending. */
    method HandleSort(column: Column)
      modifies this
      ensures sortBy == column
      ensures old(sortBy) == column ==> sortOrder != old(sortOrder)
      ensures old(sortBy) != column ==> sortOrder == Desc
    {
      if sortBy == column {
        sortOrder := if sortOrder == Asc then Desc else Asc;
      } else {
        sortBy := column;
        sortOrder := Desc;
      }
    }
  }

  /** The effect of one click on (column, order), as a value. */
  function Clicked(sortBy: Column, sortOrder: Order, column: Column): (r: (Column, Order))
    ensures r.0 == column
    ensures sortBy == column ==> r.1 != sortOrder
    ensures sortBy != column ==> r.1 == Desc
  {
    if sortBy == column then (column, if sortOrder == Asc then Desc else Asc)
    else (column, Desc)
  }

  /** Clicking the same header twice restores the direction; clicking a new
      header twice sorts it ascending. */
  lemma ClickTwice(sortBy: Column, sortOrder: Order, column: Column)
    ensures var once := Clicked(sortBy, sortOrder, column);
      var twice := Clicked(once.0, once.1, column);
      twice.0 == column
      && (sortBy == column ==> twice.1 == sortOrder)
      && (sortBy != column ==> twice.1 == Asc)
  {
  }
}
