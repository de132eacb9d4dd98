/**
 * "How long ago" labels: the cache indicator's Korean label for the age of
 * cached data, the "secs/mins/hours/days ago" label of the contract and
 * block cards, and the transaction card's label, which mixes units.
 * All divisions are JavaScript `Math.floor` of a quotient by a positive
 * constant, which is Dafny's `/` on `int`.
 */
module TimeAgo {
  import opened Optional
  import opened Decimal

  /** `floor(floor(a / m) / n) == floor(a / (m * n))` */
  lemma NestedFloor(a: int, m: int, n: int)
    requires m > 0 && n > 0
    ensures (a / m) / n == a / (m * n)
  {
    var q := a / m;
    var r := a % m;
    var p := q / n;
    var s := q % n;
    assert a == q * m + r && 0 <= r < m;
    assert q == p * n + s && 0 <= s < n;
    Regroup(p, n, s, m, r);
    RemainderBound(s, m, n, r);
    DivUnique(a, m * n, p, s * m + r);
  }

  lemma Regroup(p: int, n: int, s: int, m: int, r: int)
    ensures (p * n + s) * m + r == p * (m * n) + (s * m + r)
  {
    calc {
      (p * n + s) * m + r;
      (p * n) * m + s * m + r;
      p * (m * n) + (s * m + r);
    }
  }

  lemma RemainderBound(s: int, m: int, n: int, r: int)
    requires 0 <= s < n && 0 <= r < m
    ensures 0 <= s * m + r < m * n
  {
    MulAtLeast(n - s, m);
    assert (n - s) * m == m * n - s * m;
  }

  lemma DivUnique(a: int, d: int, p: int, t: int)
    requires d > 0 && a == p * d + t && 0 <= t < d
    ensures a / d == p
  {
    var q := a / d;
    var u := a % d;
    assert a == q * d + u && 0 <= u < d;
    if q < p {
      MulAtLeast(p - q, d);
    } else if q > p {
      MulAtLeast(q - p, d);
    }
  }

  lemma {:induction false} MulAtLeast(k: int, d: int)
    requires k >= 1 && d >= 0
    ensures k * d >= d
    decreases k
  {
    if k > 1 {
      MulAtLeast(k - 1, d);
      assert k * d == (k - 1) * d + d;
    }
  }

  // ---------------------------------------------------------------------
  // Cache indicator

  datatype CacheAge = JustNow | MinutesAgo(minutes: int) | HoursAgo(hours: int) | DaysAgo(days: int)

  /** The indicator's text: "방금 전", "{n}분 전", "{n}시간 전", "{n}일 전". */
  function CacheAgeText(a: CacheAge): string {
    match a
    case JustNow => "\U{BC29}\U{AE08} \U{C804}"
    case MinutesAgo(n) => IntToString(n) + "\U{BD84} \U{C804}"
    case HoursAgo(n) => IntToString(n) + "\U{C2DC}\U{AC04} \U{C804}"
    case DaysAgo(n) => IntToString(n) + "\U{C77C} \U{C804}"
  }

  /** The label for data cached `age` milliseconds ago: whole minutes, then
      hours from the minutes, then days from the hours. */
  function CacheAgeOf(age: int): CacheAge {
    var minutes := age / 60000;
    var hours := minutes / 60;
    var days := hours / 24;
    if days > 0 then DaysAgo(days)
    else if hours > 0 then HoursAgo(hours)
    else if minutes > 0 then MinutesAgo(minutes)
    else JustNow
  }

  /** The indicator: nothing for a missing or zero timestamp. */
  function CacheIndicator(timestamp: Option<int>, now: int): Option<CacheAge> {
    if timestamp.None? || timestamp.value == 0 then None
    else Some(CacheAgeOf(now - timestamp.value))
  }

  /** The label's unit is the largest whole unit the age reaches, and its
      number is the age floored to that unit; an age under a minute,
      negative ages included, reads "just now". */
  lemma CacheAgeMeaning(age: int)
    ensures CacheAgeOf(age).DaysAgo? <==> age >= 86400000
    ensures CacheAgeOf(age).DaysAgo? ==> CacheAgeOf(age).days == age / 86400000
    ensures CacheAgeOf(age).HoursAgo? <==> 3600000 <= age < 86400000
    ensures CacheAgeOf(age).HoursAgo? ==> CacheAgeOf(age).hours == age / 3600000 && 1 <= CacheAgeOf(age).hours <= 23
    ensures CacheAgeOf(age).MinutesAgo? <==> 60000 <= age < 3600000
    ensures CacheAgeOf(age).MinutesAgo? ==> CacheAgeOf(age).minutes == age / 60000 && 1 <= CacheAgeOf(age).minutes <= 59
    ensures CacheAgeOf(age) == JustNow <==> age < 60000
  {
    NestedFloor(age, 60000, 60);
    NestedFloor(age, 3600000, 24);
    NestedFloor(age / 60000, 60, 24);
  }

  /** The indicator shows exactly when a non-zero timestamp exists. */
  lemma CacheIndicatorShown(timestamp: Option<int>, now: int)
    ensures CacheIndicator(timestamp, now).Some? <==> timestamp.Some? && timestamp.value != 0
    ensures CacheIndicator(timestamp, now).Some? && now - timestamp.value < 60000 ==>
      CacheIndicator(timestamp, now) == Some(JustNow)
  {
    if timestamp.Some? && timestamp.value != 0 {
      CacheAgeMeaning(now - timestamp.value);
    }
  }

  // ---------------------------------------------------------------------
  // Contract and block cards

  datatype Ago = Secs(n: int) | Mins(n: int) | Hours(n: int) | Days(n: int)

  function AgoText(a: Ago): string {
    match a
    case Secs(n) => IntToString(n) + " secs ago"
    case Mins(n) => IntToString(n) + " mins ago"
    case Hours(n) => IntToString(n) + " hours ago"
    case Days(n) => IntToString(n) + " days ago"
  }

  /** `getTimeAgo` of the contract and block cards, for a timestamp in
      seconds and `now` in milliseconds. */
  function CardTimeAgo(now: int, timestampSecs: int): Ago {
    var diff := now - timestampSecs * 1000;
    var seconds := diff / 1000;
    var minutes := diff / 60000;
    var hours := diff / 3600000;
    var days := diff / 86400000;
    if seconds < 60 then Secs(seconds)
    else if minutes < 60 then Mins(minutes)
    else if hours < 24 then Hours(hours)
    else Days(days)
  }

  /** With `diff` the age in milliseconds: seconds below a minute (negative
      for a timestamp in the future), whole minutes below an hour, whole
      hours below a day, whole days beyond. */
  lemma CardTimeAgoMeaning(now: int, timestampSecs: int)
    ensures var diff := now - timestampSecs * 1000;
      var a := CardTimeAgo(now, timestampSecs);
      (a.Secs? <==> diff < 60000)
      && (a.Mins? <==> 60000 <= diff < 3600000)
      && (a.Hours? <==> 3600000 <= diff < 86400000)
      && (a.Days? <==> 86400000 <= diff)
      && (a.Secs? ==> a.n == diff / 1000 && a.n < 60)
      && (a.Mins? ==> a.n == diff / 60000 && 1 <= a.n <= 59)
      && (a.Hours? ==> a.n == diff / 3600000 && 1 <= a.n <= 23)
      && (a.Days? ==> a.n == diff / 86400000 && a.n >= 1)
  {
  }

  /** A number's text followed by text starting with a space: the number
      can be read back. */
  lemma NumberThenSpace(i: int, j: int, ra: string, rb: string)
    requires IntToString(i) + ra == IntToString(j) + rb
    requires ra != [] && rb != [] && ra[0] == ' ' && rb[0] == ' '
    ensures i == j && ra == rb
  {
    var sa := IntToString(i);
    var sb := IntToString(j);
    assert sa == (sa + ra)[..|sa|] && sb == (sb + rb)[..|sb|];
    IntToStringInjective(i, j);
    assert ra == (sa + ra)[|sa|..] && rb == (sb + rb)[|sb|..];
  }

  /** The text names the unit, so labels of different buckets never match,
      and within a bucket the text determines the number. */
  lemma AgoTextInjective(a: Ago, b: Ago)
    requires AgoText(a) == AgoText(b)
    ensures a == b
  {
    var ra := AgoText(a)[|IntToString(a.n)|..];
    var rb := AgoText(b)[|IntToString(b.n)|..];
    assert AgoText(a) == IntToString(a.n) + ra;
    assert AgoText(b) == IntToString(b.n) + rb;
    NumberThenSpace(a.n, b.n, ra, rb);
    assert ra[1] == rb[1] && ra[2] == rb[2];
  }

  // ---------------------------------------------------------------------
  // Transaction card

  /** The transaction card's `getTimeAgo` as written: it subtracts the raw
      timestamp from `now` in milliseconds, compares the difference with
      thresholds in seconds, and divides by divisors in milliseconds, and it
      has no days bucket. */
  function TxTimeAgoAsWritten(now: int, timestamp: int): Ago {
    var x := now - timestamp;
    if x < 60 then Secs(x / 1000)
    else if x < 3600 then Mins(x / 60000)
    else Hours(x / 3600000)
  }

  /** As written, the seconds and minutes buckets can only ever show zero
      or less: any label with a positive count is in hours. */
  lemma TxTimeAgoAsWrittenNeverCountsSmallUnits(now: int, timestamp: int)
    ensures TxTimeAgoAsWritten(now, timestamp).Secs? ==> TxTimeAgoAsWritten(now, timestamp).n <= 0
    ensures TxTimeAgoAsWritten(now, timestamp).Mins? ==> TxTimeAgoAsWritten(now, timestamp).n == 0
  {
  }

  /** A transaction made 30 seconds ago (timestamps are in seconds) reads
      "471750 hours ago" as written and "30 secs ago" once corrected; even
      a millisecond timestamp 30 seconds old reads "0 hours ago". */
  lemma TxTimeAgoCounterexample()
    ensures TxTimeAgoAsWritten(1700000030000, 1700000000) == Hours(471750)
    ensures TxTimeAgo(1700000030000, 1700000000) == Secs(30)
    ensures TxTimeAgoAsWritten(1700000030000, 1700000000000) == Hours(0)
  {
  }

  /** The transaction card's label as evidently intended: the timestamp in
      seconds converted to milliseconds, then whole seconds, minutes and
      hours, keeping the card's three buckets. */
  function TxTimeAgo(now: int, timestampSecs: int): Ago {
    var seconds := (now - timestampSecs * 1000) / 1000;
    if seconds < 60 then Secs(seconds)
    else if seconds < 3600 then Mins(seconds / 60)
    else Hours(seconds / 3600)
  }

  /** The corrected label agrees with the other cards' label for anything
      less than a day old, and counts whole hours beyond that. */
  lemma TxTimeAgoMeaning(now: int, timestampSecs: int)
    ensures var diff := now - timestampSecs * 1000;
      diff < 86400000 ==> TxTimeAgo(now, timestampSecs) == CardTimeAgo(now, timestampSecs)
    ensures var diff := now - timestampSecs * 1000;
      diff >= 86400000 ==> TxTimeAgo(now, timestampSecs) == Hours(diff / 3600000) && diff / 3600000 >= 24
  {
    var diff := now - timestampSecs * 1000;
    NestedFloor(diff, 1000, 60);
    NestedFloor(diff, 1000, 3600);
    CardTimeAgoMeaning(now, timestampSecs);
  }
}
