/**
 * The staking page: the address and private-key format checks, the order
 * of the checks made before a staking transaction is submitted, and the
 * browser-side record of withdrawal requests that enforces a three-minute
 * cooldown between requests from one address.
 */
module Staking {
  import opened Optional
  import opened Text
  import opened Entries

  const CooldownMs := 180000            // 3 minutes
  const CleanupMs := 300000             // 5 minutes
  const StorageKey := "staking_withdrawal_requests"
  const ZeroAddress := "0x0000000000000000000000000000000000000000"

  /** `/^0x[a-fA-F0-9]{40}$/` */
  predicate IsValidAddress(s: string) {
    IsPrefixedHex(s, 40)
  }

  /** `/^0x[a-fA-F0-9]{64}$/` */
  predicate IsValidPrivateKey(s: string) {
    IsPrefixedHex(s, 64)
  }

  /** Both checks spelled out character by character: `0x`, then exactly 40
      (resp. 64) hex digits of either case and nothing else. No string passes
      both, and the all-zero address passes the address check. */
  lemma FormatChecksMeaning(s: string)
    ensures IsValidAddress(s) <==>
      |s| == 42 && s[0] == '0' && s[1] == 'x' && forall i | 2 <= i < 42 :: IsHexDigit(s[i])
    ensures IsValidPrivateKey(s) <==>
      |s| == 66 && s[0] == '0' && s[1] == 'x' && forall i | 2 <= i < 66 :: IsHexDigit(s[i])
    ensures !(IsValidAddress(s) && IsValidPrivateKey(s))
    ensures IsValidAddress(ZeroAddress)
  {
    if |s| >= 2 {
      assert StartsWith(s, "0x") <==> s[0] == '0' && s[1] == 'x';
      assert forall i | 2 <= i < |s| :: s[2..][i - 2] == s[i];
    }
    assert ZeroAddress == "0x" + seq(40, _ => '0');
  }

  // ---------------------------------------------------------------------
  // The withdrawal-request record

  /** What the storage slot under `StorageKey` holds: nothing (or the empty
      string), text that does not parse as a JSON object, or the entries of
      an object mapping addresses to request times in milliseconds. */
  datatype Stored = Missing | Corrupt | Records(entries: seq<(string, int)>)

  /** What `JSON.parse` can give: an object never repeats a key, so the
      entry count is the count of `Object.keys`. */
  predicate WellFormed(s: Stored) {
    s.Records? ==> DistinctKeys(s.entries)
  }

  /** With distinct keys, there are as many keys as entries. */
  lemma {:induction false} DistinctKeysCount(es: seq<(string, int)>)
    requires DistinctKeys(es)
    ensures |Keys(es)| == |es|
    decreases |es|
  {
    if es != [] {
      DistinctKeysCount(es[1..]);
    }
  }

  predicate Fresh(t: int, now: int) {
    now - t < CleanupMs
  }

  /** The cleaning loop of `getWithdrawalRequests`, from `acc` onwards: each
      entry younger than five minutes is assigned under its lower-cased
      address (a later entry for the same address wins). */
  function CleanFrom(es: seq<(string, int)>, now: int, acc: seq<(string, int)>): seq<(string, int)>
    decreases |es|
  {
    if es == [] then acc
    else
      var next := if Fresh(es[0].1, now) then Assign(acc, Lower(es[0].0), es[0].1) else acc;
      CleanFrom(es[1..], now, next)
  }

  function Clean(es: seq<(string, int)>, now: int): seq<(string, int)> {
    CleanFrom(es, now, [])
  }

  /** The lower-cased addresses of the fresh entries. */
  function FreshKeys(es: seq<(string, int)>, now: int): set<string> {
    set i | 0 <= i < |es| && Fresh(es[i].1, now) :: Lower(es[i].0)
  }

  /** The time of the last fresh entry whose address lower-cases to `k`. */
  function LastFresh(es: seq<(string, int)>, now: int, k: string): Option<int>
    decreases |es|
  {
    if es == [] then None
    else
      var later := LastFresh(es[1..], now, k);
      if later.Some? then later
      else if Fresh(es[0].1, now) && Lower(es[0].0) == k then Some(es[0].1)
      else None
  }

  /** `LastFresh` by position: nothing exactly when no fresh entry has that
      address, and otherwise the time of a fresh entry with that address
      after which no fresh entry has it. */
  lemma {:induction false} LastFreshMeaning(es: seq<(string, int)>, now: int, k: string)
    ensures LastFresh(es, now, k).None? <==> k !in FreshKeys(es, now)
    ensures LastFresh(es, now, k).Some? ==>
      exists i | 0 <= i < |es| :: Fresh(es[i].1, now) && Lower(es[i].0) == k && es[i].1 == LastFresh(es, now, k).value
        && forall j | i < j < |es| :: !(Fresh(es[j].1, now) && Lower(es[j].0) == k)
    decreases |es|
  {
    if es != [] {
      LastFreshMeaning(es[1..], now, k);
      var later := LastFresh(es[1..], now, k);
      if later.Some? {
        var i :| 0 <= i < |es[1..]| && Fresh(es[1..][i].1, now) && Lower(es[1..][i].0) == k && es[1..][i].1 == later.value
          && forall j | i < j < |es[1..]| :: !(Fresh(es[1..][j].1, now) && Lower(es[1..][j].0) == k);
        assert es[i + 1] == es[1..][i];
        forall j | i + 1 < j < |es| ensures !(Fresh(es[j].1, now) && Lower(es[j].0) == k) {
          assert es[j] == es[1..][j - 1];
        }
        assert k in FreshKeys(es, now);
      } else {
        forall j | 0 < j < |es| ensures !(Fresh(es[j].1, now) && Lower(es[j].0) == k) {
          assert es[j] == es[1..][j - 1];
        }
        if Fresh(es[0].1, now) && Lower(es[0].0) == k {
          assert k in FreshKeys(es, now);
        } else {
          assert k !in FreshKeys(es, now);
        }
      }
    }
  }

  /** Cleaning from `acc` keeps, under each key, the time of the last fresh
      entry with that address, or what `acc` held when there is none. */
  lemma {:induction false} CleanFromValues(es: seq<(string, int)>, now: int, acc: seq<(string, int)>)
    requires DistinctKeys(acc)
    ensures forall k :: Get(CleanFrom(es, now, acc), k) ==
                        if LastFresh(es, now, k).Some? then LastFresh(es, now, k) else Get(acc, k)
    decreases |es|
  {
    if es != [] {
      var next := if Fresh(es[0].1, now) then Assign(acc, Lower(es[0].0), es[0].1) else acc;
      AssignGet(acc, Lower(es[0].0), es[0].1);
      CleanFromValues(es[1..], now, next);
    }
  }

  /** A cleaned record: distinct lower-case keys, every entry fresh. */
  predicate Cleaned(es: seq<(string, int)>, now: int) {
    DistinctKeys(es)
    && forall i | 0 <= i < |es| :: Lower(es[i].0) == es[i].0 && Fresh(es[i].1, now)
  }

  lemma {:induction false} AppendCleaned(acc: seq<(string, int)>, k: string, t: int, now: int)
    requires Cleaned(acc, now) && Lower(k) == k && Fresh(t, now)
    ensures Cleaned(Assign(acc, k, t), now)
  {
    AssignGet(acc, k, t);
    var r := Assign(acc, k, t);
    forall i | 0 <= i < |r| ensures Lower(r[i].0) == r[i].0 && Fresh(r[i].1, now) {
      AssignEntry(acc, k, t, i);
    }
  }

  /** Each entry after an assignment is the new one or an old one. */
  lemma {:induction false} AssignEntry(acc: seq<(string, int)>, k: string, t: int, i: int)
    requires 0 <= i < |Assign(acc, k, t)|
    ensures Assign(acc, k, t)[i] == (k, t) || Assign(acc, k, t)[i] in acc
    decreases |acc|
  {
    if acc != [] && acc[0].0 != k && i > 0 {
      AssignEntry(acc[1..], k, t, i - 1);
      assert Assign(acc, k, t)[i] == Assign(acc[1..], k, t)[i - 1];
    } else if acc != [] && acc[0].0 == k && i > 0 {
      assert Assign(acc, k, t)[i] == acc[i];
    }
  }

  /** Cleaning keeps a cleaned record cleaned, its keys are exactly the
      lower-cased addresses of the fresh entries (plus those already there),
      and each address keeps the time of its last fresh entry. */
  lemma {:induction false} CleanFromFacts(es: seq<(string, int)>, now: int, acc: seq<(string, int)>)
    requires Cleaned(acc, now)
    ensures Cleaned(CleanFrom(es, now, acc), now)
    ensures Keys(CleanFrom(es, now, acc)) == Keys(acc) + FreshKeys(es, now)
    ensures forall k :: Get(CleanFrom(es, now, acc), k) ==
                        if LastFresh(es, now, k).Some? then LastFresh(es, now, k) else Get(acc, k)
    decreases |es|
  {
    CleanFromValues(es, now, acc);
    if es != [] {
      var next := if Fresh(es[0].1, now) then Assign(acc, Lower(es[0].0), es[0].1) else acc;
      if Fresh(es[0].1, now) {
        LowerIdempotent(es[0].0);
        AppendCleaned(acc, Lower(es[0].0), es[0].1, now);
      }
      CleanFromFacts(es[1..], now, next);
      assert FreshKeys(es, now) == (if Fresh(es[0].1, now) then {Lower(es[0].0)} else {}) + FreshKeys(es[1..], now) by {
        forall x | x in FreshKeys(es, now)
          ensures x in (if Fresh(es[0].1, now) then {Lower(es[0].0)} else {}) + FreshKeys(es[1..], now)
        {
          var i :| 0 <= i < |es| && Fresh(es[i].1, now) && Lower(es[i].0) == x;
          if i > 0 { assert es[1..][i - 1] == es[i]; }
        }
        forall x | x in FreshKeys(es[1..], now) ensures x in FreshKeys(es, now) {
          var i :| 0 <= i < |es[1..]| && Fresh(es[1..][i].1, now) && Lower(es[1..][i].0) == x;
          assert es[i + 1] == es[1..][i];
        }
      }
    }
  }

  /** The tail of a cleaned record is cleaned and lacks the head's key. */
  lemma CleanedTail(c: seq<(string, int)>, now: int)
    requires Cleaned(c, now) && c != []
    ensures Cleaned(c[1..], now)
    ensures Keys(c) == {c[0].0} + Keys(c[1..]) && c[0].0 !in Keys(c[1..])
    ensures Lower(c[0].0) == c[0].0 && Fresh(c[0].1, now)
  {
    forall i | 0 <= i < |c[1..]| ensures Lower(c[1..][i].0) == c[1..][i].0 && Fresh(c[1..][i].1, now) {
      assert c[1..][i] == c[i + 1];
    }
  }

  /** One step of cleaning a cleaned record whose keys `acc` lacks appends
      its first entry. */
  lemma CleanStep(c: seq<(string, int)>, now: int, acc: seq<(string, int)>)
    requires Cleaned(c, now) && Cleaned(acc, now) && Keys(c) !! Keys(acc) && c != []
    ensures CleanFrom(c, now, acc) == CleanFrom(c[1..], now, acc + [c[0]])
    ensures Cleaned(c[1..], now) && Cleaned(acc + [c[0]], now)
    ensures Keys(c[1..]) !! Keys(acc + [c[0]])
  {
    CleanedTail(c, now);
    var k := c[0].0;
    assert Assign(acc, k, c[0].1) == acc + [c[0]];
    AppendCleaned(acc, k, c[0].1, now);
  }

  lemma ConsSplit<X>(acc: seq<X>, c: seq<X>)
    requires c != []
    ensures acc + c == acc + [c[0]] + c[1..]
  {
  }

  /** Cleaning an already cleaned record that shares no key with `acc`
      only appends it. */
  lemma {:induction false} CleanFromCleaned(c: seq<(string, int)>, now: int, acc: seq<(string, int)>)
    requires Cleaned(c, now) && Cleaned(acc, now) && Keys(c) !! Keys(acc)
    ensures CleanFrom(c, now, acc) == acc + c
    decreases |c|
  {
    if c != [] {
      CleanStep(c, now, acc);
      CleanFromCleaned(c[1..], now, acc + [c[0]]);
      ConsSplit(acc, c);
    }
  }

  /** What `getWithdrawalRequests` returns. A record that shrank while
      cleaning is written back; when that write fails the function returns
      an empty record. */
  function Requests(s: Stored, now: int, writable: bool): seq<(string, int)> {
    match s
    case Missing => []
    case Corrupt => []
    case Records(es) =>
      var cleaned := Clean(es, now);
      if |cleaned| != |es| && !writable then [] else cleaned
  }

  /** The storage slot after `getWithdrawalRequests`. */
  function Rewritten(s: Stored, now: int, writable: bool): Stored {
    match s
    case Records(es) =>
      var cleaned := Clean(es, now);
      if |cleaned| != |es| && writable then Records(cleaned) else s
    case _ => s
  }

  /** The requests read are a cleaned record: one entry per lower-cased
      address, none older than five minutes, and — unless a needed rewrite
      failed — one for every fresh stored entry, holding the time of the
      last fresh entry for that address. The slot is rewritten only
      when cleaning dropped or merged entries. */
  lemma ReadMeaning(s: Stored, now: int, writable: bool)
    ensures Cleaned(Requests(s, now, writable), now)
    ensures s.Records? && (writable || |Clean(s.entries, now)| == |s.entries|) ==>
      Keys(Requests(s, now, writable)) == FreshKeys(s.entries, now)
      && forall k :: Get(Requests(s, now, writable), k) == LastFresh(s.entries, now, k)
    ensures Rewritten(s, now, writable) != s ==>
      writable && s.Records? && |Clean(s.entries, now)| != |s.entries|
      && Rewritten(s, now, writable) == Records(Requests(s, now, writable))
  {
    if s.Records? {
      CleanFromFacts(s.entries, now, []);
    }
  }

  /** Reading twice at the same instant gives the same requests, and the
      second read writes nothing. */
  lemma ReadStable(s: Stored, now: int, writable: bool)
    ensures Requests(Rewritten(s, now, writable), now, writable) == Requests(s, now, writable)
    ensures Rewritten(Rewritten(s, now, writable), now, writable) == Rewritten(s, now, writable)
  {
    if s.Records? {
      var cleaned := Clean(s.entries, now);
      CleanFromFacts(s.entries, now, []);
      CleanFromCleaned(cleaned, now, []);
      assert [] + cleaned == cleaned;
    }
  }

  /** Every write to the slot keeps it well formed: the write-back of a
      read and the record written after a request. */
  lemma WritesWellFormed(s: Stored, now: int, writable: bool, address: string)
    requires WellFormed(s)
    ensures WellFormed(Rewritten(s, now, writable))
    ensures WellFormed(Records(Assign(Requests(s, now, writable), Lower(address), now)))
  {
    ReadMeaning(s, now, writable);
    AssignGet(Requests(s, now, writable), Lower(address), now);
  }

  /** `isWithdrawalCooldownActive` on a read record: a record exists, is not
      zero, and is less than three minutes old. */
  predicate Active(requests: seq<(string, int)>, address: string, now: int) {
    var ts := Get(requests, Lower(address));
    ts.Some? && ts.value != 0 && now - ts.value < CooldownMs
  }

  /** `Math.ceil(a / 1000)` for an integer `a`. */
  function CeilThousandth(a: int): int {
    -((-a) / 1000)
  }

  /** `getRemainingCooldownTime` on a read record, in whole seconds. */
  function RemainingSeconds(requests: seq<(string, int)>, address: string, now: int): int {
    var ts := Get(requests, Lower(address));
    if ts.None? || ts.value == 0 then 0
    else
      var remaining := CooldownMs - (now - ts.value);
      var seconds := CeilThousandth(remaining);
      if seconds < 0 then 0 else seconds
  }

  /** The remaining time is never negative, is zero without a record, is
      the least whole number of seconds covering the rest of the cooldown,
      is positive exactly while the cooldown is active, and is at most 180
      unless the clock went back. */
  lemma RemainingMeaning(requests: seq<(string, int)>, address: string, now: int)
    ensures RemainingSeconds(requests, address, now) >= 0
    ensures Get(requests, Lower(address)).None? ==> RemainingSeconds(requests, address, now) == 0
    ensures RemainingSeconds(requests, address, now) > 0 <==> Active(requests, address, now)
    ensures var ts := Get(requests, Lower(address));
      var r := RemainingSeconds(requests, address, now);
      r > 0 ==> (r - 1) * 1000 < CooldownMs - (now - ts.value) <= r * 1000
    ensures var ts := Get(requests, Lower(address));
      ts.Some? && now >= ts.value ==> RemainingSeconds(requests, address, now) <= 180
  {
  }

  /** The browser's storage slot of withdrawal requests. `writable` says
      whether storage accepts writes; a failed write is swallowed. */
  class WithdrawalStore {
    var stored: Stored
    const writable: bool

    constructor (initial: Stored, writable: bool)
      ensures stored == initial && this.writable == writable
    {
      stored := initial;
      this.writable := writable;
    }

    /** `getWithdrawalRequests`: the cleaning loop, then the write-back when
        the entry count changed. */
    method GetRequests(now: int) returns (requests: seq<(string, int)>)
      modifies this
      ensures requests == Requests(old(stored), now, writable)
      ensures stored == Rewritten(old(stored), now, writable)
    {
      match stored {
        case Missing => requests := [];
        case Corrupt => requests := [];
        case Records(es) => {
          var cleaned: seq<(string, int)> := [];
          var i := 0;
          while i < |es|
            invariant 0 <= i <= |es|
            invariant CleanFrom(es[i..], now, cleaned) == Clean(es, now)
          {
            assert es[i..][1..] == es[i + 1..];
            if Fresh(es[i].1, now) {
              cleaned := Assign(cleaned, Lower(es[i].0), es[i].1);
            }
            i := i + 1;
          }
          assert es[i..] == [];
          if |cleaned| != |es| {
            if writable {
              stored := Records(cleaned);
              requests := cleaned;
            } else {
              requests := [];
            }
          } else {
            requests := cleaned;
          }
        }
      }
    }

    /** `addWithdrawalRequest`: read, then record `now` under the
        lower-cased address and write the whole record back. */
    method AddRequest(address: string, now: int)
      modifies this
      ensures stored == if writable
        then Records(Assign(Requests(old(stored), now, writable), Lower(address), now))
        else old(stored)
    {
      var requests := GetRequests(now);
      requests := Assign(requests, Lower(address), now);
      if writable {
        stored := Records(requests);
      }
    }

    /** `isWithdrawalCooldownActive` */
    method CooldownActive(address: string, now: int) returns (active: bool)
      modifies this
      ensures active == Active(Requests(old(stored), now, writable), address, now)
      ensures stored == Rewritten(old(stored), now, writable)
    {
      var requests := GetRequests(now);
      var ts := Get(requests, Lower(address));
      if ts.None? || ts.value == 0 {
        return false;
      }
      var elapsed := now - ts.value;
      active := elapsed < CooldownMs;
    }

    /** `getRemainingCooldownTime` */
    method RemainingCooldown(address: string, now: int) returns (seconds: int)
      modifies this
      ensures seconds == RemainingSeconds(Requests(old(stored), now, writable), address, now)
      ensures stored == Rewritten(old(stored), now, writable)
    {
      var requests := GetRequests(now);
      var ts := Get(requests, Lower(address));
      if ts.None? || ts.value == 0 {
        return 0;
      }
      var elapsed := now - ts.value;
      var remaining := CooldownMs - elapsed;
      seconds := CeilThousandth(remaining);
      if seconds < 0 {
        seconds := 0;
      }
    }
  }

  /** Right after a request is recorded in writable storage, the cooldown is
      active for that address in any letter case, with the full 180 seconds
      remaining (a request time of 0 would read as no request). */
  lemma AddThenCoolingDown(s: Stored, address: string, sameAddress: string, now: int)
    requires now != 0
    requires Lower(sameAddress) == Lower(address)
    ensures var after := Records(Assign(Requests(s, now, true), Lower(address), now));
      Active(Requests(after, now, true), sameAddress, now)
      && RemainingSeconds(Requests(after, now, true), sameAddress, now) == 180
      && Rewritten(after, now, true) == after
  {
    var requests := Requests(s, now, true);
    ReadMeaning(s, now, true);
    var es := Assign(requests, Lower(address), now);
    LowerIdempotent(address);
    AppendCleaned(requests, Lower(address), now, now);
    AssignGet(requests, Lower(address), now);
    CleanFromCleaned(es, now, []);
    assert [] + es == es;
    assert Requests(Records(es), now, true) == es;
  }

  // ---------------------------------------------------------------------
  // Submitting a staking transaction

  datatype Tab = Deposit | SetWithdrawal | RequestWithdrawal

  /** The looked-up validator. `stakedZero` stands for the float test
      `parseFloat(stakedAmount) === 0`. */
  datatype Validator = Validator(status: string, withdrawalAddress: Option<string>, stakedZero: bool)

  datatype Stats = Stats(totalValidators: int, maxValidators: int)

  /** The page's form state. */
  datatype Form = Form(
    validator: Option<Validator>,
    balance: Option<string>,
    validatorAddress: string,
    userAddress: string,
    privateKey: string,
    amount: string,
    withdrawalAddress: string)

  /** The outcome of the float checks on the amount, made outside the model. */
  datatype AmountCheck = AmountOk | AmountNotPositive | AmountBelowMinimum

  datatype Rejection =
    | NotLookedUp | MissingFields | BadAddress | BadPrivateKey
    | MissingAmount | InvalidAmount | BelowMinimum | ValidatorsFull | AlreadyExited | InsufficientBalance
    | MissingWithdrawalAddress | BadWithdrawalAddress
    | NothingStaked | NoWithdrawalAddress | CoolingDown(minutes: int, seconds: int)

  /** The call a successful check sequence makes. */
  datatype Action = DepositCall(key: string, amount: string) | SetWithdrawalCall(key: string, address: string) | WithdrawalCall(key: string)

  datatype Decision = Reject(why: Rejection) | Submit(action: Action)

  predicate LookedUp(f: Form) {
    f.validator.Some? && f.balance.Some? && f.balance.value != []
    && Lower(f.validatorAddress) == Lower(f.userAddress)
  }

  /** The checks of `handleSubmit` common to every tab, in order. */
  function CommonCheck(f: Form): Option<Rejection> {
    if !LookedUp(f) then Some(NotLookedUp)
    else if IsBlank(f.userAddress) || IsBlank(f.privateKey) then Some(MissingFields)
    else if !IsValidAddress(f.userAddress) then Some(BadAddress)
    else if !IsValidPrivateKey(f.privateKey) then Some(BadPrivateKey)
    else None
  }

  /** `handleSubmit` up to the network call. `amount` and `balanceCovers`
      are the float checks of the deposit tab; `cooldown` is the remaining
      cooldown in seconds when the cooldown is active. */
  function SubmitDecision(f: Form, tab: Tab, stats: Option<Stats>, amount: AmountCheck,
                          balanceCovers: bool, cooldown: Option<int>): Decision
  {
    match CommonCheck(f)
    case Some(why) => Reject(why)
    case None =>
      match tab
      case Deposit =>
        if IsBlank(f.amount) then Reject(MissingAmount)
        else if amount == AmountNotPositive then Reject(InvalidAmount)
        else if amount == AmountBelowMinimum then Reject(BelowMinimum)
        else if stats.Some? && stats.value.totalValidators >= stats.value.maxValidators then Reject(ValidatorsFull)
        else if f.validator.value.status == "exited_withdrawn" then Reject(AlreadyExited)
        else if !balanceCovers then Reject(InsufficientBalance)
        else Submit(DepositCall(f.privateKey, f.amount))
      case SetWithdrawal =>
        if IsBlank(f.withdrawalAddress) then Reject(MissingWithdrawalAddress)
        else if !IsValidAddress(f.withdrawalAddress) then Reject(BadWithdrawalAddress)
        else Submit(SetWithdrawalCall(f.privateKey, f.withdrawalAddress))
      case RequestWithdrawal =>
        var w := f.validator.value.withdrawalAddress;
        if f.validator.value.stakedZero then Reject(NothingStaked)
        else if w.None? || w.value == [] || w.value == ZeroAddress then Reject(NoWithdrawalAddress)
        else if cooldown.Some? then Reject(CoolingDown(cooldown.value / 60, cooldown.value % 60))
        else Submit(WithdrawalCall(f.privateKey))
  }

  /** The common checks come first and in order: an unmatched lookup is
      reported before blank fields, blank fields before a malformed address,
      that before a malformed key; nothing is submitted unless all pass. */
  lemma SubmitCheckOrder(f: Form, tab: Tab, stats: Option<Stats>, amount: AmountCheck,
                         balanceCovers: bool, cooldown: Option<int>)
    ensures var d := SubmitDecision(f, tab, stats, amount, balanceCovers, cooldown);
      (d == Reject(NotLookedUp) <==> !LookedUp(f))
      && (d == Reject(MissingFields) <==> LookedUp(f) && (IsBlank(f.userAddress) || IsBlank(f.privateKey)))
      && (d == Reject(BadAddress) <==>
            LookedUp(f) && !IsBlank(f.userAddress) && !IsBlank(f.privateKey) && !IsValidAddress(f.userAddress))
      && (d == Reject(BadPrivateKey) <==>
            LookedUp(f) && IsValidAddress(f.userAddress) && !IsBlank(f.privateKey) && !IsValidPrivateKey(f.privateKey))
      && (d.Submit? ==>
            LookedUp(f) && IsValidAddress(f.userAddress) && IsValidPrivateKey(f.privateKey) && d.action.key == f.privateKey)
  {
    CommonCheckFacts(f);
    DecisionFollowsCommon(f, tab, stats, amount, balanceCovers, cooldown);
  }

  /** A prefixed hex string is not blank. */
  lemma PrefixedNotBlank(s: string, n: nat)
    requires IsPrefixedHex(s, n)
    ensures !IsBlank(s)
  {
    assert s[0] == '0' by { assert s[..2] == "0x"; }
  }

  lemma CommonCheckFacts(f: Form)
    ensures (CommonCheck(f) == Some(NotLookedUp) <==> !LookedUp(f))
      && (CommonCheck(f) == Some(MissingFields) <==> LookedUp(f) && (IsBlank(f.userAddress) || IsBlank(f.privateKey)))
      && (CommonCheck(f) == Some(BadAddress) <==>
            LookedUp(f) && !IsBlank(f.userAddress) && !IsBlank(f.privateKey) && !IsValidAddress(f.userAddress))
      && (CommonCheck(f) == Some(BadPrivateKey) <==>
            LookedUp(f) && IsValidAddress(f.userAddress) && !IsBlank(f.privateKey) && !IsValidPrivateKey(f.privateKey))
      && (CommonCheck(f).None? ==> LookedUp(f) && IsValidAddress(f.userAddress) && IsValidPrivateKey(f.privateKey))
  {
    if IsValidAddress(f.userAddress) {
      PrefixedNotBlank(f.userAddress, 40);
    }
    if IsValidPrivateKey(f.privateKey) {
      PrefixedNotBlank(f.privateKey, 64);
    }
  }

  /** The tab's own checks run only once the common ones pass, and never
      report a common rejection. */
  lemma DecisionFollowsCommon(f: Form, tab: Tab, stats: Option<Stats>, amount: AmountCheck,
                              balanceCovers: bool, cooldown: Option<int>)
    ensures var d := SubmitDecision(f, tab, stats, amount, balanceCovers, cooldown);
      (CommonCheck(f).Some? ==> d == Reject(CommonCheck(f).value))
      && (CommonCheck(f).None? ==>
            (d.Reject? ==> d.why !in {NotLookedUp, MissingFields, BadAddress, BadPrivateKey})
            && (d.Submit? ==> d.action.key == f.privateKey))
  {
  }

  /** A deposit is never submitted when the validator set is full or the
      validator has already exited and withdrawn; a withdrawal is never
      submitted without a non-zero withdrawal address or during cooldown,
      and the cooldown message splits the seconds into minutes and seconds. */
  lemma SubmitGuards(f: Form, tab: Tab, stats: Option<Stats>, amount: AmountCheck,
                     balanceCovers: bool, cooldown: Option<int>)
    ensures var d := SubmitDecision(f, tab, stats, amount, balanceCovers, cooldown);
      (d.Submit? && tab == Deposit ==>
        d.action == DepositCall(f.privateKey, f.amount) && !IsBlank(f.amount) && amount == AmountOk && balanceCovers
        && (stats.Some? ==> stats.value.totalValidators < stats.value.maxValidators)
        && f.validator.value.status != "exited_withdrawn")
      && (d.Submit? && tab == SetWithdrawal ==>
        d.action == SetWithdrawalCall(f.privateKey, f.withdrawalAddress) && IsValidAddress(f.withdrawalAddress))
      && (d.Submit? && tab == RequestWithdrawal ==>
        d.action == WithdrawalCall(f.privateKey) && cooldown.None? && !f.validator.value.stakedZero
        && f.validator.value.withdrawalAddress.Some?
        && f.validator.value.withdrawalAddress.value !in {"", ZeroAddress})
      && (d.Reject? && d.why.CoolingDown? ==>
        tab == RequestWithdrawal && cooldown.Some?
        && d.why.minutes * 60 + d.why.seconds == cooldown.value && 0 <= d.why.seconds < 60)
  {
  }

  /** The cooldown check of the withdrawal tab: `cooldown` holds the
      remaining seconds when the cooldown is active, read a second time from
      the rewritten slot, and is then positive; the slot ends as one read
      leaves it. */
  method WithdrawalCooldown(store: WithdrawalStore, userAddress: string, now: int) returns (cooldown: Option<int>)
    modifies store
    ensures var requests := Requests(old(store.stored), now, store.writable);
      (cooldown.Some? <==> Active(requests, userAddress, now))
      && (cooldown.Some? ==> cooldown.value == RemainingSeconds(requests, userAddress, now) && cooldown.value > 0)
    ensures store.stored == Rewritten(old(store.stored), now, store.writable)
  {
    ghost var before := store.stored;
    var active := store.CooldownActive(userAddress, now);
    if active {
      var remaining := store.RemainingCooldown(userAddress, now);
      ReadStable(before, now, store.writable);
      RemainingMeaning(Requests(before, now, store.writable), userAddress, now);
      cooldown := Some(remaining);
    } else {
      cooldown := None;
    }
  }

  /** After the withdrawal call: the request is recorded only when the
      response carries a transaction hash; storage that refuses writes is
      left as it was, the failure swallowed. */
  method RecordWithdrawal(store: WithdrawalStore, userAddress: string, hash: Option<string>, now: int)
    modifies store
    ensures hash.None? || hash.value == [] ==> store.stored == old(store.stored)
    ensures hash.Some? && hash.value != [] && store.writable ==>
      store.stored == Records(Assign(Requests(old(store.stored), now, true), Lower(userAddress), now))
    ensures !store.writable ==> store.stored == old(store.stored)
  {
    if hash.Some? && hash.value != [] {
      store.AddRequest(userAddress, now);
    }
  }
}
