/**
 * The last-known-good read cache. Entries are stored under namespaced,
 * versioned physical keys, overwritten by every write and never expired.
 * On the server the store is an in-process map; in the browser it is
 * `localStorage`, which also holds other applications' keys, may hold
 * values that no longer parse, and may refuse a write (quota).
 */
module Cache {
  import opened Optional
  import opened Text
  import opened Decimal

  const Prefix: string := "dustin_cache_"
  const Version: string := "1.0"

  /** What the physical key puts in front of the logical key. */
  const KeyHead: string := Prefix + Version + "_"

  /** An entry: the cached payload and the time it was stored. */
  datatype Entry<T> = Entry(data: T, timestamp: int)

  /** A physical slot: a readable entry, or a stored value that does not
      parse back into one (corrupt text, another application's value). */
  datatype Slot<T> = Stored(entry: Entry<T>) | Unreadable

  /** Which store backs the cache: chosen by the execution context. */
  datatype Backend = Server | Browser

  type Slots<T> = map<string, Slot<T>>

  /** The physical storage key of a logical key. */
  function PhysicalKey(key: string): (k: string)
    ensures StartsWith(k, Prefix) && StartsWith(k, KeyHead)
    ensures LogicalKey(k) == Some(key)
  {
    assert (KeyHead + key)[..|Prefix|] == Prefix;
    KeyHead + key
  }

  /** The logical key a physical key was made from, if it is one of ours. */
  function LogicalKey(k: string): Option<string> {
    if StartsWith(k, KeyHead) then Some(k[|KeyHead|..]) else None
  }

  /** Distinct logical keys occupy distinct physical slots. */
  lemma PhysicalKeyInjective(a: string, b: string)
    requires PhysicalKey(a) == PhysicalKey(b)
    ensures a == b
  {
    assert LogicalKey(PhysicalKey(a)) == Some(a);
  }

  // ---------------------------------------------------------------------
  // The store as a value: what each operation does to the slots.

  /** What `getCache(key)` yields in a given state. */
  function Lookup<T>(slots: Slots<T>, key: string): Option<Entry<T>> {
    var k := PhysicalKey(key);
    if k in slots && slots[k].Stored? then Some(slots[k].entry) else None
  }

  /** The state after `setCache(key, data)` at time `now`; a browser write
      that `localStorage` refuses changes nothing. */
  function Put<T>(backend: Backend, slots: Slots<T>, key: string, data: T, now: int, writeOk: bool): Slots<T> {
    if backend == Server || writeOk then slots[PhysicalKey(key) := Stored(Entry(data, now))] else slots
  }

  /** The state after `removeCache(key)`. */
  function Removed<T>(slots: Slots<T>, key: string): Slots<T> {
    slots - {PhysicalKey(key)}
  }

  /** The state after `clearCache()`: the server map is emptied; in the
      browser only keys in the cache's namespace go. */
  function Cleared<T>(backend: Backend, slots: Slots<T>): Slots<T> {
    if backend == Server then map[]
    else map k | k in slots && !StartsWith(k, Prefix) :: slots[k]
  }

  /** Write-then-read: a read after a successful write returns exactly the
      data written, stamped with the write's time. */
  lemma PutThenLookup<T>(backend: Backend, slots: Slots<T>, key: string, data: T, now: int, writeOk: bool)
    requires backend == Server || writeOk
    ensures Lookup(Put(backend, slots, key, data, now, writeOk), key) == Some(Entry(data, now))
  {
  }

  /** Overwrite, not merge: the second of two writes to one key wins whole. */
  lemma PutOverwrites<T>(backend: Backend, slots: Slots<T>, key: string, d1: T, t1: int, d2: T, t2: int)
    ensures Put(backend, Put(backend, slots, key, d1, t1, true), key, d2, t2, true)
         == Put(backend, slots, key, d2, t2, true)
  {
  }

  /** A write touches no other key's entry. */
  lemma PutLeavesOthers<T>(backend: Backend, slots: Slots<T>, key: string, other: string, data: T, now: int, writeOk: bool)
    requires other != key
    ensures Lookup(Put(backend, slots, key, data, now, writeOk), other) == Lookup(slots, other)
  {
    if PhysicalKey(other) == PhysicalKey(key) {
      PhysicalKeyInjective(other, key);
    }
  }

  /** A refused browser write, and a read, leave the store as it was. */
  lemma FailedWriteChangesNothing<T>(slots: Slots<T>, key: string, data: T, now: int)
    ensures Put(Browser, slots, key, data, now, false) == slots
  {
  }

  /** A slot that does not parse reads as absent instead of failing. */
  lemma UnreadableIsAbsent<T>(slots: Slots<T>, key: string)
    requires PhysicalKey(key) in slots && slots[PhysicalKey(key)] == Unreadable
    ensures Lookup(slots, key) == None
  {
  }

  /** Removing a key makes it absent and leaves every other key's entry. */
  lemma RemovedIsExact<T>(slots: Slots<T>, key: string, other: string)
    ensures Lookup(Removed(slots, key), key) == None
    ensures other != key ==> Lookup(Removed(slots, other), key) == Lookup(slots, key)
  {
    if other != key && PhysicalKey(other) == PhysicalKey(key) {
      PhysicalKeyInjective(other, key);
    }
  }

  /** Namespace isolation: clearing the browser cache leaves no key with
      the cache prefix (whatever its version, readable or not), so every
      cache slot reads empty, and keeps every foreign key with its value. */
  lemma ClearedKeepsForeign<T>(slots: Slots<T>, k: string, key: string)
    ensures Lookup(Cleared(Browser, slots), key) == None
    ensures forall j | j in Cleared(Browser, slots) :: !StartsWith(j, Prefix)
    ensures k in slots && !StartsWith(k, Prefix) ==> k in Cleared(Browser, slots) && Cleared(Browser, slots)[k] == slots[k]
  {
  }

  // ---------------------------------------------------------------------
  // The store as an object whose slots the operations update in place.

  class CacheStore<T> {
    const backend: Backend
    var slots: Slots<T>

    /** The server map only ever holds readable entries under our keys. */
    ghost predicate Valid()
      reads this
    {
      backend == Backend.Server ==> forall k | k in slots :: slots[k].Stored? && LogicalKey(k).Some?
    }

    /** The server's empty process-wide map. */
    constructor OnServer()
      ensures Valid() && backend == Backend.Server && slots == map[]
    {
      backend := Backend.Server;
      slots := map[];
    }

    /** The browser's `localStorage`, as it is found, foreign keys included. */
    constructor InBrowser(existing: Slots<T>)
      ensures Valid() && backend == Backend.Browser && slots == existing
    {
      backend := Backend.Browser;
      slots := existing;
    }

    /** `setCache`: store `data` stamped `now`; a refused browser write is
        swallowed. */
    method Set(key: string, data: T, now: int, writeOk: bool)
      requires Valid()
      modifies this
      ensures Valid()
      ensures slots == Put(backend, old(slots), key, data, now, writeOk)
    {
      if backend == Backend.Server {
        slots := slots[PhysicalKey(key) := Stored(Entry(data, now))];
      } else if writeOk {
        slots := slots[PhysicalKey(key) := Stored(Entry(data, now))];
      }
    }

    /** `getCache`: the entry under `key`, or none when the key was never
        written, was removed, or does not parse. Nothing expires. */
    method Get(key: string) returns (r: Option<Entry<T>>)
      ensures r == Lookup(slots, key)
      ensures r.Some? ==> PhysicalKey(key) in slots && slots[PhysicalKey(key)] == Stored(r.value)
    {
      var k := PhysicalKey(key);
      if k in slots {
        match slots[k]
        case Stored(e) => r := Some(e);
        case Unreadable => r := None;
      } else {
        r := None;
      }
    }

    /** `getCacheTimestamp`: none on the server; in the browser the stored
        entry's time, or none when there is no readable entry. */
    method GetTimestamp(key: string) returns (r: Option<int>)
      ensures backend == Backend.Server ==> r == None
      ensures backend == Backend.Browser ==>
        r == (if Lookup(slots, key).Some? then Some(Lookup(slots, key).value.timestamp) else None)
    {
      if backend == Backend.Server {
        return None;
      }
      var entry := Get(key);
      r := if entry.Some? then Some(entry.value.timestamp) else None;
    }

    /** `removeCache`: delete exactly the physical key for `key`. */
    method Remove(key: string)
      requires Valid()
      modifies this
      ensures Valid()
      ensures slots == Removed(old(slots), key)
    {
      slots := slots - {PhysicalKey(key)};
    }

    /** `clearCache`: the server map is emptied; in the browser every key is
        visited and those in the cache's namespace are removed. */
    method Clear()
      requires Valid()
      modifies this
      ensures Valid()
      ensures slots == Cleared(backend, old(slots))
    {
      if backend == Backend.Server {
        slots := map[];
        return;
      }
      var pending := slots.Keys;
      while pending != {}
        invariant pending <= old(slots).Keys
        invariant slots.Keys <= old(slots).Keys
        invariant forall k | k in pending :: k in slots
        invariant forall k | k in old(slots) && k !in pending :: k in slots <==> !StartsWith(k, Prefix)
        invariant forall k | k in slots :: slots[k] == old(slots)[k]
        decreases pending
      {
        var k :| k in pending;
        if StartsWith(k, Prefix) {
          slots := slots - {k};
        }
        pending := pending - {k};
      }
    }
  }

  // ---------------------------------------------------------------------
  // The logical keys of the read endpoints (`CacheKeys`).

  function BlocksKey(page: int, limit: int): string {
    "blocks_" + IntToString(page) + "_" + IntToString(limit)
  }
  function BlockByNumberKey(number: int): string {
    "block_number_" + IntToString(number)
  }
  function BlockByHashKey(hash: string): string {
    "block_hash_" + hash
  }
  function TransactionsKey(page: int, limit: int): string {
    "transactions_" + IntToString(page) + "_" + IntToString(limit)
  }
  function TransactionByHashKey(hash: string): string {
    "transaction_" + hash
  }
  function TransactionsByAddressKey(address: string, page: int, limit: int): string {
    "transactions_address_" + address + "_" + IntToString(page) + "_" + IntToString(limit)
  }
  function AccountKey(address: string): string {
    "account_" + address
  }
  function TokenBalancesKey(address: string, page: int, limit: int): string {
    "token_balances_" + address + "_" + IntToString(page) + "_" + IntToString(limit)
  }
  function ContractsKey(page: int, limit: int): string {
    "contracts_" + IntToString(page) + "_" + IntToString(limit)
  }
  function ContractKey(address: string): string {
    "contract_" + address
  }
  function ContractsByDeployerKey(address: string, page: int, limit: int): string {
    "contracts_deployer_" + address + "_" + IntToString(page) + "_" + IntToString(limit)
  }

  /** How many characters follow the last `c` in `s` (all of them when
      there is none). */
  function AfterLast(s: string, c: char): (n: nat)
    ensures n <= |s|
  {
    if s == [] then 0 else if s[|s| - 1] == c then 0 else AfterLast(s[..|s| - 1], c) + 1
  }

  lemma {:induction false} AfterLastOf(a: string, c: char, x: string)
    requires c !in x
    ensures AfterLast(a + [c] + x, c) == |x|
  {
    if x != [] {
      var x' := x[..|x| - 1];
      assert (a + [c] + x)[..|a + [c] + x| - 1] == a + [c] + x';
      AfterLastOf(a, c, x');
    }
  }

  /** Splitting at the last occurrence of a separator that the tail does not
      contain recovers both parts. */
  lemma SplitLast(a: string, x: string, b: string, y: string, sep: char)
    requires a + [sep] + x == b + [sep] + y
    requires sep !in x && sep !in y
    ensures a == b && x == y
  {
    var s := a + [sep] + x;
    AfterLastOf(a, sep, x);
    AfterLastOf(b, sep, y);
    assert x == s[|s| - |x|..] == y;
    assert a == s[..|a|] == b;
  }

  /** Integer texts carry no `_`, so they can be split off at one. */
  lemma NoUnderscore(i: int)
    ensures '_' !in IntToString(i)
  {
  }

  /** A paginated key `g_page_limit` determines its page, its limit and
      whatever precedes them. */
  lemma PagedKeyInjective(g1: string, p1: int, l1: int, g2: string, p2: int, l2: int)
    requires g1 + "_" + IntToString(p1) + "_" + IntToString(l1) == g2 + "_" + IntToString(p2) + "_" + IntToString(l2)
    ensures g1 == g2 && p1 == p2 && l1 == l2
  {
    NoUnderscore(p1); NoUnderscore(p2); NoUnderscore(l1); NoUnderscore(l2);
    assert (g1 + "_" + IntToString(p1)) + ['_'] + IntToString(l1) == (g2 + "_" + IntToString(p2)) + ['_'] + IntToString(l2);
    SplitLast(g1 + "_" + IntToString(p1), IntToString(l1), g2 + "_" + IntToString(p2), IntToString(l2), '_');
    assert g1 + ['_'] + IntToString(p1) == g2 + ['_'] + IntToString(p2);
    SplitLast(g1, IntToString(p1), g2, IntToString(p2), '_');
    IntToStringInjective(l1, l2);
    IntToStringInjective(p1, p2);
  }

  lemma HeadCancels(h: string, x: string, y: string)
    requires h + x == h + y
    ensures x == y
  {
    assert x == (h + x)[|h|..];
  }

  /** `<head><x>_<y>` with no `_` in `y` determines `x` and `y`. */
  lemma HeadSplitLast(head: string, x1: string, y1: string, x2: string, y2: string)
    requires head + x1 + "_" + y1 == head + x2 + "_" + y2
    requires '_' !in y1 && '_' !in y2
    ensures x1 == x2 && y1 == y2
  {
    assert head + x1 + "_" + y1 == head + (x1 + ['_'] + y1);
    assert head + x2 + "_" + y2 == head + (x2 + ['_'] + y2);
    HeadCancels(head, x1 + ['_'] + y1, x2 + ['_'] + y2);
    SplitLast(x1, y1, x2, y2, '_');
  }

  /** A list key `<head><page>_<limit>` determines its page and limit. */
  lemma ListKeyInjective(head: string, p1: int, l1: int, p2: int, l2: int)
    requires head + IntToString(p1) + "_" + IntToString(l1) == head + IntToString(p2) + "_" + IntToString(l2)
    ensures p1 == p2 && l1 == l2
  {
    NoUnderscore(l1); NoUnderscore(l2);
    HeadSplitLast(head, IntToString(p1), IntToString(l1), IntToString(p2), IntToString(l2));
    IntToStringInjective(p1, p2);
    IntToStringInjective(l1, l2);
  }

  /** A per-address list key `<head><address>_<page>_<limit>` determines its
      address, page and limit. */
  lemma AddressListKeyInjective(head: string, a1: string, p1: int, l1: int, a2: string, p2: int, l2: int)
    requires head + a1 + "_" + IntToString(p1) + "_" + IntToString(l1) == head + a2 + "_" + IntToString(p2) + "_" + IntToString(l2)
    ensures a1 == a2 && p1 == p2 && l1 == l2
  {
    assert head + a1 + "_" + IntToString(p1) + "_" + IntToString(l1) == (head + a1) + "_" + IntToString(p1) + "_" + IntToString(l1);
    assert head + a2 + "_" + IntToString(p2) + "_" + IntToString(l2) == (head + a2) + "_" + IntToString(p2) + "_" + IntToString(l2);
    PagedKeyInjective(head + a1, p1, l1, head + a2, p2, l2);
    assert a1 == (head + a1)[|head|..];
    assert a2 == (head + a2)[|head|..];
  }

  lemma BlocksKeyInjective(p1: int, l1: int, p2: int, l2: int)
    requires BlocksKey(p1, l1) == BlocksKey(p2, l2)
    ensures p1 == p2 && l1 == l2
  {
    ListKeyInjective("blocks_", p1, l1, p2, l2);
  }

  lemma TransactionsKeyInjective(p1: int, l1: int, p2: int, l2: int)
    requires TransactionsKey(p1, l1) == TransactionsKey(p2, l2)
    ensures p1 == p2 && l1 == l2
  {
    ListKeyInjective("transactions_", p1, l1, p2, l2);
  }

  lemma ContractsKeyInjective(p1: int, l1: int, p2: int, l2: int)
    requires ContractsKey(p1, l1) == ContractsKey(p2, l2)
    ensures p1 == p2 && l1 == l2
  {
    ListKeyInjective("contracts_", p1, l1, p2, l2);
  }

  lemma TransactionsByAddressKeyInjective(a1: string, p1: int, l1: int, a2: string, p2: int, l2: int)
    requires TransactionsByAddressKey(a1, p1, l1) == TransactionsByAddressKey(a2, p2, l2)
    ensures a1 == a2 && p1 == p2 && l1 == l2
  {
    AddressListKeyInjective("transactions_address_", a1, p1, l1, a2, p2, l2);
  }

  lemma TokenBalancesKeyInjective(a1: string, p1: int, l1: int, a2: string, p2: int, l2: int)
    requires TokenBalancesKey(a1, p1, l1) == TokenBalancesKey(a2, p2, l2)
    ensures a1 == a2 && p1 == p2 && l1 == l2
  {
    AddressListKeyInjective("token_balances_", a1, p1, l1, a2, p2, l2);
  }

  lemma ContractsByDeployerKeyInjective(a1: string, p1: int, l1: int, a2: string, p2: int, l2: int)
    requires ContractsByDeployerKey(a1, p1, l1) == ContractsByDeployerKey(a2, p2, l2)
    ensures a1 == a2 && p1 == p2 && l1 == l2
  {
    AddressListKeyInjective("contracts_deployer_", a1, p1, l1, a2, p2, l2);
  }
}
