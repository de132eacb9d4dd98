/**
 * The API client. Every read endpoint is one instance of a single
 * fetch-with-fallback rule over the cache: one live attempt; on success the
 * body is stored and returned, otherwise the last stored body is returned,
 * or the failure is raised when nothing was stored. Write calls bypass the
 * cache and turn a non-ok response into an error carrying the server's
 * message or a fixed fallback.
 */
module Api {
  import opened Optional
  import opened Text
  import opened Entries
  import opened Decimal
  import opened Cache

  /** A parsed JSON value. An object's fields are in order, keys distinct. */
  datatype Json =
    | JNull
    | JBool(b: bool)
    | JNum(n: int)
    | JStr(s: string)
    | JArr(items: seq<Json>)
    | JObj(fields: seq<(string, Json)>)

  /** JavaScript truthiness of a JSON value. */
  predicate Truthy(j: Json) {
    match j
    case JNull => false
    case JBool(b) => b
    case JNum(n) => n != 0
    case JStr(s) => s != []
    case _ => true
  }

  /** Reading property `name` of a non-null value: only objects have the
      properties asked for here; `None` is `undefined`. */
  function Field(j: Json, name: string): (r: Option<Json>)
    ensures r.Some? ==> j.JObj? && (name, r.value) in j.fields
    ensures j.JObj? ==> (r.None? <==> name !in Keys(j.fields))
  {
    if j.JObj? then Get(j.fields, name) else None
  }

  /** What a call raises. `Failed` carries the value given to `new Error`;
      `Propagated` is an exception from `fetch` or from reading the body that
      nothing catches; `NullAccess` is the TypeError of reading a property
      of `null`. */
  datatype Error = Failed(message: Json) | Propagated | NullAccess

  datatype Outcome<T> = Returned(value: T) | Threw(error: Error)

  // ---------------------------------------------------------------------
  // Cached reads

  /** The single live attempt of a read: an ok response with its parsed
      body, a non-ok response, or an exception (network failure or a body
      that does not parse). */
  datatype Remote<T> = Ok(body: T) | NotOk | Throws

  /** What a read returns, given the entry found before the attempt. */
  function ReadRule<T>(cached: Option<Entry<T>>, remote: Remote<T>, failure: string): (r: Outcome<T>)
    ensures remote.Ok? ==> r == Returned(remote.body)
    ensures !remote.Ok? && cached.Some? ==> r == Returned(cached.value.data)
    ensures r.Threw? <==> !remote.Ok? && cached.None?
    ensures r.Threw? ==> (r.error == Failed(JStr(failure)) <==> remote.NotOk?)
  {
    match remote
    case Ok(body) => Returned(body)
    case NotOk => if cached.Some? then Returned(cached.value.data) else Threw(Failed(JStr(failure)))
    case Throws => if cached.Some? then Returned(cached.value.data) else Threw(Propagated)
  }

  /** The store after a read: only an ok response writes, under the read's
      own key. */
  function Refreshed<T>(backend: Backend, slots: Slots<T>, key: string, remote: Remote<T>, now: int, writeOk: bool): Slots<T> {
    if remote.Ok? then Put(backend, slots, key, remote.body, now, writeOk) else slots
  }

  /** The read wrapper, step by step: read the cache, attempt once, then
      store the fresh body or fall back. With no prior entry a non-ok
      response re-reads the cache before raising; an exception from the
      attempt is not caught in that branch. */
  method FetchWithFallback<T>(store: CacheStore<T>, key: string, remote: Remote<T>, failure: string, now: int, writeOk: bool)
    returns (r: Outcome<T>)
    requires store.Valid()
    modifies store
    ensures store.Valid()
    ensures r == ReadRule(old(Lookup(store.slots, key)), remote, failure)
    ensures store.slots == Refreshed(store.backend, old(store.slots), key, remote, now, writeOk)
  {
    var cached := store.Get(key);
    if cached.Some? {
      match remote
      case Ok(body) =>
        store.Set(key, body, now, writeOk);
        return Returned(body);
      case NotOk =>
        return Returned(cached.value.data);
      case Throws =>
        return Returned(cached.value.data);
    }
    match remote
    case Throws =>
      r := Threw(Propagated);
    case NotOk =>
      // The re-read finds an entry only when another read of the same key
      // stored one while this one awaited the network; reads here do not
      // interleave, so it always misses.
      var again := store.Get(key);
      match again {
        case Some(e) => r := Returned(e.data);
        case None => r := Threw(Failed(JStr(failure)));
      }
    case Ok(body) =>
      store.Set(key, body, now, writeOk);
      r := Returned(body);
  }

  /** The read endpoints with their arguments and the source's defaults. */
  datatype Endpoint =
    | Blocks(page: int := 1, limit: int := 20)
    | BlockByNumber(number: int)
    | BlockByHash(hash: string)
    | Transactions(page: int := 1, limit: int := 20)
    | TransactionByHash(hash: string)
    | TransactionsByAddress(address: string, page: int := 1, limit: int := 20)
    | Account(address: string)
    | TokenBalances(address: string, page: int := 1, limit: int := 10)
    | Contracts(page: int := 1, limit: int := 20)
    | Contract(address: string)
    | ContractsByDeployer(address: string, page: int := 1, limit: int := 20)

  /** The cache key each endpoint reads and writes. */
  function CacheKey(e: Endpoint): string {
    match e
    case Blocks(page, limit) => BlocksKey(page, limit)
    case BlockByNumber(number) => BlockByNumberKey(number)
    case BlockByHash(hash) => BlockByHashKey(hash)
    case Transactions(page, limit) => TransactionsKey(page, limit)
    case TransactionByHash(hash) => TransactionByHashKey(hash)
    case TransactionsByAddress(address, page, limit) => TransactionsByAddressKey(address, page, limit)
    case Account(address) => AccountKey(address)
    case TokenBalances(address, page, limit) => TokenBalancesKey(address, page, limit)
    case Contracts(page, limit) => ContractsKey(page, limit)
    case Contract(address) => ContractKey(address)
    case ContractsByDeployer(address, page, limit) => ContractsByDeployerKey(address, page, limit)
  }

  /** The message raised when an endpoint fails with nothing cached. */
  function FailureMessage(e: Endpoint): string {
    match e
    case Blocks(_, _) => "Failed to fetch blocks"
    case BlockByNumber(_) => "Failed to fetch block"
    case BlockByHash(_) => "Failed to fetch block"
    case Transactions(_, _) => "Failed to fetch transactions"
    case TransactionByHash(_) => "Failed to fetch transaction"
    case TransactionsByAddress(_, _, _) => "Failed to fetch transactions"
    case Account(_) => "Failed to fetch account"
    case TokenBalances(_, _, _) => "Failed to fetch token balances"
    case Contracts(_, _) => "Failed to fetch contracts"
    case Contract(_) => "Failed to fetch contract"
    case ContractsByDeployer(_, _, _) => "Failed to fetch contracts by deployer"
  }

  /** One read endpoint: the generic rule under the endpoint's key. */
  method Read<T>(store: CacheStore<T>, e: Endpoint, remote: Remote<T>, now: int, writeOk: bool)
    returns (r: Outcome<T>)
    requires store.Valid()
    modifies store
    ensures store.Valid()
    ensures r == ReadRule(old(Lookup(store.slots, CacheKey(e))), remote, FailureMessage(e))
    ensures store.slots == Refreshed(store.backend, old(store.slots), CacheKey(e), remote, now, writeOk)
  {
    r := FetchWithFallback(store, CacheKey(e), remote, FailureMessage(e), now, writeOk);
  }

  /** Omitted arguments take the source's defaults: page 1, limit 20, and
      limit 10 for token balances. */
  lemma DefaultArguments()
    ensures CacheKey(Blocks()) == BlocksKey(1, 20)
    ensures CacheKey(Transactions()) == TransactionsKey(1, 20)
    ensures CacheKey(Contracts()) == ContractsKey(1, 20)
    ensures forall a: string :: CacheKey(TransactionsByAddress(a)) == TransactionsByAddressKey(a, 1, 20)
    ensures forall a: string :: CacheKey(TokenBalances(a)) == TokenBalancesKey(a, 1, 10)
    ensures forall a: string :: CacheKey(ContractsByDeployer(a)) == ContractsByDeployerKey(a, 1, 20)
  {
  }

  // ---------------------------------------------------------------------
  // Properties of the read rule over a history of attempts

  /** One earlier read of a key: its live outcome, its time, and whether the
      browser accepted the write. */
  datatype Attempt<T> = Attempt(remote: Remote<T>, now: int, writeOk: bool)

  /** The store after a run of reads of one key, oldest first. */
  function AfterReads<T>(backend: Backend, slots: Slots<T>, key: string, history: seq<Attempt<T>>): Slots<T>
    decreases |history|
  {
    if history == [] then slots
    else
      var a := history[|history| - 1];
      Refreshed(backend, AfterReads(backend, slots, key, history[..|history| - 1]), key, a.remote, a.now, a.writeOk)
  }

  /** The body and time of the most recent attempt that reached the store. */
  function LastStored<T>(backend: Backend, history: seq<Attempt<T>>): Option<Entry<T>>
    decreases |history|
  {
    if history == [] then None
    else
      var a := history[|history| - 1];
      if a.remote.Ok? && (backend == Server || a.writeOk) then Some(Entry(a.remote.body, a.now))
      else LastStored(backend, history[..|history| - 1])
  }

  /** Last known good: after any run of reads of a key, the entry found is
      the last body that reached the store (or what was there before), so a
      failing read returns exactly that body. */
  lemma {:induction false} FallbackIsLastKnownGood<T>(backend: Backend, slots: Slots<T>, key: string, history: seq<Attempt<T>>)
    ensures LastStored(backend, history).Some? ==>
      Lookup(AfterReads(backend, slots, key, history), key) == LastStored(backend, history)
    ensures LastStored(backend, history).None? ==>
      Lookup(AfterReads(backend, slots, key, history), key) == Lookup(slots, key)
    decreases |history|
  {
    if history != [] {
      var a := history[|history| - 1];
      FallbackIsLastKnownGood(backend, slots, key, history[..|history| - 1]);
      if a.remote.Ok? && (backend == Server || a.writeOk) {
        PutThenLookup(backend, AfterReads(backend, slots, key, history[..|history| - 1]), key, a.remote.body, a.now, a.writeOk);
      }
    }
  }

  /** A read whose attempt fails after an earlier successful, stored read
      returns the earlier body and leaves the store as it was. */
  lemma StaleAfterSuccess<T>(backend: Backend, slots: Slots<T>, key: string, body: T, t: int, writeOk: bool, remote: Remote<T>, failure: string)
    requires backend == Server || writeOk
    requires !remote.Ok?
    ensures var s1 := Refreshed(backend, slots, key, Ok(body), t, writeOk);
      ReadRule(Lookup(s1, key), remote, failure) == Returned(body) &&
      Refreshed(backend, s1, key, remote, t, writeOk) == s1
  {
    PutThenLookup(backend, slots, key, body, t, writeOk);
  }

  // ---------------------------------------------------------------------
  // Every endpoint and argument list has a cache slot of its own

  /** Which builder a key came from, read off characters of its fixed head. */
  function KeyKind(k: string): nat {
    if |k| < 9 then 6
    else if k[0] == 'a' then 6
    else if k[0] == 'b' then (if k[5] == 's' then 0 else if k[6] == 'n' then 1 else 2)
    else if k[0] == 't' then
      (if k[1] == 'o' then 7 else if |k| > 11 && k[11] == '_' then 4 else if |k| > 13 && k[13] == 'a' then 5 else 3)
    else (if k[8] == '_' then 9 else if |k| > 10 && k[10] == 'd' then 10 else 8)
  }

  function KindIndex(e: Endpoint): nat {
    match e
    case Blocks(_, _) => 0
    case BlockByNumber(_) => 1
    case BlockByHash(_) => 2
    case Transactions(_, _) => 3
    case TransactionByHash(_) => 4
    case TransactionsByAddress(_, _, _) => 5
    case Account(_) => 6
    case TokenBalances(_, _, _) => 7
    case Contracts(_, _) => 8
    case Contract(_) => 9
    case ContractsByDeployer(_, _, _) => 10
  }

  lemma KeyKindOf(e: Endpoint)
    ensures KeyKind(CacheKey(e)) == KindIndex(e)
  {
    if KindIndex(e) in {0, 1, 2} {
      BlockKeyKinds(e);
    } else if KindIndex(e) in {3, 4, 5, 7} {
      TransactionKeyKinds(e);
    } else {
      OtherKeyKinds(e);
    }
  }

  lemma BlockKeyKinds(e: Endpoint)
    requires KindIndex(e) in {0, 1, 2}
    ensures KeyKind(CacheKey(e)) == KindIndex(e)
  {
    var k := CacheKey(e);
    match e
    case Blocks(p, l) =>
      assert k[0] == 'b' && k[5] == 's';
    case BlockByNumber(n) =>
      assert k[0] == 'b' && k[5] == '_' && k[6] == 'n';
    case BlockByHash(h) =>
      assert k[0] == 'b' && k[5] == '_' && k[6] == 'h';
  }

  lemma TransactionKeyKinds(e: Endpoint)
    requires KindIndex(e) in {3, 4, 5, 7}
    ensures KeyKind(CacheKey(e)) == KindIndex(e)
  {
    match e
    case Transactions(p, l) => TransactionListKind(p, l);
    case TransactionByHash(h) => TransactionKind(h);
    case TransactionsByAddress(a, p, l) => AddressTransactionsKind(a, p, l);
    case TokenBalances(a, p, l) => TokenBalancesKind(a, p, l);
  }

  lemma TransactionListKind(p: int, l: int)
    ensures KeyKind(CacheKey(Transactions(p, l))) == 3
  {
    var k := CacheKey(Transactions(p, l));
    assert k[0] == 't' && k[1] == 'r' && k[11] == 's' && k[13] == IntToString(p)[0];
  }

  lemma TransactionKind(h: string)
    ensures KeyKind(CacheKey(TransactionByHash(h))) == 4
  {
    var k := CacheKey(TransactionByHash(h));
    assert k[0] == 't' && k[1] == 'r' && k[11] == '_';
  }

  lemma AddressTransactionsKind(a: string, p: int, l: int)
    ensures KeyKind(CacheKey(TransactionsByAddress(a, p, l))) == 5
  {
    var k := CacheKey(TransactionsByAddress(a, p, l));
    assert k[0] == 't' && k[1] == 'r' && k[11] == 's' && k[13] == 'a';
  }

  lemma TokenBalancesKind(a: string, p: int, l: int)
    ensures KeyKind(CacheKey(TokenBalances(a, p, l))) == 7
  {
    var k := CacheKey(TokenBalances(a, p, l));
    assert k[0] == 't' && k[1] == 'o';
  }

  lemma OtherKeyKinds(e: Endpoint)
    requires KindIndex(e) in {6, 8, 9, 10}
    ensures KeyKind(CacheKey(e)) == KindIndex(e)
  {
    var k := CacheKey(e);
    match e
    case Account(a) =>
      assert |k| < 9 || k[0] == 'a';
    case Contracts(p, l) =>
      assert k[0] == 'c' && k[8] == 's' && k[10] == IntToString(p)[0];
    case Contract(a) =>
      assert k[0] == 'c' && k[8] == '_';
    case ContractsByDeployer(a, p, l) =>
      assert k[0] == 'c' && k[8] == 's' && k[10] == 'd';
  }

  /** Two reads share a cache slot only when they are the same request. */
  lemma CacheKeyInjective(e1: Endpoint, e2: Endpoint)
    requires CacheKey(e1) == CacheKey(e2)
    ensures e1 == e2
  {
    KeyKindOf(e1);
    KeyKindOf(e2);
    if KindIndex(e1) in {1, 2, 4, 6, 9} {
      SingleKeyInjective(e1, e2);
    } else if KindIndex(e1) in {0, 3, 8} {
      PagedListKeyInjective(e1, e2);
    } else {
      PagedAddressKeyInjective(e1, e2);
    }
  }

  /** Keys made of a fixed head and one free argument. */
  lemma SingleKeyInjective(e1: Endpoint, e2: Endpoint)
    requires KindIndex(e1) == KindIndex(e2) && KindIndex(e1) in {1, 2, 4, 6, 9}
    requires CacheKey(e1) == CacheKey(e2)
    ensures e1 == e2
  {
    match e1
    case BlockByNumber(n1) =>
      HeadCancels("block_number_", IntToString(n1), IntToString(e2.number));
      IntToStringInjective(n1, e2.number);
    case BlockByHash(h1) =>
      HeadCancels("block_hash_", h1, e2.hash);
    case TransactionByHash(h1) =>
      HeadCancels("transaction_", h1, e2.hash);
    case Account(a1) =>
      HeadCancels("account_", a1, e2.address);
    case Contract(a1) =>
      HeadCancels("contract_", a1, e2.address);
  }

  /** Paginated list keys: `<name>_<page>_<limit>`. */
  lemma PagedListKeyInjective(e1: Endpoint, e2: Endpoint)
    requires KindIndex(e1) == KindIndex(e2) && KindIndex(e1) in {0, 3, 8}
    requires CacheKey(e1) == CacheKey(e2)
    ensures e1 == e2
  {
    match e1
    case Blocks(p1, l1) => BlocksKeyInjective(p1, l1, e2.page, e2.limit);
    case Transactions(p1, l1) => TransactionsKeyInjective(p1, l1, e2.page, e2.limit);
    case Contracts(p1, l1) => ContractsKeyInjective(p1, l1, e2.page, e2.limit);
  }

  /** Paginated per-address keys: `<head><address>_<page>_<limit>`. */
  lemma PagedAddressKeyInjective(e1: Endpoint, e2: Endpoint)
    requires KindIndex(e1) == KindIndex(e2) && KindIndex(e1) in {5, 7, 10}
    requires CacheKey(e1) == CacheKey(e2)
    ensures e1 == e2
  {
    match e1
    case TransactionsByAddress(a1, p1, l1) =>
      TransactionsByAddressKeyInjective(a1, p1, l1, e2.address, e2.page, e2.limit);
    case TokenBalances(a1, p1, l1) =>
      TokenBalancesKeyInjective(a1, p1, l1, e2.address, e2.page, e2.limit);
    case ContractsByDeployer(a1, p1, l1) =>
      ContractsByDeployerKeyInjective(a1, p1, l1, e2.address, e2.page, e2.limit);
  }

  /** A read touches no other request's cached entry. */
  lemma ReadIsolation<T>(backend: Backend, slots: Slots<T>, e: Endpoint, other: Endpoint, remote: Remote<T>, now: int, writeOk: bool)
    requires other != e
    ensures Lookup(Refreshed(backend, slots, CacheKey(e), remote, now, writeOk), CacheKey(other)) == Lookup(slots, CacheKey(other))
  {
    if CacheKey(other) == CacheKey(e) {
      CacheKeyInjective(other, e);
    }
    if remote.Ok? {
      PutLeavesOthers(backend, slots, CacheKey(e), CacheKey(other), remote.body, now, writeOk);
    }
  }

  // ---------------------------------------------------------------------
  // Uncached calls: contract calls, deployment, wallets and stablecoins

  /** The response to an uncached call: its status and its body (`None` when
      the body is not JSON), or a failure of `fetch` itself. */
  datatype Response = Response(ok: bool, body: Option<Json>) | NetworkDown

  /** The uncached calls. None of them reads or writes the cache. */
  datatype Call =
    | CallContract | ExecuteContract | DeployContract | CreateWallet
    | StablecoinPosition | StablecoinHealth
    | DepositCollateral | MintStablecoin | RedeemStablecoin | WithdrawCollateral
    | Liquidate | TransferNative | TransferStablecoin | StablecoinBalance

  /** The message raised on a non-ok response when the server gives none. */
  function Fallback(c: Call): string {
    match c
    case CallContract => "Failed to call contract"
    case ExecuteContract => "Failed to execute contract"
    case DeployContract => "Failed to deploy contract"
    case CreateWallet => "Failed to create wallet"
    case StablecoinPosition => "Failed to fetch stablecoin position"
    case StablecoinHealth => "Failed to fetch stablecoin health"
    case DepositCollateral => "Failed to deposit collateral"
    case MintStablecoin => "Failed to mint stablecoin"
    case RedeemStablecoin => "Failed to redeem stablecoin"
    case WithdrawCollateral => "Failed to withdraw collateral"
    case Liquidate => "Failed to liquidate"
    case TransferNative => "Failed to transfer native coin"
    case TransferStablecoin => "Failed to transfer stablecoin"
    case StablecoinBalance => "Failed to get stablecoin balance"
  }

  /** Whether a non-ok response's body is read for a server message; the two
      stablecoin queries raise their fixed message without looking. */
  predicate ReadsErrorBody(c: Call) {
    !(c.StablecoinPosition? || c.StablecoinHealth?)
  }

  /** Whether the result is unwrapped with `data.data || data`; the contract
      and wallet calls return the whole body. */
  predicate UnwrapsData(c: Call) {
    !(c.CallContract? || c.ExecuteContract? || c.DeployContract? || c.CreateWallet?)
  }

  /** The error raised for a non-ok response whose body parsed to
      `errorBody` (a body that does not parse counts as `{}`): the body's
      `message` when it is truthy, otherwise the fallback. A body of `null`
      fails on the property read itself. */
  function ErrorFrom(errorBody: Option<Json>, fallback: string): (e: Error)
    ensures e == NullAccess <==> errorBody == Some(JNull)
    ensures e != NullAccess ==> e.Failed?
    ensures errorBody.None? ==> e == Failed(JStr(fallback))
    ensures e.Failed? && e.message != JStr(fallback) ==>
      errorBody.Some? && Field(errorBody.value, "message") == Some(e.message) && Truthy(e.message)
    ensures e.Failed? && fallback != [] ==> Truthy(e.message)
  {
    var errorData := errorBody.GetOr(JObj([]));
    if errorData == JNull then NullAccess
    else
      var m := Field(errorData, "message");
      if m.Some? && Truthy(m.value) then Failed(m.value) else Failed(JStr(fallback))
  }

  /** `data.data || data`: the envelope's `data` when it is truthy, else the
      body itself; reading a property of a `null` body fails. */
  function Unwrap(body: Json): (r: Outcome<Json>)
    ensures r.Threw? <==> body == JNull
    ensures r.Returned? ==> r.value == body || (Field(body, "data") == Some(r.value) && Truthy(r.value))
  {
    if body == JNull then Threw(NullAccess)
    else
      var d := Field(body, "data");
      if d.Some? && Truthy(d.value) then Returned(d.value) else Returned(body)
  }

  /** An uncached call, from its one response. */
  function UncachedCall(c: Call, resp: Response): (r: Outcome<Json>)
    ensures resp.NetworkDown? ==> r == Threw(Propagated)
    ensures resp.Response? && !resp.ok ==> r.Threw? && r.error != Propagated
    ensures resp.Response? && resp.ok && resp.body.None? ==> r == Threw(Propagated)
    ensures resp.Response? && resp.ok && resp.body.Some? && !UnwrapsData(c) ==> r == Returned(resp.body.value)
    ensures resp.Response? && resp.ok && resp.body.Some? && UnwrapsData(c) ==>
      r == Unwrap(resp.body.value)
      && (Field(resp.body.value, "data").Some? && Truthy(Field(resp.body.value, "data").value) ==>
            r == Returned(Field(resp.body.value, "data").value))
      && (resp.body.value != JNull && !(Field(resp.body.value, "data").Some? && Truthy(Field(resp.body.value, "data").value)) ==>
            r == Returned(resp.body.value))
  {
    match resp
    case NetworkDown => Threw(Propagated)
    case Response(ok, body) =>
      if !ok then
        Threw(if ReadsErrorBody(c) then ErrorFrom(body, Fallback(c)) else Failed(JStr(Fallback(c))))
      else if body.None? then Threw(Propagated)
      else if UnwrapsData(c) then Unwrap(body.value)
      else Returned(body.value)
  }

  /** A non-ok response whose JSON object carries a truthy `message` raises
      that message. */
  lemma ServerMessageWins(c: Call, fields: seq<(string, Json)>, m: Json)
    requires ReadsErrorBody(c)
    requires DistinctKeys(fields) && ("message", m) in fields && Truthy(m)
    ensures UncachedCall(c, Response(false, Some(JObj(fields)))) == Threw(Failed(m))
  {
    GetMember(fields, "message", m);
  }

  /** Without a usable server message the fixed fallback is raised: for a
      body that does not parse, for an object with no truthy `message`, and
      always for the two stablecoin queries. */
  lemma FallbackWhenNoMessage(c: Call, body: Option<Json>)
    requires !ReadsErrorBody(c) || body.None? ||
      (body.value.JObj? && forall m | ("message", m) in body.value.fields :: !Truthy(m))
    ensures UncachedCall(c, Response(false, body)) == Threw(Failed(JStr(Fallback(c))))
  {
  }

  /** The common envelope `{..., data: d}` with a truthy `d` unwraps to `d`. */
  lemma EnvelopeUnwraps(fields: seq<(string, Json)>, d: Json)
    requires DistinctKeys(fields) && ("data", d) in fields && Truthy(d)
    ensures Unwrap(JObj(fields)) == Returned(d)
  {
    GetMember(fields, "data", d);
  }

  /** A falsy `data` field (`0`, `""`, `false`, `null`) is not unwrapped: the
      whole envelope comes back. */
  lemma FalsyDataKeepsEnvelope(fields: seq<(string, Json)>, d: Json)
    requires DistinctKeys(fields) && ("data", d) in fields && !Truthy(d)
    ensures Unwrap(JObj(fields)) == Returned(JObj(fields))
  {
    GetMember(fields, "data", d);
  }
}
