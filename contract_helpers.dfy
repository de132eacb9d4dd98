/**
 * Helpers for contract lists: collapsing addresses that differ only in
 * letter case before looking each one up, and filling in a displayable
 * contract record from a deployment summary when no detail is known.
 */
module ContractHelpers {
  import opened Optional
  import opened Text
  import opened Api

  /** A (lower-cased key, address as first given) pair. */
  type Pair = (string, string)

  /** The pairs `fetchContractDetailMap` looks up: one per case-insensitive
      address, keeping the first spelling met; `seen` holds the keys met so far. */
  function Dedupe(addresses: seq<string>, seen: set<string>): seq<Pair>
    decreases |addresses|
  {
    if addresses == [] then []
    else
      var lower := Lower(addresses[0]);
      if lower in seen then Dedupe(addresses[1..], seen)
      else [(lower, addresses[0])] + Dedupe(addresses[1..], seen + {lower})
  }

  /** The key set of a list of pairs. */
  function KeySet(pairs: seq<Pair>): set<string> {
    set i | 0 <= i < |pairs| :: pairs[i].0
  }

  /** Every pair is keyed by its address lower-cased, no key repeats or was
      already seen, and each kept address comes from the input. */
  lemma {:induction false} DedupeWellFormed(addresses: seq<string>, seen: set<string>)
    ensures forall i | 0 <= i < |Dedupe(addresses, seen)| ::
      Dedupe(addresses, seen)[i].0 == Lower(Dedupe(addresses, seen)[i].1)
      && Dedupe(addresses, seen)[i].0 !in seen
      && Dedupe(addresses, seen)[i].1 in addresses
    ensures forall i, j | 0 <= i < j < |Dedupe(addresses, seen)| ::
      Dedupe(addresses, seen)[i].0 != Dedupe(addresses, seen)[j].0
    decreases |addresses|
  {
    if addresses != [] {
      var lower := Lower(addresses[0]);
      if lower in seen {
        DedupeWellFormed(addresses[1..], seen);
        assert forall a | a in addresses[1..] :: a in addresses;
      } else {
        DedupeWellFormed(addresses[1..], seen + {lower});
        assert forall a | a in addresses[1..] :: a in addresses;
      }
    }
  }

  /** Every address of the input is represented: its lower-cased form is a
      key, unless that key was already seen. */
  lemma {:induction false} DedupeCovers(addresses: seq<string>, seen: set<string>)
    ensures forall a | a in addresses :: Lower(a) in seen || Lower(a) in KeySet(Dedupe(addresses, seen))
    ensures KeySet(Dedupe(addresses, seen)) !! seen
    decreases |addresses|
  {
    if addresses != [] {
      var lower := Lower(addresses[0]);
      var rest := addresses[1..];
      assert forall a | a in addresses :: a == addresses[0] || a in rest;
      if lower in seen {
        DedupeCovers(rest, seen);
      } else {
        DedupeCovers(rest, seen + {lower});
        var tail := Dedupe(rest, seen + {lower});
        var r := Dedupe(addresses, seen);
        assert r == [(lower, addresses[0])] + tail;
        assert forall i | 0 <= i < |tail| :: r[i + 1] == tail[i];
        assert KeySet(r) == {lower} + KeySet(tail) by {
          forall k | k in KeySet(tail) ensures k in KeySet(r) {
            var i :| 0 <= i < |tail| && tail[i].0 == k;
            assert r[i + 1].0 == k;
          }
          assert r[0].0 == lower;
        }
      }
    }
  }

  /** The spelling kept for a key is the first one in the input with that key. */
  lemma {:induction false} DedupeKeepsFirst(addresses: seq<string>, seen: set<string>, i: int)
    requires 0 <= i < |Dedupe(addresses, seen)|
    ensures exists j | 0 <= j < |addresses| ::
      addresses[j] == Dedupe(addresses, seen)[i].1
      && forall k | 0 <= k < j :: Lower(addresses[k]) != Dedupe(addresses, seen)[i].0
    decreases |addresses|
  {
    var lower := Lower(addresses[0]);
    var rest := addresses[1..];
    var r := Dedupe(addresses, seen);
    if lower in seen {
      DedupeKeepsFirst(rest, seen, i);
      DedupeWellFormed(rest, seen);
      var j :| 0 <= j < |rest| && rest[j] == r[i].1
        && forall k | 0 <= k < j :: Lower(rest[k]) != r[i].0;
      assert addresses[j + 1] == r[i].1;
      assert r[i].0 !in seen;
      forall k | 0 <= k < j + 1 ensures Lower(addresses[k]) != r[i].0 {
        if k > 0 { assert addresses[k] == rest[k - 1]; }
      }
    } else if i == 0 {
      assert addresses[0] == r[0].1;
    } else {
      var tail := Dedupe(rest, seen + {lower});
      assert r[i] == tail[i - 1];
      DedupeKeepsFirst(rest, seen + {lower}, i - 1);
      DedupeWellFormed(rest, seen + {lower});
      var j :| 0 <= j < |rest| && rest[j] == r[i].1
        && forall k | 0 <= k < j :: Lower(rest[k]) != r[i].0;
      assert addresses[j + 1] == r[i].1;
      assert r[i].0 != lower;
      forall k | 0 <= k < j + 1 ensures Lower(addresses[k]) != r[i].0 {
        if k > 0 { assert addresses[k] == rest[k - 1]; }
      }
    }
  }

  /** The `forEach` with its `seen` set, proved to compute `Dedupe`. */
  method UniquePairs(addresses: seq<string>) returns (pairs: seq<Pair>)
    ensures pairs == Dedupe(addresses, {})
  {
    pairs := [];
    var seen: set<string> := {};
    var i := 0;
    while i < |addresses|
      invariant 0 <= i <= |addresses|
      invariant pairs + Dedupe(addresses[i..], seen) == Dedupe(addresses, {})
    {
      var lower := Lower(addresses[i]);
      assert addresses[i..][1..] == addresses[i + 1..];
      if lower !in seen {
        seen := seen + {lower};
        pairs := pairs + [(lower, addresses[i])];
      }
      i := i + 1;
    }
    assert addresses[i..] == [];
  }

  /** The value stored for one address: the `data` of what `getContract`
      returned (`None` when the response has none), or `null` when the call
      threw or its response was `null`. */
  function Detail(lookup: Outcome<Json>): Option<Json> {
    match lookup
    case Returned(body) => if body == JNull then Some(JNull) else Field(body, "data")
    case Threw(_) => Some(JNull)
  }

  /** `new Map(results)` over the looked-up pairs. */
  function MapOf(pairs: seq<Pair>, lookup: string -> Outcome<Json>): (m: map<string, Option<Json>>)
    ensures m.Keys == KeySet(pairs)
  {
    if pairs == [] then map[]
    else
      var last := pairs[|pairs| - 1];
      var init := pairs[..|pairs| - 1];
      assert KeySet(pairs) == KeySet(init) + {last.0} by {
        assert forall i | 0 <= i < |init| :: init[i] == pairs[i];
      }
      MapOf(init, lookup)[last.0 := Detail(lookup(last.1))]
  }

  /** With distinct keys each key maps to the detail of its own address. */
  lemma {:induction false} MapOfValues(pairs: seq<Pair>, lookup: string -> Outcome<Json>, i: int)
    requires forall a, b | 0 <= a < b < |pairs| :: pairs[a].0 != pairs[b].0
    requires 0 <= i < |pairs|
    ensures MapOf(pairs, lookup)[pairs[i].0] == Detail(lookup(pairs[i].1))
    decreases |pairs|
  {
    if i < |pairs| - 1 {
      var init := pairs[..|pairs| - 1];
      assert init[i] == pairs[i];
      MapOfValues(init, lookup, i);
    }
  }

  /** `fetchContractDetailMap`, with `lookup` standing for `getContract`. */
  function ContractDetailMap(addresses: seq<string>, lookup: string -> Outcome<Json>): map<string, Option<Json>> {
    MapOf(Dedupe(addresses, {}), lookup)
  }

  /** The map has exactly one key per case-insensitive address, and each key
      holds the detail fetched for the first spelling of that address. */
  lemma ContractDetailMapMeaning(addresses: seq<string>, lookup: string -> Outcome<Json>)
    ensures ContractDetailMap(addresses, lookup).Keys == set a | a in addresses :: Lower(a)
    ensures forall k | k in ContractDetailMap(addresses, lookup) ::
      exists j | 0 <= j < |addresses| ::
        Lower(addresses[j]) == k
        && (forall x | 0 <= x < j :: Lower(addresses[x]) != k)
        && ContractDetailMap(addresses, lookup)[k] == Detail(lookup(addresses[j]))
  {
    var pairs := Dedupe(addresses, {});
    DedupeWellFormed(addresses, {});
    DedupeCovers(addresses, {});
    forall k | k in ContractDetailMap(addresses, lookup)
      ensures exists j | 0 <= j < |addresses| ::
        Lower(addresses[j]) == k
        && (forall x | 0 <= x < j :: Lower(addresses[x]) != k)
        && ContractDetailMap(addresses, lookup)[k] == Detail(lookup(addresses[j]))
    {
      var i :| 0 <= i < |pairs| && pairs[i].0 == k;
      MapOfValues(pairs, lookup, i);
      DedupeKeepsFirst(addresses, {}, i);
      var j :| 0 <= j < |addresses| && addresses[j] == pairs[i].1
        && forall x | 0 <= x < j :: Lower(addresses[x]) != pairs[i].0;
      assert Lower(addresses[j]) == k;
    }
  }

  /** The deployment summary a contract list is built from. Optional text is
      `None` when absent; `status` is `None` when absent. */
  datatype DeployedContractSummary = DeployedContractSummary(
    contractAddress: string,
    deployerAddress: Option<string>,
    transactionHash: string,
    blockNumber: string,
    blockHash: Option<string>,
    status: Option<int>,
    timestamp: string)

  datatype Contract = Contract(
    address: string,
    deployer: string,
    transactionHash: string,
    blockNumber: string,
    blockHash: string,
    bytecode: Option<string>,
    status: int,
    abi: Option<seq<Json>>,
    name: Option<string>,
    sourceCode: Option<string>,
    compilerVersion: Option<string>,
    optimization: Option<bool>,
    timestamp: string,
    createdAt: string)

  /** JavaScript truthiness of an optional string. */
  predicate Present(s: Option<string>) {
    s.Some? && s.value != []
  }

  function BuildFallbackContract(summary: DeployedContractSummary, fallbackDeployer: string): Contract {
    Contract.Contract(
      summary.contractAddress,
      if Present(summary.deployerAddress) then summary.deployerAddress.value else fallbackDeployer,
      summary.transactionHash,
      summary.blockNumber,
      if Present(summary.blockHash) then summary.blockHash.value else "",
      None,
      if summary.status == Some(0) then 0 else 1,
      None, None, None, None, None,
      summary.timestamp,
      summary.timestamp)
  }

  /** The fallback record: identity fields copied, the deployer defaulted
      only when the summary has none, status 0 exactly when the summary says
      0 (anything else, absent included, is success), the detail fields
      unknown, and the creation time equal to the timestamp. */
  lemma FallbackContractMeaning(summary: DeployedContractSummary, fallbackDeployer: string)
    ensures var c := BuildFallbackContract(summary, fallbackDeployer);
      c.address == summary.contractAddress
      && c.transactionHash == summary.transactionHash
      && c.blockNumber == summary.blockNumber
      && (c.deployer == fallbackDeployer <== !Present(summary.deployerAddress))
      && (Present(summary.deployerAddress) ==> c.deployer == summary.deployerAddress.value)
      && (c.blockHash == [] <==> !Present(summary.blockHash))
      && (Present(summary.blockHash) ==> c.blockHash == summary.blockHash.value)
      && (c.status == 0 <==> summary.status == Some(0))
      && (c.status == 0 || c.status == 1)
      && c.bytecode == None && c.abi == None && c.name == None
      && c.sourceCode == None && c.compilerVersion == None && c.optimization == None
      && c.createdAt == c.timestamp == summary.timestamp
  {
  }
}
