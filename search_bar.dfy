/**
 * The per-list search bar (blocks, transactions, contracts). A submit is
 * ignored when blank, rejected with an alert when the input does not fit
 * the list (a block hash must start with `0x` and a block number must not;
 * a contract address must start with `0x`), and otherwise navigates to the
 * detail page of the trimmed input.
 */
module SearchBar {
  import opened Text

  /** Which list the bar belongs to. */
  datatype ListKind = BlockList | TransactionList | ContractList

  /** The block bar's selector: search by number or by hash. */
  datatype BlockMode = ByNumber | ByHash

  /** Why an input was rejected (each is shown in an alert). */
  datatype Rejection = HashGivenForNumber | NumberGivenForHash | ContractWithoutPrefix

  datatype Decision = Ignore | Reject(why: Rejection) | Navigate(path: string)

  /** `handleSearch` for the bar of list `kind`, with the block selector at
      `mode`. */
  function HandleSearch(kind: ListKind, mode: BlockMode, search: string): Decision {
    if IsBlank(search) then Ignore
    else
      var input := Trim(search);
      match kind
      case BlockList =>
        var isHashInput := StartsWith(input, "0x");
        if mode == ByNumber && isHashInput then Reject(HashGivenForNumber)
        else if mode == ByHash && !isHashInput then Reject(NumberGivenForHash)
        else Navigate("/blocks/" + input)
      case TransactionList => Navigate("/transactions/" + input)
      case ContractList =>
        if !StartsWith(input, "0x") then Reject(ContractWithoutPrefix) else Navigate("/contracts/" + input)
  }

  /** The detail page of each list. */
  function DetailPrefix(kind: ListKind): string {
    match kind
    case BlockList => "/blocks/"
    case TransactionList => "/transactions/"
    case ContractList => "/contracts/"
  }

  /** Whether trimmed input `t` fits the list and the selector. */
  predicate Fits(kind: ListKind, mode: BlockMode, t: string) {
    match kind
    case BlockList => (mode == ByHash <==> StartsWith(t, "0x"))
    case TransactionList => true
    case ContractList => StartsWith(t, "0x")
  }

  /** When the bar navigates: never on blank input; a block search exactly
      when the selector agrees with the `0x` prefix; a transaction search
      always; a contract search exactly with the prefix. It then goes to
      the list's detail page for the trimmed input, and a rejection names
      the rule that failed. */
  lemma NavigatesIff(kind: ListKind, mode: BlockMode, search: string)
    ensures var d := HandleSearch(kind, mode, search);
      var t := Trim(search);
      (d == Ignore <==> IsBlank(search)) &&
      (d.Navigate? <==> (!IsBlank(search) && Fits(kind, mode, t))) &&
      (d.Navigate? ==> d.path == DetailPrefix(kind) + t) &&
      (d.Reject? ==> (d.why == ContractWithoutPrefix <==> kind == ContractList)) &&
      (kind == BlockList && d.Reject? ==> (d.why == HashGivenForNumber <==> mode == ByNumber))
  {
  }
}
