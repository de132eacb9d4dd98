/**
 * The summary cards of the list pages: what a contract, block or
 * transaction card shows — its link, a shortened identifier, a status
 * label and how long ago it happened.
 */
module Cards {
  import opened Optional
  import opened Text
  import opened TimeAgo

  const GreenLabel := "bg-green-100 text-green-800 dark:bg-green-900 dark:text-green-200"
  const RedLabel := "bg-red-100 text-red-800 dark:bg-red-900 dark:text-red-200"

  datatype StatusLabel = StatusLabel(text: string, className: string)

  /** The status label of a contract or transaction card: absent when the
      status is undefined, `okText` in green for status 1, "Failed" in red
      for any other status. */
  function OutcomeLabel(status: Option<int>, okText: string): Option<StatusLabel> {
    if status.None? then None
    else if status.value == 1 then Some(StatusLabel(okText, GreenLabel))
    else Some(StatusLabel("Failed", RedLabel))
  }

  /** The label is shown exactly when the status is defined, is green
      exactly for status 1, and reads the success text exactly then. */
  lemma OutcomeLabelMeaning(status: Option<int>, okText: string)
    requires okText != "Failed"
    ensures OutcomeLabel(status, okText).Some? <==> status.Some?
    ensures OutcomeLabel(status, okText).Some? ==>
      (OutcomeLabel(status, okText).value.text == okText <==> status.value == 1)
      && (OutcomeLabel(status, okText).value.className == GreenLabel <==> status.value == 1)
  {
    assert |GreenLabel| == |RedLabel| + 8;
  }

  /** `s.slice(0, n) + "..."` */
  function Truncated(s: string, n: nat): string {
    Take(s, n) + "..."
  }

  /** The shortened text is the first `n` characters (all of a shorter
      text) followed by an ellipsis. */
  lemma TruncatedMeaning(s: string, n: nat)
    ensures var t := Truncated(s, n);
      |t| == (if |s| < n then |s| else n) + 3
      && t[..|t| - 3] == s[..|t| - 3]
      && t[|t| - 3..] == "..."
  {
  }

  datatype ContractCard = ContractCard(
    href: string, status: Option<StatusLabel>, timeAgo: string,
    address: string, deployer: string, deployerHref: string, blockHref: string)

  function ContractCardOf(address: string, deployer: string, blockNumber: string, status: Option<int>,
                          timestampSecs: int, now: int): ContractCard
  {
    ContractCard(
      "/contracts/" + address,
      OutcomeLabel(status, "Deployed"),
      AgoText(CardTimeAgo(now, timestampSecs)),
      Truncated(address, 12),
      Truncated(deployer, 12),
      "/address/" + deployer,
      "/blocks/" + blockNumber)
  }

  /** A contract card links to the contract, labels it "Deployed" for
      status 1 and "Failed" otherwise, and shows the address and deployer
      cut to 12 characters. */
  lemma ContractCardMeaning(address: string, deployer: string, blockNumber: string, status: Option<int>,
                            timestampSecs: int, now: int)
    ensures var c := ContractCardOf(address, deployer, blockNumber, status, timestampSecs, now);
      c.href[|"/contracts/"|..] == address
      && (c.status.Some? <==> status.Some?)
      && (c.status.Some? ==> (c.status.value.text == "Deployed" <==> status.value == 1))
      && StartsWith(address, c.address[..|c.address| - 3]) && |c.address| <= 15
      && StartsWith(deployer, c.deployer[..|c.deployer| - 3]) && |c.deployer| <= 15
  {
    OutcomeLabelMeaning(status, "Deployed");
    TruncatedMeaning(address, 12);
    TruncatedMeaning(deployer, 12);
  }

  datatype BlockCard = BlockCard(href: string, title: string, timeAgo: string, proposer: string, proposerHref: string)

  function BlockCardOf(number: string, proposer: string, timestampSecs: int, now: int): BlockCard {
    BlockCard(
      "/blocks/" + number,
      "Block #" + number,
      AgoText(CardTimeAgo(now, timestampSecs)),
      Truncated(proposer, 12),
      "/address/" + proposer)
  }

  /** A block card links to the block page for its number and shows the
      proposer cut to 12 characters, linking to the full proposer address. */
  lemma BlockCardMeaning(number: string, proposer: string, timestampSecs: int, now: int)
    ensures var b := BlockCardOf(number, proposer, timestampSecs, now);
      StartsWith(b.href, "/blocks/") && b.href[8..] == number
      && StartsWith(proposer, b.proposer[..|b.proposer| - 3]) && |b.proposer| <= 15
      && b.proposerHref[9..] == proposer
  {
    TruncatedMeaning(proposer, 12);
  }

  datatype TransactionCard = TransactionCard(href: string, hash: string, status: Option<StatusLabel>, timeAgo: string)

  /** The transaction card, with its age label as corrected (the timestamp
      is in seconds). */
  function TransactionCardOf(hash: string, status: Option<int>, timestampSecs: int, now: int): TransactionCard {
    TransactionCard(
      "/transactions/" + hash,
      Truncated(hash, 20),
      OutcomeLabel(status, "Success"),
      AgoText(TxTimeAgo(now, timestampSecs)))
  }

  /** A transaction card links to the transaction, shows the hash cut to 20
      characters and labels it "Success" for status 1, "Failed" otherwise. */
  lemma TransactionCardMeaning(hash: string, status: Option<int>, timestampSecs: int, now: int)
    ensures var t := TransactionCardOf(hash, status, timestampSecs, now);
      t.href[|"/transactions/"|..] == hash
      && StartsWith(hash, t.hash[..|t.hash| - 3]) && |t.hash| <= 23
      && (t.status.Some? <==> status.Some?)
      && (t.status.Some? ==> (t.status.value.text == "Success" <==> status.value == 1))
  {
    OutcomeLabelMeaning(status, "Success");
    TruncatedMeaning(hash, 20);
  }
}
