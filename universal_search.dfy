/**
 * The header's single search box. As the user types, the input is
 * classified (block number, address, or hash) and a hint is shown; on
 * submit the input is routed, probing the API where the kind is ambiguous:
 * an address may be a contract or an account, a hash a block or a
 * transaction.
 */
module UniversalSearch {
  import opened Optional
  import opened Text

  datatype InputKind = BlockNumber | Address | Hash

  /** The hint line under the box. */
  datatype Hint = NoHint | BlockNumberDetected | AddressDetected | HashDetected | KeepTyping | InvalidFormat

  function HintText(h: Hint): string {
    match h
    case NoHint => ""
    case BlockNumberDetected => "\U{26D3}\U{FE0F} Block Number detected"
    case AddressDetected => "\U{1F464} Address / Contract detected"
    case HashDetected => "\U{1F50D} Block/Transaction Hash detected"
    case KeepTyping => "\U{2328}\U{FE0F} Keep typing..."
    case InvalidFormat => "\U{274C} Invalid format"
  }

  /** `detectInputType`: the kind of the trimmed input and the hint it sets. */
  function DetectInputType(input: string): (Option<InputKind>, Hint) {
    if IsBlank(input) then (None, NoHint) else Classify(Trim(input))
  }

  /** The regular-expression tests on non-blank, trimmed text, in order. */
  function Classify(trimmed: string): (Option<InputKind>, Hint) {
    if AllDigits(trimmed) then (Some(BlockNumber), BlockNumberDetected)
    else if StartsWith(trimmed, "0x") && |trimmed[2..]| == 40 && AllHex(trimmed[2..]) then (Some(Address), AddressDetected)
    else if StartsWith(trimmed, "0x") && |trimmed[2..]| == 64 && AllHex(trimmed[2..]) then (Some(Hash), HashDetected)
    else if StartsWith(trimmed, "0x") && |trimmed[2..]| < 64 && AllHex(trimmed[2..]) then (None, KeepTyping)
    else (None, InvalidFormat)
  }

  /** Text starting with `0x` is never all digits. */
  lemma HexPrefixNotDigits(t: string)
    requires StartsWith(t, "0x")
    ensures !AllDigits(t)
  {
    assert t[1] == "0x"[1];
  }

  /** What the classifier accepts: a blank input clears the hint; only
      digits is a block number; `0x` and exactly 40 hex digits an address;
      `0x` and exactly 64 hex digits a hash; `0x` and a shorter run of hex
      digits (other than 40) is still being typed; a hint naming a kind is
      shown exactly when a kind is returned. */
  lemma DetectKinds(input: string)
    ensures var (kind, hint) := DetectInputType(input);
      var t := Trim(input);
      (hint == NoHint <==> IsBlank(input)) &&
      (kind == Some(BlockNumber) <==> t != [] && AllDigits(t)) &&
      (kind == Some(Address) <==> IsPrefixedHex(t, 40)) &&
      (kind == Some(Hash) <==> IsPrefixedHex(t, 64)) &&
      (hint == KeepTyping <==> StartsWith(t, "0x") && |t| < 66 && |t| != 42 && AllHex(t[2..])) &&
      (kind.Some? <==> hint in {BlockNumberDetected, AddressDetected, HashDetected}) &&
      (kind == Some(BlockNumber) <==> hint == BlockNumberDetected) &&
      (kind == Some(Address) <==> hint == AddressDetected) &&
      (kind == Some(Hash) <==> hint == HashDetected)
  {
    var t := Trim(input);
    if StartsWith(t, "0x") {
      HexPrefixNotDigits(t);
    }
  }

  /** Classifying the trimmed input is classifying the input. */
  lemma DetectOnTrimmed(input: string)
    ensures DetectInputType(Trim(input)) == DetectInputType(input)
  {
    var t := Trim(input);
    TrimIdempotent(input);
    if t != [] {
      assert !IsWhitespace(t[0]);
    }
    assert IsBlank(t) <==> IsBlank(input);
    assert !IsBlank(input) ==> Classify(Trim(t)) == Classify(t);
  }

  /** Lower-casing an address or a hash keeps its kind, so the normalized
      form that is looked up is still an address or a hash. */
  lemma LowerKeepsKind(t: string, n: nat)
    requires IsPrefixedHex(t, n)
    ensures IsPrefixedHex(Lower(t), n)
    ensures Trim(Lower(t)) == Lower(t)
  {
    var l := Lower(t);
    assert l[..2] == "0x" by { assert l[0] == '0' && l[1] == 'x'; }
    forall i | 0 <= i < |l[2..]| ensures IsHexDigit(l[2..][i]) {
      assert l[2..][i] == LowerChar(t[2..][i]);
    }
    assert !IsWhitespace(l[0]) && !IsWhitespace(l[|l| - 1]);
    TrimOfTrimmed(l);
  }

  // ---------------------------------------------------------------------
  // Routing on submit

  /** The outcome of one API probe: ok, non-ok, or thrown. */
  datatype Probe = Found | Missing | Fails

  datatype Navigation = NoNavigation | Push(path: string)

  /** Where a submitted, trimmed input goes, and the API paths probed on the
      way, given the outcomes of the first and second probe. Addresses and
      hashes are looked up in lower case; a thrown probe leads to the
      not-found page. */
  function Route(trimmed: string, first: Probe, second: Probe): (Navigation, seq<string>) {
    RouteFor(DetectInputType(trimmed).0, trimmed, first, second)
  }

  /** Routing once the kind is known. */
  function RouteFor(kind: Option<InputKind>, trimmed: string, first: Probe, second: Probe): (Navigation, seq<string>) {
    match kind
    case None => (Push("/not-found"), [])
    case Some(BlockNumber) => (Push("/blocks/" + trimmed), [])
    case Some(Address) => Probed("/contracts/", "/contracts/", "/accounts/", "/address/", Lower(trimmed), first, second)
    case Some(Hash) => Probed("/blocks/hash/", "/blocks/", "/transactions/", "/transactions/", Lower(trimmed), first, second)
  }

  /** Two probes in turn: the first API path, the page it leads to, the
      second API path, the page it leads to; not-found when neither is ok
      or a probe throws. */
  function Probed(api1: string, page1: string, api2: string, page2: string, normalized: string, first: Probe, second: Probe): (Navigation, seq<string>) {
    if first == Found then (Push(page1 + normalized), [api1 + normalized])
    else if first == Fails then (Push("/not-found"), [api1 + normalized])
    else if second == Found then (Push(page2 + normalized), [api1 + normalized, api2 + normalized])
    else (Push("/not-found"), [api1 + normalized, api2 + normalized])
  }

  /** Two paths with different second characters never coincide. */
  lemma PathsDiffer(a: string, b: string, x: string, y: string)
    requires |a| > 1 && |b| > 1 && a[1] != b[1]
    ensures a + x != b + y
  {
    assert (a + x)[1] == a[1];
  }

  /** Of two probes, the first path is always probed; its page is reached
      exactly when it is ok, the second page exactly when the first is
      not ok without throwing and the second is ok. */
  lemma ProbedFacts(api1: string, page1: string, api2: string, page2: string, normalized: string, first: Probe, second: Probe)
    requires |page1| > 1 && |page2| > 1 && page1[1] != page2[1] && page1[1] != 'n' && page2[1] != 'n'
    ensures var (nav, probes) := Probed(api1, page1, api2, page2, normalized, first, second);
      1 <= |probes| <= 2 && probes[0] == api1 + normalized &&
      (|probes| == 2 <==> first == Missing) &&
      (nav == Push(page1 + normalized) <==> first == Found) &&
      (nav == Push(page2 + normalized) <==> first == Missing && second == Found)
  {
    PathsDiffer(page1, page2, normalized, normalized);
    PathsDiffer(page1, "/not-found", normalized, []);
    PathsDiffer(page2, "/not-found", normalized, []);
    assert "/not-found" + [] == "/not-found";
  }

  /** What routing promises: an unclassified input is sent to not-found
      without a probe; a block number goes straight to its block; an
      address is tried as a contract before an account and a hash as a
      block before a transaction, each probe on the lower-cased input.
      (`Route` is `RouteFor` applied to the kind `DetectInputType` finds.) */
  lemma RouteFacts(kind: Option<InputKind>, trimmed: string, first: Probe, second: Probe)
    ensures var (nav, probes) := RouteFor(kind, trimmed, first, second);
      var l := Lower(trimmed);
      nav.Push? && |probes| <= 2 &&
      (kind.None? ==> nav == Push("/not-found") && probes == []) &&
      (kind == Some(BlockNumber) ==> nav == Push("/blocks/" + trimmed) && probes == []) &&
      (kind == Some(Address) ==>
        (probes[0] == "/contracts/" + l &&
        (nav == Push("/contracts/" + l) <==> first == Found) &&
        (nav == Push("/address/" + l) <==> first == Missing && second == Found))) &&
      (kind == Some(Hash) ==>
        (probes[0] == "/blocks/hash/" + l &&
        (nav == Push("/blocks/" + l) <==> first == Found) &&
        (nav == Push("/transactions/" + l) <==> first == Missing && second == Found)))
  {
    var l := Lower(trimmed);
    ProbedFacts("/contracts/", "/contracts/", "/accounts/", "/address/", l, first, second);
    ProbedFacts("/blocks/hash/", "/blocks/", "/transactions/", "/transactions/", l, first, second);
  }

  /** The two sequential lookups of `handleSearch`: probe the first API
      path; on ok go to its page, on a throw to not-found, otherwise probe
      the second path. */
  method ProbeInTurn(api1: string, page1: string, api2: string, page2: string, normalized: string, first: Probe, second: Probe)
    returns (nav: Navigation, probes: seq<string>)
    ensures (nav, probes) == Probed(api1, page1, api2, page2, normalized, first, second)
  {
    probes := [api1 + normalized];
    if first == Found {
      nav := Push(page1 + normalized);
    } else if first == Fails {
      nav := Push("/not-found");
    } else {
      probes := [api1 + normalized, api2 + normalized];
      nav := if second == Found then Push(page2 + normalized) else Push("/not-found");
    }
  }

  /** The lookups `handleSearch` makes for a classified input. */
  method Dispatch(kind: InputKind, trimmed: string, first: Probe, second: Probe) returns (nav: Navigation, probes: seq<string>)
    ensures (nav, probes) == RouteFor(Some(kind), trimmed, first, second)
  {
    match kind {
      case BlockNumber =>
        nav, probes := Push("/blocks/" + trimmed), [];
      case Address =>
        nav, probes := ProbeInTurn("/contracts/", "/contracts/", "/accounts/", "/address/", Lower(trimmed), first, second);
      case Hash =>
        nav, probes := ProbeInTurn("/blocks/hash/", "/blocks/", "/transactions/", "/transactions/", Lower(trimmed), first, second);
    }
  }

  /** The search box: the text typed, the hint shown, and whether a search
      is in flight. */
  class SearchBox {
    var search: string
    var hint: Hint
    var isSearching: bool

    constructor ()
      ensures search == [] && hint == NoHint && !isSearching
    {
      search := [];
      hint := NoHint;
      isSearching := false;
    }

    /** Typing: the text is kept and classified for the hint. */
    method InputChange(value: string)
      modifies this
      ensures search == value && hint == DetectInputType(value).1 && isSearching == old(isSearching)
    {
      search := value;
      var (_, h) := DetectInputType(value);
      hint := h;
    }

    /** Submitting: ignored when blank or while a search is in flight;
        otherwise the trimmed text is classified again and routed, and the
        in-flight flag is clear at the end. */
    method HandleSearch(first: Probe, second: Probe) returns (nav: Navigation, probes: seq<string>)
      modifies this
      ensures search == old(search)
      ensures IsBlank(old(search)) || old(isSearching) ==>
        nav == NoNavigation && probes == [] && hint == old(hint) && isSearching == old(isSearching)
      ensures !IsBlank(old(search)) && !old(isSearching) ==>
        (nav, probes) == Route(Trim(old(search)), first, second) &&
        hint == DetectInputType(old(search)).1 && !isSearching
    {
      var input := search;
      if IsBlank(input) || isSearching {
        return NoNavigation, [];
      }
      var trimmed := Trim(input);
      DetectOnTrimmed(input);
      var (kind, h) := DetectInputType(trimmed);
      hint := h;
      assert Route(trimmed, first, second) == RouteFor(kind, trimmed, first, second);
      if kind.None? {
        return Push("/not-found"), [];
      }
      isSearching := true;
      nav, probes := Dispatch(kind.value, trimmed, first, second);
      isSearching := false;
    }
  }
}
