/**
 * The contract page's interaction panel: the ABI's functions split into
 * read functions (view, pure), called without a transaction, and write
 * functions (nonpayable, payable), executed as one; and the text typed
 * into each input turned into the parameter list sent with a call.
 */
module ContractInteraction {
  import opened Optional
  import opened Text

  datatype AbiInput = AbiInput(name: string, typ: string)

  /** An ABI item: functions, events, constructors and errors alike. */
  datatype AbiItem = AbiItem(name: string, itemType: string, inputs: seq<AbiInput>, stateMutability: string)

  /** The items of `s` that satisfy `p`, in their order. */
  function Filter<T>(s: seq<T>, p: T -> bool): (r: seq<T>)
    ensures |r| <= |s|
    ensures forall x | x in r :: x in s && p(x)
    ensures forall x | x in s && p(x) :: x in r
  {
    if s == [] then [] else (if p(s[0]) then [s[0]] else []) + Filter(s[1..], p)
  }

  /** Filtering keeps order: a filtered concatenation is the concatenation
      of the filtered parts. */
  lemma {:induction false} FilterAppend<T>(a: seq<T>, b: seq<T>, p: T -> bool)
    ensures Filter(a + b, p) == Filter(a, p) + Filter(b, p)
  {
    if a != [] {
      assert (a + b)[1..] == a[1..] + b;
      FilterAppend(a[1..], b, p);
    } else {
      assert a + b == b;
    }
  }

  predicate IsFunction(item: AbiItem) { item.itemType == "function" }
  predicate IsRead(item: AbiItem) { item.stateMutability == "view" || item.stateMutability == "pure" }
  predicate IsWrite(item: AbiItem) { item.stateMutability == "nonpayable" || item.stateMutability == "payable" }

  /** The ABI's functions; a missing ABI has none. */
  function Functions(abi: Option<seq<AbiItem>>): seq<AbiItem> {
    Filter(abi.GetOr([]), IsFunction)
  }

  function ReadFunctions(functions: seq<AbiItem>): seq<AbiItem> {
    Filter(functions, IsRead)
  }

  function WriteFunctions(functions: seq<AbiItem>): seq<AbiItem> {
    Filter(functions, IsWrite)
  }

  /** The tabs partition what they show: every listed item is a function;
      no function is both read and write; a function with any other
      mutability is in neither tab; and every view, pure, nonpayable or
      payable function is listed in its tab. */
  lemma TabsPartition(abi: Option<seq<AbiItem>>)
    ensures var fs := Functions(abi);
      (forall f | f in ReadFunctions(fs) :: IsFunction(f) && !(f in WriteFunctions(fs))) &&
      (forall f | f in WriteFunctions(fs) :: IsFunction(f)) &&
      (forall f | f in fs && !IsRead(f) && !IsWrite(f) :: f !in ReadFunctions(fs) && f !in WriteFunctions(fs)) &&
      (forall f | f in abi.GetOr([]) && IsFunction(f) && IsRead(f) :: f in ReadFunctions(fs)) &&
      (forall f | f in abi.GetOr([]) && IsFunction(f) && IsWrite(f) :: f in WriteFunctions(fs))
  {
  }

  /** The two tabs never hold more functions than the ABI has. */
  lemma {:induction false} TabsCount(functions: seq<AbiItem>)
    ensures |ReadFunctions(functions)| + |WriteFunctions(functions)| <= |functions|
  {
    if functions != [] {
      TabsCount(functions[1..]);
    }
  }

  // ---------------------------------------------------------------------
  // Parameters

  predicate IsNumeric(typ: string) { StartsWith(typ, "uint") || StartsWith(typ, "int") }

  /** The value sent for one input whose text box holds `value`: a blank
      number is `0`, a blank bool `false`, any other blank empty; an address
      is trimmed and lower-cased; anything else is trimmed. */
  function NormalizeParam(typ: string, value: string): string {
    var trimmed := Trim(value);
    if trimmed == [] then
      (if IsNumeric(typ) then "0" else if typ == "bool" then "false" else "")
    else if typ == "address" then Lower(trimmed)
    else trimmed
  }

  /** `paramsArray`: one value per input, in input order, from the text typed
      at that input's index (nothing typed reads as empty). */
  function ParamsArray(inputs: seq<AbiInput>, params: map<int, string>): (r: seq<string>)
    ensures |r| == |inputs|
    ensures forall i | 0 <= i < |inputs| ::
      r[i] == NormalizeParam(inputs[i].typ, if i in params then params[i] else "")
  {
    seq(|inputs|, i requires 0 <= i < |inputs| => NormalizeParam(inputs[i].typ, if i in params then params[i] else ""))
  }

  /** A normalized value carries no surrounding whitespace, an address no
      upper-case letter, and normalizing it again changes nothing. */
  lemma NormalizeIdempotent(typ: string, value: string)
    ensures var v := NormalizeParam(typ, value);
      NormalizeParam(typ, v) == v &&
      (v != [] ==> !IsWhitespace(v[0]) && !IsWhitespace(v[|v| - 1])) &&
      (typ == "address" ==> forall i | 0 <= i < |v| :: !('A' <= v[i] <= 'Z'))
  {
    if Trim(value) == [] {
      NormalizeBlank(typ, value);
    } else if typ == "address" {
      NormalizeAddress(value);
      assert NormalizeParam(typ, value) == NormalizeParam("address", value);
    } else {
      NormalizeOther(typ, value);
    }
  }

  lemma NormalizeOther(typ: string, value: string)
    requires Trim(value) != [] && typ != "address"
    ensures var v := NormalizeParam(typ, value);
      v == Trim(value) && NormalizeParam(typ, v) == v && !IsWhitespace(v[0]) && !IsWhitespace(v[|v| - 1])
  {
    var t := Trim(value);
    assert NormalizeParam(typ, value) == t;
    TrimIdempotent(value);
    assert Trim(t) == t && t != [];
  }

  lemma NormalizeBlank(typ: string, value: string)
    requires Trim(value) == []
    ensures var v := NormalizeParam(typ, value);
      NormalizeParam(typ, v) == v && (v != [] ==> !IsWhitespace(v[0]) && !IsWhitespace(v[|v| - 1])) &&
      (typ == "address" ==> v == [])
    ensures NormalizeParam(typ, value) == if IsNumeric(typ) then "0" else if typ == "bool" then "false" else ""
  {
    TrimOfLiterals();
    NamedTypesNotNumeric();
    if IsNumeric(typ) {
      BlankTo(typ, value, "0");
    } else if typ == "bool" {
      BlankTo(typ, value, "false");
    } else {
      BlankTo(typ, value, "");
    }
  }

  /** A blank box sends its type's default `d`. */
  lemma BlankTo(typ: string, value: string, d: string)
    requires Trim(value) == []
    requires d == if IsNumeric(typ) then "0" else if typ == "bool" then "false" else ""
    ensures NormalizeParam(typ, value) == d
  {
  }

  /** `address` and `bool` are not numeric types. */
  lemma NamedTypesNotNumeric()
    ensures !IsNumeric("address") && !IsNumeric("bool")
  {
    assert "address"[..4][0] != "uint"[0] && "address"[..3][0] != "int"[0];
    assert "bool"[..4][0] != "uint"[0] && "bool"[..3][0] != "int"[0];
  }

  lemma TrimOfLiterals()
    ensures Trim("0") == "0" && Trim("false") == "false" && Trim("") == ""
  {
    TrimOfTrimmed("0");
    TrimOfTrimmed("false");
  }

  lemma NormalizeAddress(value: string)
    requires Trim(value) != []
    ensures var v := NormalizeParam("address", value);
      v == Lower(Trim(value)) &&
      NormalizeParam("address", v) == v && !IsWhitespace(v[0]) && !IsWhitespace(v[|v| - 1]) &&
      forall i | 0 <= i < |v| :: !('A' <= v[i] <= 'Z')
  {
    var t := Trim(value);
    var l := Lower(t);
    LowerIdempotent(t);
    assert !IsWhitespace(l[0]) && !IsWhitespace(l[|l| - 1]);
    TrimOfTrimmed(l);
  }

  /** The HTML input kind of each parameter type. */
  function InputType(typ: string): string {
    if IsNumeric(typ) then "number"
    else if typ == "bool" then "checkbox"
    else "text"
  }

  /** A blank input's default suits its widget: `0` for a number box,
      `false` for a checkbox, empty text otherwise. */
  lemma DefaultSuitsWidget(typ: string, value: string)
    requires IsBlank(value)
    ensures var d := NormalizeParam(typ, value);
      (InputType(typ) == "number" <==> d == "0") &&
      (InputType(typ) == "checkbox" <==> d == "false") &&
      (InputType(typ) == "text" <==> d == "")
  {
  }
}
