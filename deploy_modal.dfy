/**
 * The contract-deployment dialog. Submitting validates the pasted bytecode
 * (present, `0x`-prefixed, hex digits only) and sends the trimmed bytecode
 * to the deploy call; the dialog shows either the first failed check, the
 * call's error, or the call's result. Closing it clears everything.
 */
module DeployModal {
  import opened Optional
  import opened Text
  import opened Api

  /** The validation failures, in the order they are checked. */
  datatype Problem = EmptyBytecode | MissingPrefix | NotHex

  /** What the dialog shows as its error. */
  datatype ErrorShown =
    | Invalid(problem: Problem)
    | DeployMessage(message: Json)   // the error's own message
    | DeployFallback                 // the dialog's generic failure text

  datatype Checked = Accepted(bytecode: string) | Rejected(problem: Problem)

  /** The validation chain of `handleDeploy`; the first failing check wins. */
  function CheckBytecode(raw: string): Checked {
    if IsBlank(raw) then Rejected(EmptyBytecode)
    else
      var trimmed := Trim(raw);
      if !StartsWith(trimmed, "0x") then Rejected(MissingPrefix)
      else if !AllHex(trimmed[2..]) then Rejected(NotHex)
      else Accepted(trimmed)
  }

  /** What validation accepts: exactly `0x` followed by zero or more hex
      digits once trimmed (so a bare `0x` passes), and what it passes on is
      the trimmed text. A blank input is reported as empty before anything
      else, and the hex check only fails on `0x`-prefixed text. */
  lemma CheckBytecodeMeaning(raw: string)
    ensures CheckBytecode(raw).Accepted? <==> StartsWith(Trim(raw), "0x") && AllHex(Trim(raw)[2..])
    ensures CheckBytecode(raw).Accepted? ==> CheckBytecode(raw).bytecode == Trim(raw)
    ensures CheckBytecode(raw) == Rejected(EmptyBytecode) <==> IsBlank(raw)
    ensures CheckBytecode(raw) == Rejected(NotHex) ==> StartsWith(Trim(raw), "0x")
    ensures CheckBytecode("0x").Accepted?
  {
    assert "0x"[..2] == "0x";
    assert IsBlank(raw) <==> Trim(raw) == [];
    TrimOfTrimmed("0x");
  }

  /** The error a failed deploy call leaves on screen. */
  function DeployError(e: Error): ErrorShown {
    match e
    case Failed(m) => if Truthy(m) then DeployMessage(m) else DeployFallback
    case Propagated => DeployMessage(JStr("network error"))
    case NullAccess => DeployMessage(JStr("null access"))
  }

  class DeployForm {
    var bytecode: string
    var isDeploying: bool
    var error: Option<ErrorShown>
    var result: Option<Json>

    constructor ()
      ensures bytecode == [] && !isDeploying && error == None && result == None
    {
      bytecode := [];
      isDeploying := false;
      error := None;
      result := None;
    }

    /** Submitting: clear the last error and result; on a failed check show
        it and do not call; otherwise call deploy with the trimmed bytecode
        (`sent`) and show its result's `data` or its error. A `null`
        response makes reading `data` throw, which shows as an error. */
    method HandleDeploy(deploy: Outcome<Json>) returns (sent: Option<string>)
      modifies this
      ensures bytecode == old(bytecode)
      ensures isDeploying == (if sent.Some? then false else old(isDeploying))
      ensures sent == (if CheckBytecode(bytecode).Accepted? then Some(CheckBytecode(bytecode).bytecode) else None)
      ensures sent.None? ==> error == Some(Invalid(CheckBytecode(bytecode).problem)) && result == None
      ensures sent.Some? && deploy.Returned? && deploy.value != JNull ==>
        error == None && result == Field(deploy.value, "data")
      ensures sent.Some? && deploy == Returned(JNull) ==> error == Some(DeployError(NullAccess)) && result == None
      ensures sent.Some? && deploy.Threw? ==> error == Some(DeployError(deploy.error)) && result == None
    {
      error := None;
      result := None;
      var checked := CheckBytecode(bytecode);
      if checked.Rejected? {
        error := Some(Invalid(checked.problem));
        return None;
      }
      sent := Some(checked.bytecode);
      isDeploying := true;
      match deploy {
        case Returned(body) =>
          if body == JNull {
            error := Some(DeployMessage(JStr("null access")));
          } else {
            result := Field(body, "data");
          }
        case Threw(e) =>
          error := Some(DeployError(e));
      }
      isDeploying := false;
    }

    /** Closing: the bytecode, error and result are all cleared. */
    method HandleClose()
      modifies this
      ensures bytecode == [] && error == None && result == None && isDeploying == old(isDeploying)
    {
      bytecode := [];
      error := None;
      result := None;
    }
  }
}
