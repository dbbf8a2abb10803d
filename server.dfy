/** The server's authoritative game state (server/index.js): the code registries,
    the single state record, and the socket and REST handlers that mutate it. */
module Server {
  import opened Entries

  const RecoveryCodeValues: seq<string> :=
    ["4821", "9153", "6158", "2049", "7385", "1593", "8264", "4710", "5937", "0682"]

  const QrCodeValues: seq<string> :=
    ["R3C0V3R", "K3YF1ND3", "L0CKB0X1", "C0D3HUN7", "UNL0CKM3", "S3CR3T42", "P4ZZL3X1", "D4T4L0CK",
     "F1L3K3Y7", "CLU3S3EK", "TR34SUR3", "G4M3C0D3", "QRC0D3ME", "H4CKTH1S", "S0LV3M31"]

  /** Declared by the server but used by none of its handlers. */
  const FinalHiddenCode: string := "6158"

  /** The JSON record broadcast as `game-state` (the timestamp is left out). */
  datatype GameState = GameState(playerCount: int, recoveryCodes: seq<CodeEntry>, qrCodes: seq<CodeEntry>)

  /** What the startup read of the save file produced. */
  datatype SavedFile =
    | Missing
    | Unreadable
    | Parsed(recoveryCodes: Option<seq<CodeEntry>>, qrCodes: Option<seq<CodeEntry>>)

  /** Status emitted to the submitting socket (`recovery-code-status`, `qr-scan-status`). */
  datatype CodeStatus = CodeStatus(code: string, success: bool)

  /** JSON body of the REST submit handlers; `codes` is the collection after the call. */
  datatype SubmitResponse = SubmitResponse(ok: bool, success: bool, message: Option<string>, codes: seq<CodeEntry>)

  /** JSON body of the admin toggle handlers. */
  datatype ToggleResponse = ToggleResponse(ok: bool, codes: seq<CodeEntry>)

  /** A collection built from a registry, nothing flagged. */
  function FreshEntries(values: seq<string>): (r: seq<CodeEntry>)
    ensures CodesOf(r) == values
    ensures CountFlagged(r) == 0
  {
    var r := seq(|values|, i requires 0 <= i < |values| => CodeEntry(values[i], false));
    CountFlaggedNone(r);
    r
  }

  /** The registries list every code once. */
  lemma RecoveryRegistryDistinct()
    ensures Distinct(FreshEntries(RecoveryCodeValues))
  {
  }

  lemma QrRegistryDistinct()
    ensures Distinct(FreshEntries(QrCodeValues))
  {
  }

  /** Every registry QR code is upper case, so upper-casing a registry code
      gives it back. */
  lemma QrRegistryUpper()
    ensures forall i :: 0 <= i < |QrCodeValues| ==> IsUpperAscii(QrCodeValues[i])
  {
  }

  /** Submit semantics: find the first entry with the code and set its flag
      (`if (!found.entered) found.entered = true`). */
  function Mark(s: seq<CodeEntry>, code: string): (r: seq<CodeEntry>)
    ensures CodesOf(r) == CodesOf(s)
    ensures FirstIndex(s, code).None? ==> r == s
    ensures FirstIndex(s, code).Some? ==>
      var i := FirstIndex(s, code).value;
      r[i].flag && forall j :: 0 <= j < |s| && j != i ==> r[j] == s[j]
  {
    match FirstIndex(s, code)
    case None => s
    case Some(i) => if s[i].flag then s else s[i := s[i].(flag := true)]
  }

  /** Admin toggle semantics: find the first entry with the code and negate its flag. */
  function Flip(s: seq<CodeEntry>, code: string): (r: seq<CodeEntry>)
    ensures CodesOf(r) == CodesOf(s)
    ensures FirstIndex(s, code).None? ==> r == s
    ensures FirstIndex(s, code).Some? ==>
      var i := FirstIndex(s, code).value;
      r[i].flag == !s[i].flag && forall j :: 0 <= j < |s| && j != i ==> r[j] == s[j]
  {
    match FirstIndex(s, code)
    case None => s
    case Some(i) => s[i := s[i].(flag := !s[i].flag)]
  }

  /** Submitting a code a second time changes nothing. */
  lemma MarkIdempotent(s: seq<CodeEntry>, code: string)
    ensures Mark(Mark(s, code), code) == Mark(s, code)
  {
    FirstIndexDependsOnCodes(Mark(s, code), s, code);
  }

  /** Toggling the same code twice restores the collection. */
  lemma FlipInvolution(s: seq<CodeEntry>, code: string)
    ensures Flip(Flip(s, code), code) == s
  {
    FirstIndexDependsOnCodes(Flip(s, code), s, code);
  }

  /** A submit never lowers the count of flagged entries; it raises it by one
      exactly when the matched entry was not yet flagged. */
  lemma MarkCount(s: seq<CodeEntry>, code: string)
    ensures CountFlagged(Mark(s, code)) ==
      CountFlagged(s) + (if FirstIndex(s, code).Some? && !s[FirstIndex(s, code).value].flag then 1 else 0)
  {
    match FirstIndex(s, code)
    case None =>
    case Some(i) =>
      if !s[i].flag {
        CountFlaggedUpdate(s, i, s[i].(flag := true));
      }
  }

  /** The REST QR path upper-cases its input before the lookup; the socket path
      does not. On the registry, "r3c0v3r" is accepted by the first and
      refused by the second. */
  lemma QrCaseAsymmetry()
    ensures FirstIndex(FreshEntries(QrCodeValues), "r3c0v3r").None?
    ensures FirstIndex(FreshEntries(QrCodeValues), ToUpperAscii("r3c0v3r")) == Some(0)
    ensures Mark(FreshEntries(QrCodeValues), ToUpperAscii("r3c0v3r"))[0] == CodeEntry("R3C0V3R", true)
  {
    var registry := FreshEntries(QrCodeValues);
    assert ToUpperAscii("r3c0v3r") == "R3C0V3R";
    assert registry[0].code == "R3C0V3R";
    assert forall j :: 0 <= j < |registry| ==> registry[j].code == QrCodeValues[j];
    assert forall j :: 0 <= j < |registry| ==> registry[j].code[0] != 'r';
  }

  /** In general, a lookup by an input whose upper-case form is a code of an
      all-upper-case collection succeeds on the REST path. */
  lemma RestQrLookupIgnoresCase(s: seq<CodeEntry>, input: string, i: nat)
    requires i < |s| && ToUpperAscii(input) == s[i].code
    ensures FirstIndex(s, ToUpperAscii(input)).Some?
  {
  }

  /** `Array.prototype.find` over the stored array: the index of the first
      entry whose code is exactly `code`. */
  method Find(a: array<CodeEntry>, code: string) returns (found: Option<nat>)
    ensures found == FirstIndex(a[..], code)
  {
    var i := 0;
    while i < a.Length
      invariant 0 <= i <= a.Length
      invariant forall j :: 0 <= j < i ==> a[j].code != code
    {
      if a[i].code == code {
        return Some(i);
      }
      i := i + 1;
    }
    return None;
  }

  /** `found = arr.find(...)`, then `if (!found.flag) found.flag = true`, in place. */
  method MarkFirst(a: array<CodeEntry>, code: string) returns (success: bool)
    modifies a
    ensures a[..] == Mark(old(a[..]), code)
    ensures success == FirstIndex(old(a[..]), code).Some?
  {
    var found := Find(a, code);
    success := found.Some?;
    if found.Some? && !a[found.value].flag {
      a[found.value] := a[found.value].(flag := true);
    }
  }

  /** `found = arr.find(...)`, then `if (found) found.flag = !found.flag`, in place. */
  method FlipFirst(a: array<CodeEntry>, code: string)
    modifies a
    ensures a[..] == Flip(old(a[..]), code)
  {
    var found := Find(a, code);
    if found.Some? {
      a[found.value] := a[found.value].(flag := !a[found.value].flag);
    }
  }

  /** A fresh array holding `s`. */
  method ToArray(s: seq<CodeEntry>) returns (a: array<CodeEntry>)
    ensures fresh(a) && a[..] == s
  {
    a := new CodeEntry[|s|](i requires 0 <= i < |s| => s[i]);
  }

  /** The process-wide `gameState` record. `broadcasts` records, in order,
      every full state pushed to all sockets by `broadcastState()`. */
  class GameStore {
    var playerCount: int
    var recoveryCodes: array<CodeEntry>
    var qrCodes: array<CodeEntry>
    ghost var broadcasts: seq<GameState>

    ghost predicate Valid()
      reads this
    {
      0 <= playerCount && recoveryCodes != qrCodes
    }

    /** Both collections hold exactly the registry's codes, in registry order. */
    ghost predicate MatchesRegistry()
      reads this, recoveryCodes, qrCodes
    {
      CodesOf(recoveryCodes[..]) == RecoveryCodeValues && CodesOf(qrCodes[..]) == QrCodeValues
    }

    /** The full state, as `GET /state`, `request-game-state` and every broadcast send it. */
    function Snapshot(): GameState
      reads this, recoveryCodes, qrCodes
    {
      GameState(playerCount, recoveryCodes[..], qrCodes[..])
    }

    /** Process start: fresh collections from the registries, replaced by the
        saved ones only when the save file was read and holds both. */
    constructor Start(saved: SavedFile)
      ensures Valid() && fresh(recoveryCodes) && fresh(qrCodes)
      ensures playerCount == 0 && broadcasts == []
      ensures if saved.Parsed? && saved.recoveryCodes.Some? && saved.qrCodes.Some?
        then recoveryCodes[..] == saved.recoveryCodes.value && qrCodes[..] == saved.qrCodes.value
        else recoveryCodes[..] == FreshEntries(RecoveryCodeValues) && qrCodes[..] == FreshEntries(QrCodeValues)
    {
      var rec := FreshEntries(RecoveryCodeValues);
      var qr := FreshEntries(QrCodeValues);
      if saved.Parsed? && saved.recoveryCodes.Some? && saved.qrCodes.Some? {
        rec, qr := saved.recoveryCodes.value, saved.qrCodes.value;
      }
      var recArray := ToArray(rec);
      var qrArray := ToArray(qr);
      playerCount := 0;
      recoveryCodes := recArray;
      qrCodes := qrArray;
      broadcasts := [];
    }

    /** Socket `connection`: one more player; the full state goes to that socket only. */
    method Connect() returns (sent: GameState)
      requires Valid()
      modifies this`playerCount
      ensures Valid()
      ensures playerCount == old(playerCount) + 1
      ensures recoveryCodes[..] == old(recoveryCodes[..]) && qrCodes[..] == old(qrCodes[..])
      ensures sent == Snapshot()
    {
      playerCount := playerCount + 1;
      sent := Snapshot();
    }

    /** Socket `disconnect`: one player fewer, never below zero; then a broadcast. */
    method Disconnect()
      requires Valid()
      modifies this`playerCount, this`broadcasts
      ensures Valid()
      ensures playerCount == if old(playerCount) - 1 < 0 then 0 else old(playerCount) - 1
      ensures recoveryCodes[..] == old(recoveryCodes[..]) && qrCodes[..] == old(qrCodes[..])
      ensures broadcasts == old(broadcasts) + [Snapshot()]
    {
      playerCount := if playerCount - 1 < 0 then 0 else playerCount - 1;
      broadcasts := broadcasts + [Snapshot()];
    }

    /** The shared core of both recovery-code submit handlers. */
    method SubmitRecovery(code: string) returns (success: bool)
      requires Valid()
      modifies recoveryCodes, this`broadcasts
      ensures Valid()
      ensures success == FirstIndex(old(recoveryCodes[..]), code).Some?
      ensures recoveryCodes[..] == Mark(old(recoveryCodes[..]), code)
      ensures qrCodes[..] == old(qrCodes[..]) && playerCount == old(playerCount)
      ensures old(MatchesRegistry()) ==> MatchesRegistry()
      ensures broadcasts == if success then old(broadcasts) + [Snapshot()] else old(broadcasts)
    {
      success := MarkFirst(recoveryCodes, code);
      if success {
        broadcasts := broadcasts + [Snapshot()];
      }
    }

    /** The shared core of both QR submit handlers; the lookup is exact. */
    method SubmitQr(code: string) returns (success: bool)
      requires Valid()
      modifies qrCodes, this`broadcasts
      ensures Valid()
      ensures success == FirstIndex(old(qrCodes[..]), code).Some?
      ensures qrCodes[..] == Mark(old(qrCodes[..]), code)
      ensures recoveryCodes[..] == old(recoveryCodes[..]) && playerCount == old(playerCount)
      ensures old(MatchesRegistry()) ==> MatchesRegistry()
      ensures broadcasts == if success then old(broadcasts) + [Snapshot()] else old(broadcasts)
    {
      success := MarkFirst(qrCodes, code);
      if success {
        broadcasts := broadcasts + [Snapshot()];
      }
    }

    /** Socket `submit-recovery-code`. */
    method OnSubmitRecoveryCode(code: string) returns (status: CodeStatus)
      requires Valid()
      modifies recoveryCodes, this`broadcasts
      ensures Valid()
      ensures status.code == code && status.success == FirstIndex(old(recoveryCodes[..]), code).Some?
      ensures recoveryCodes[..] == Mark(old(recoveryCodes[..]), code)
      ensures qrCodes[..] == old(qrCodes[..]) && playerCount == old(playerCount)
      ensures broadcasts == if status.success then old(broadcasts) + [Snapshot()] else old(broadcasts)
    {
      var success := SubmitRecovery(code);
      status := CodeStatus(code, success);
    }

    /** `POST /submit-recovery-code`. */
    method PostSubmitRecoveryCode(code: string) returns (response: SubmitResponse)
      requires Valid()
      modifies recoveryCodes, this`broadcasts
      ensures Valid()
      ensures response.ok == response.success == FirstIndex(old(recoveryCodes[..]), code).Some?
      ensures response.message == if response.success then None else Some("Invalid code")
      ensures response.codes == recoveryCodes[..] == Mark(old(recoveryCodes[..]), code)
      ensures qrCodes[..] == old(qrCodes[..]) && playerCount == old(playerCount)
      ensures broadcasts == if response.success then old(broadcasts) + [Snapshot()] else old(broadcasts)
    {
      var success := SubmitRecovery(code);
      response := SubmitResponse(success, success, if success then None else Some("Invalid code"), recoveryCodes[..]);
    }

    /** Socket `scan-qr`: exact, case-sensitive lookup. */
    method OnScanQr(code: string) returns (status: CodeStatus)
      requires Valid()
      modifies qrCodes, this`broadcasts
      ensures Valid()
      ensures status.code == code && status.success == FirstIndex(old(qrCodes[..]), code).Some?
      ensures qrCodes[..] == Mark(old(qrCodes[..]), code)
      ensures recoveryCodes[..] == old(recoveryCodes[..]) && playerCount == old(playerCount)
      ensures broadcasts == if status.success then old(broadcasts) + [Snapshot()] else old(broadcasts)
    {
      var success := SubmitQr(code);
      status := CodeStatus(code, success);
    }

    /** `POST /submit-qr-code`: the input is upper-cased before the lookup. */
    method PostSubmitQrCode(code: string) returns (response: SubmitResponse)
      requires Valid()
      modifies qrCodes, this`broadcasts
      ensures Valid()
      ensures response.ok == response.success == FirstIndex(old(qrCodes[..]), ToUpperAscii(code)).Some?
      ensures response.message == if response.success then None else Some("Invalid code")
      ensures response.codes == qrCodes[..] == Mark(old(qrCodes[..]), ToUpperAscii(code))
      ensures recoveryCodes[..] == old(recoveryCodes[..]) && playerCount == old(playerCount)
      ensures broadcasts == if response.success then old(broadcasts) + [Snapshot()] else old(broadcasts)
    {
      var success := SubmitQr(ToUpperAscii(code));
      response := SubmitResponse(success, success, if success then None else Some("Invalid code"), qrCodes[..]);
    }

    /** `POST /admin/toggle-recovery-code`: always answers ok and always broadcasts. */
    method PostToggleRecoveryCode(code: string) returns (response: ToggleResponse)
      requires Valid()
      modifies recoveryCodes, this`broadcasts
      ensures Valid()
      ensures response.ok
      ensures response.codes == recoveryCodes[..] == Flip(old(recoveryCodes[..]), code)
      ensures qrCodes[..] == old(qrCodes[..]) && playerCount == old(playerCount)
      ensures old(MatchesRegistry()) ==> MatchesRegistry()
      ensures broadcasts == old(broadcasts) + [Snapshot()]
    {
      FlipFirst(recoveryCodes, code);
      broadcasts := broadcasts + [Snapshot()];
      response := ToggleResponse(true, recoveryCodes[..]);
    }

    /** `POST /admin/toggle-qr-code`: always answers ok and always broadcasts. */
    method PostToggleQrCode(code: string) returns (response: ToggleResponse)
      requires Valid()
      modifies qrCodes, this`broadcasts
      ensures Valid()
      ensures response.ok
      ensures response.codes == qrCodes[..] == Flip(old(qrCodes[..]), code)
      ensures recoveryCodes[..] == old(recoveryCodes[..]) && playerCount == old(playerCount)
      ensures old(MatchesRegistry()) ==> MatchesRegistry()
      ensures broadcasts == old(broadcasts) + [Snapshot()]
    {
      FlipFirst(qrCodes, code);
      broadcasts := broadcasts + [Snapshot()];
      response := ToggleResponse(true, qrCodes[..]);
    }

    /** `POST /reset`: a whole new record built from the registries, then a broadcast. */
    method PostReset() returns (ok: bool)
      requires Valid()
      modifies this
      ensures Valid() && fresh(recoveryCodes) && fresh(qrCodes)
      ensures ok
      ensures Snapshot() == GameState(0, FreshEntries(RecoveryCodeValues), FreshEntries(QrCodeValues))
      ensures MatchesRegistry()
      ensures broadcasts == old(broadcasts) + [Snapshot()]
    {
      var rec := ToArray(FreshEntries(RecoveryCodeValues));
      var qr := ToArray(FreshEntries(QrCodeValues));
      playerCount, recoveryCodes, qrCodes := 0, rec, qr;
      broadcasts := broadcasts + [Snapshot()];
      ok := true;
    }
  }
}
