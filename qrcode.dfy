/** The QR-code screen (client/src/routes/game/qrcode.tsx): progress, the
    unlock condition, the local duplicate check before a submit, and the
    `finalCode` latch. This screen is the only place completion is detected:
    the server never announces it. */
module QrScreen {
  import opened Entries

  /** The hidden code the screen writes itself (qrcode.tsx:29, 90). */
  const LocalFinalCode: string := "6158"

  /** The alert banner, by cause. */
  datatype Alert =
    | AlreadyScanned(code: string)
    | Accepted(code: string)
    | InvalidCode(code: string)
    | ServerError
    | HiddenCodeUnlocked(finalCode: string)

  /** What `submitQrCode` decides before any request. */
  datatype PreCheck = Ignore | RejectScanned | Send

  /** `if (!code) return;` then `existing = qrCodes.find(c => c.code === code)`
      and `existing && existing.scanned`: exact, case-sensitive comparison. */
  function CheckBeforeSubmit(qrCodes: seq<CodeEntry>, code: string): (r: PreCheck)
    ensures code == "" <==> r == Ignore
    ensures r == RejectScanned <==>
      code != "" && FirstIndex(qrCodes, code).Some? && qrCodes[FirstIndex(qrCodes, code).value].flag
  {
    if code == "" then Ignore
    else match FirstIndex(qrCodes, code)
      case Some(i) => if qrCodes[i].flag then RejectScanned else Send
      case None => Send
  }

  /** With distinct codes, a submit is refused locally exactly when some scanned
      entry carries that very code. */
  lemma RejectedIffScanned(qrCodes: seq<CodeEntry>, code: string)
    requires Distinct(qrCodes) && code != ""
    ensures CheckBeforeSubmit(qrCodes, code) == RejectScanned <==>
      exists i :: 0 <= i < |qrCodes| && qrCodes[i].code == code && qrCodes[i].flag
  {
    if exists i :: 0 <= i < |qrCodes| && qrCodes[i].code == code && qrCodes[i].flag {
      var i :| 0 <= i < |qrCodes| && qrCodes[i].code == code && qrCodes[i].flag;
      FirstIndexOfDistinct(qrCodes, i);
    }
  }

  /** The local check does not upper-case: when every stored code is upper case,
      an input with a lower-case letter is never refused locally, even if its
      upper-case form is already scanned (the server would accept it again). */
  lemma LowerCaseSpellingIsSent(qrCodes: seq<CodeEntry>, code: string)
    requires code != "" && !IsUpperAscii(code)
    requires forall i :: 0 <= i < |qrCodes| ==> IsUpperAscii(qrCodes[i].code)
    ensures CheckBeforeSubmit(qrCodes, code) == Send
  {
    forall j | 0 <= j < |qrCodes| ensures qrCodes[j].code != code {
      assert IsUpperAscii(qrCodes[j].code);
    }
  }

  /** The answer to `POST /submit-qr-code` as the screen sees it. */
  datatype Reply = Succeeded(qrCodes: seq<CodeEntry>) | Failed | NetworkError

  /** The screen's state; `input` is the text box. */
  class QrScreen {
    var qrCodes: seq<CodeEntry>
    var input: string
    var alert: Option<Alert>
    var finalCode: Option<string>

    constructor ()
      ensures qrCodes == [] && input == "" && alert == None && finalCode == None
    {
      qrCodes, input, alert, finalCode := [], "", None, None;
    }

    /** `scannedCount` and `totalCount`. */
    function ScannedCount(): (n: nat)
      reads this
      ensures n <= |qrCodes|
      ensures n == CountFlagged(qrCodes)
    {
      CountFlagged(qrCodes)
    }

    /** The progress label `Math.round((scannedCount / totalCount) * 100)`, with no
        guard: an empty list shows NaN (None here). */
    function ScannedPercent(): (r: Option<nat>)
      reads this
      ensures r.None? <==> qrCodes == []
      ensures r.Some? ==> r.value <= 100 && (r.value == 100 <== AllFlagged(qrCodes))
    {
      if qrCodes == [] then None
      else
        CountFlaggedFull(qrCodes);
        if AllFlagged(qrCodes) then PercentOfAll(|qrCodes|); Some(Percent(ScannedCount(), |qrCodes|))
        else Some(Percent(ScannedCount(), |qrCodes|))
    }

    /** `scannedCount === totalCount || finalCode !== null`. */
    function Unlocked(): (b: bool)
      reads this
      ensures b <==> AllFlagged(qrCodes) || finalCode.Some?
    {
      CountFlaggedFull(qrCodes);
      ScannedCount() == |qrCodes| || finalCode != None
    }

    /** `loadQrCodes` with the fetched list (None when the fetch failed): the list
        replaces the old one, and the latch is set when every entry is scanned,
        which includes the empty list. */
    method LoadQrCodes(fetched: Option<seq<CodeEntry>>)
      modifies this`qrCodes, this`finalCode
      ensures fetched.None? ==> qrCodes == old(qrCodes) && finalCode == old(finalCode)
      ensures fetched.Some? ==> qrCodes == fetched.value
      ensures fetched.Some? ==>
        finalCode == if AllFlagged(fetched.value) then Some(LocalFinalCode) else old(finalCode)
      ensures old(finalCode).Some? ==> finalCode.Some?
      ensures fetched.Some? ==>
        (Unlocked() <==> AllFlagged(fetched.value) || old(finalCode).Some?)
    {
      if fetched.Some? {
        qrCodes := fetched.value;
        if AllFlagged(fetched.value) {
          finalCode := Some(LocalFinalCode);
        }
      }
    }

    /** The `game-state` handler: replaces the list when the message carries one. */
    method OnGameState(qrCodesSent: Option<seq<CodeEntry>>)
      modifies this`qrCodes
      ensures qrCodes == if qrCodesSent.Some? then qrCodesSent.value else old(qrCodes)
    {
      if qrCodesSent.Some? {
        qrCodes := qrCodesSent.value;
      }
    }

    /** The `all-qr-scanned` handler: shows and latches the carried code. */
    method OnAllQrScanned(carried: string)
      modifies this`alert, this`finalCode
      ensures alert == Some(HiddenCodeUnlocked(carried)) && finalCode == Some(carried)
      ensures Unlocked()
    {
      alert := Some(HiddenCodeUnlocked(carried));
      finalCode := Some(carried);
    }

    /** `submitQrCode(code)`, with the server's reply as a parameter; `sent` says
        whether a request was made at all. A successful reply that shows every
        code scanned sets the latch, but only while `finalCode` is falsy (null or
        the empty string); no submit ever clears it. */
    method SubmitQrCode(code: string, reply: Reply) returns (sent: bool)
      modifies this
      ensures sent <==> CheckBeforeSubmit(old(qrCodes), code) == Send
      ensures code == "" ==>
        qrCodes == old(qrCodes) && input == old(input) && alert == old(alert) && finalCode == old(finalCode)
      ensures CheckBeforeSubmit(old(qrCodes), code) == RejectScanned ==>
        qrCodes == old(qrCodes) && input == "" && alert == Some(AlreadyScanned(code)) && finalCode == old(finalCode)
      ensures sent ==> input == ""
      ensures sent && reply.Succeeded? ==>
        qrCodes == reply.qrCodes && alert == Some(Accepted(code)) &&
        finalCode == if AllFlagged(reply.qrCodes) && (old(finalCode) == None || old(finalCode) == Some(""))
                     then Some(LocalFinalCode) else old(finalCode)
      ensures sent && reply.Failed? ==>
        qrCodes == old(qrCodes) && alert == Some(InvalidCode(code)) && finalCode == old(finalCode)
      ensures sent && reply.NetworkError? ==>
        qrCodes == old(qrCodes) && alert == Some(ServerError) && finalCode == old(finalCode)
      ensures old(finalCode).Some? ==> finalCode.Some?
    {
      var check := CheckBeforeSubmit(qrCodes, code);
      if check == Ignore {
        return false;
      }
      if check == RejectScanned {
        alert := Some(AlreadyScanned(code));
        input := "";
        return false;
      }
      sent := true;
      match reply {
        case Succeeded(list) =>
          qrCodes := list;
          alert := Some(Accepted(code));
          if AllFlagged(list) && (finalCode == None || finalCode == Some("")) {
            finalCode := Some(LocalFinalCode);
          }
        case Failed =>
          alert := Some(InvalidCode(code));
        case NetworkError =>
          alert := Some(ServerError);
      }
      input := "";
    }
  }

  /** The empty list counts as complete: the screen shows the file unlocked. */
  lemma EmptyListUnlocks(screen: QrScreen)
    requires screen.qrCodes == []
    ensures screen.Unlocked()
  {
  }
}
