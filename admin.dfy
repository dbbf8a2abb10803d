/** The admin panel (client/src/routes/game/admin.tsx): progress counts, the
    empty-list percentage guard, the optimistic toggles and the state merge. */
module AdminPanel {
  import opened Entries
  import Server

  /** The two lists the panel holds; both start empty. */
  datatype AdminView = AdminView(recoveryCodes: seq<CodeEntry>, qrCodes: seq<CodeEntry>)

  const InitialView: AdminView := AdminView([], [])

  /** The numbers the panel shows. */
  datatype Progress = Progress(recoveryEntered: nat, qrScanned: nat, recoveryPercentage: nat, qrPercentage: nat)

  function ProgressOf(v: AdminView): (p: Progress)
    ensures p.recoveryEntered <= |v.recoveryCodes| && p.qrScanned <= |v.qrCodes|
    ensures p.recoveryEntered == |v.recoveryCodes| <==> AllFlagged(v.recoveryCodes)
    ensures p.qrScanned == |v.qrCodes| <==> AllFlagged(v.qrCodes)
    ensures v.recoveryCodes == [] ==> p.recoveryPercentage == 0
    ensures v.qrCodes == [] ==> p.qrPercentage == 0
    ensures p.recoveryPercentage <= 100 && p.qrPercentage <= 100
    ensures p.recoveryEntered == CountFlagged(v.recoveryCodes) && p.qrScanned == CountFlagged(v.qrCodes)
    ensures p.recoveryPercentage == Percent(p.recoveryEntered, |v.recoveryCodes|)
    ensures p.qrPercentage == Percent(p.qrScanned, |v.qrCodes|)
  {
    CountFlaggedFull(v.recoveryCodes);
    CountFlaggedFull(v.qrCodes);
    var entered := CountFlagged(v.recoveryCodes);
    var scanned := CountFlagged(v.qrCodes);
    Progress(entered, scanned, Percent(entered, |v.recoveryCodes|), Percent(scanned, |v.qrCodes|))
  }

  /** `totalPercentage`: unlike the two bars it has no guard, so with both lists
      empty it divides zero by zero and shows NaN (None here). */
  function TotalPercent(v: AdminView): (r: Option<nat>)
    ensures r.None? <==> v.recoveryCodes == [] && v.qrCodes == []
    ensures r.Some? ==> r.value <= 100
    ensures r.Some? ==> var done, total :=
        CountFlagged(v.recoveryCodes) + CountFlagged(v.qrCodes), |v.recoveryCodes| + |v.qrCodes|;
      2 * total * r.value <= 200 * done + total < 2 * total * (r.value + 1)
  {
    var total := |v.recoveryCodes| + |v.qrCodes|;
    if total == 0 then None
    else Some(Percent(CountFlagged(v.recoveryCodes) + CountFlagged(v.qrCodes), total))
  }

  /** Before any state arrives both bars read 0 of 0 at 0%, and the total
      percentage is NaN. */
  lemma InitialViewProgress()
    ensures ProgressOf(InitialView) == Progress(0, 0, 0, 0)
    ensures TotalPercent(InitialView).None?
  {
  }

  /** `prev.map(c => c.code === code ? { ...c, flag: !c.flag } : c)`: the
      optimistic update flips every entry with the code. */
  function ToggleAll(s: seq<CodeEntry>, code: string): (r: seq<CodeEntry>)
    ensures |r| == |s| && CodesOf(r) == CodesOf(s)
  {
    seq(|s|, i requires 0 <= i < |s| => if s[i].code == code then s[i].(flag := !s[i].flag) else s[i])
  }

  /** Toggling the same code twice restores the list. */
  lemma ToggleAllInvolution(s: seq<CodeEntry>, code: string)
    ensures ToggleAll(ToggleAll(s, code), code) == s
  {
    var once := ToggleAll(s, code);
    assert forall i :: 0 <= i < |s| ==> once[i].code == s[i].code;
  }

  /** A code not in the list leaves it unchanged; otherwise exactly the
      matching entries change, and only in their flag. */
  lemma ToggleAllChangesOnlyMatches(s: seq<CodeEntry>, code: string)
    ensures (forall i :: 0 <= i < |s| ==> s[i].code != code) ==> ToggleAll(s, code) == s
    ensures forall i :: 0 <= i < |s| ==>
      (ToggleAll(s, code)[i] == s[i] <==> s[i].code != code)
  {
  }

  /** On a list with distinct codes, such as any list the server sends, the
      panel's optimistic update is exactly the server's toggle. */
  lemma ToggleAllAgreesWithServer(s: seq<CodeEntry>, code: string)
    requires Distinct(s)
    ensures ToggleAll(s, code) == Server.Flip(s, code)
  {
    match FirstIndex(s, code)
    case None =>
    case Some(k) =>
      assert forall i :: 0 <= i < |s| && i != k ==> s[i].code != code;
  }

  /** Hence, while the panel holds a recovery list with the registry's codes
      (the server keeps them; see Server.GameStore.MatchesRegistry), its
      optimistic update equals the list the server answers with. */
  lemma OptimisticToggleMatchesResponse(v: AdminView, code: string)
    requires CodesOf(v.recoveryCodes) == Server.RecoveryCodeValues
    ensures ToggleAll(v.recoveryCodes, code) == Server.Flip(v.recoveryCodes, code)
  {
    var registry := Server.FreshEntries(Server.RecoveryCodeValues);
    Server.RecoveryRegistryDistinct();
    assert forall i :: 0 <= i < |registry| ==> v.recoveryCodes[i].code == registry[i].code;
    ToggleAllAgreesWithServer(v.recoveryCodes, code);
  }

  /** `handleGameState`: each list is replaced only when the message carries it. */
  function OnGameState(v: AdminView, recoveryCodes: Option<seq<CodeEntry>>, qrCodes: Option<seq<CodeEntry>>): (r: AdminView)
    ensures r.recoveryCodes == if recoveryCodes.Some? then recoveryCodes.value else v.recoveryCodes
    ensures r.qrCodes == if qrCodes.Some? then qrCodes.value else v.qrCodes
  {
    AdminView(
      if recoveryCodes.Some? then recoveryCodes.value else v.recoveryCodes,
      if qrCodes.Some? then qrCodes.value else v.qrCodes)
  }
}
