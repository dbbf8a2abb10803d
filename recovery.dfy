/** The recovery-code screen (client/src/routes/game/recovery.tsx): masking,
    the four-digit input check, and the views derived from each `game-state`. */
module RecoveryScreen {
  import opened Entries

  /** Masks every ASCII digit (`replace(/[0-9]/g, "*")`). */
  function MaskDigits(s: string): (r: string)
    ensures |r| == |s|
    ensures forall i :: 0 <= i < |s| ==> r[i] == if IsAsciiDigit(s[i]) then '*' else s[i]
  {
    if s == [] then [] else [if IsAsciiDigit(s[0]) then '*' else s[0]] + MaskDigits(s[1..])
  }

  /** `maskCode`: an empty code shows as four stars; otherwise the first
      character is kept and every later digit becomes a star. */
  function MaskCode(code: string): (r: string)
    ensures code == [] ==> r == "****"
    ensures code != [] ==> |r| == |code| && r[0] == code[0]
    ensures forall i :: 1 <= i < |code| ==> r[i] == if IsAsciiDigit(code[i]) then '*' else code[i]
  {
    if code == [] then "****" else [code[0]] + MaskDigits(code[1..])
  }

  /** A masked all-digit code reveals its first digit and its length only. */
  lemma MaskRevealsOnlyFirstDigit(a: string, b: string)
    requires AllDigits(a) && AllDigits(b) && |a| == |b| > 0 && a[0] == b[0]
    ensures MaskCode(a) == MaskCode(b)
    ensures MaskCode(a) == [a[0]] + seq(|a| - 1, _ => '*')
  {
  }

  /** The characters JavaScript's `String.prototype.trim` removes
      (WhiteSpace and LineTerminator of ECMAScript). */
  predicate IsJsWhitespace(c: char)
  {
    || c == '\t' || c == '\n' || c == '\U{B}' || c == '\U{C}' || c == '\r' || c == ' '
    || c == '\U{A0}' || c == '\U{1680}' || ('\U{2000}' <= c <= '\U{200A}')
    || c == '\U{2028}' || c == '\U{2029}' || c == '\U{202F}' || c == '\U{205F}'
    || c == '\U{3000}' || c == '\U{FEFF}'
  }

  function TrimStart(s: string): (r: string)
    ensures |r| <= |s| && r == s[|s| - |r|..]
    ensures forall i :: 0 <= i < |s| - |r| ==> IsJsWhitespace(s[i])
    ensures r != [] ==> !IsJsWhitespace(r[0])
  {
    if s != [] && IsJsWhitespace(s[0]) then TrimStart(s[1..]) else s
  }

  function TrimEnd(s: string): (r: string)
    ensures |r| <= |s| && r == s[..|r|]
    ensures forall i :: |r| <= i < |s| ==> IsJsWhitespace(s[i])
    ensures r != [] ==> !IsJsWhitespace(r[|r| - 1])
  {
    if s != [] && IsJsWhitespace(s[|s| - 1]) then TrimEnd(s[..|s| - 1]) else s
  }

  /** `input.trim()`: no longer than its input, with no whitespace at either
      end, and empty for an all-whitespace input. */
  function Trim(s: string): (r: string)
    ensures |r| <= |s|
    ensures r != [] ==> !IsJsWhitespace(r[0]) && !IsJsWhitespace(r[|r| - 1])
    ensures (forall i :: 0 <= i < |s| ==> IsJsWhitespace(s[i])) ==> r == []
  {
    var u := TrimStart(s);
    assert u != [] ==> u[0] == s[|s| - |u|];
    TrimEnd(u)
  }

  /** `/^\d{4}$/.test(s)`: exactly four ASCII digits. Such a text holds no
      whitespace at all, so `trim` leaves it as it is (FourDigitsUntrimmed). */
  predicate IsFourDigits(s: string): (b: bool)
    ensures b ==> |s| == 4 && forall i :: 0 <= i < |s| ==> !IsJsWhitespace(s[i])
  {
    if |s| == 4 && AllDigits(s) then
      forall i | 0 <= i < |s| ensures !IsJsWhitespace(s[i]) {
        DigitIsNotWhitespace(s[i]);
      }
      true
    else false
  }

  datatype Status = NoStatus | Success | Error

  /** The derived values the screen keeps. */
  datatype RecoveryView = RecoveryView(enteredCount: nat, recentMasked: seq<string>, lastFull: Option<string>, status: Status)

  const InitialView: RecoveryView := RecoveryView(0, [], None, NoStatus)

  /** What `submitCode` does before any answer: either it sets an error status
      and sends nothing, or it clears the status and sends the trimmed code. */
  datatype SubmitStep = SubmitStep(view: RecoveryView, request: Option<string>)

  function StartSubmit(view: RecoveryView, input: string): (r: SubmitStep)
    ensures r.request.Some? <==> IsFourDigits(Trim(input))
    ensures r.request.Some? ==> r.request.value == Trim(input) && r.view == view.(status := NoStatus)
    ensures r.request.None? ==> r.view == view.(status := Error)
  {
    var trimmed := Trim(input);
    if !IsFourDigits(trimmed) then SubmitStep(view.(status := Error), None)
    else SubmitStep(view.(status := NoStatus), Some(trimmed))
  }

  /** Four digits pass through `trim` unchanged. */
  lemma FourDigitsUntrimmed(s: string)
    requires |s| == 4 && AllDigits(s)
    ensures Trim(s) == s
  {
    assert IsAsciiDigit(s[0]) && IsAsciiDigit(s[3]);
    TrimStartKeepsNonWhitespace(s);
    TrimEndKeepsNonWhitespace(s);
  }

  /** An accepted code shows, once entered, as its first digit and three stars. */
  lemma FourDigitsMasked(s: string)
    requires |s| == 4 && AllDigits(s)
    ensures MaskCode(s) == [s[0]] + "***"
  {
    var m, t := MaskCode(s), [s[0]] + "***";
    assert |m| == 4;
    assert t[1] == '*';
  }

  /** Whitespace-only prefixes are dropped by TrimStart. */
  lemma {:induction false} TrimStartSkipsWhitespace(p: string, x: string)
    requires forall i :: 0 <= i < |p| ==> IsJsWhitespace(p[i])
    ensures TrimStart(p + x) == TrimStart(x)
  {
    if p != [] {
      assert (p + x)[0] == p[0];
      assert (p + x)[1..] == p[1..] + x;
      TrimStartSkipsWhitespace(p[1..], x);
    } else {
      assert p + x == x;
    }
  }

  /** Whitespace-only suffixes are dropped by TrimEnd. */
  lemma {:induction false} TrimEndSkipsWhitespace(x: string, q: string)
    requires forall i :: 0 <= i < |q| ==> IsJsWhitespace(q[i])
    ensures TrimEnd(x + q) == TrimEnd(x)
  {
    if q != [] {
      assert (x + q)[|x + q| - 1] == q[|q| - 1];
      assert (x + q)[..|x + q| - 1] == x + q[..|q| - 1];
      TrimEndSkipsWhitespace(x, q[..|q| - 1]);
    } else {
      assert x + q == x;
    }
  }

  /** `trim` cuts one contiguous slice out of its input, and only whitespace
      lies on either side of it. */
  lemma TrimIsSlice(input: string)
    ensures var t := Trim(input);
      var k := |input| - |TrimStart(input)|;
      k + |t| <= |input| && input[k..k + |t|] == t &&
      (forall i :: 0 <= i < k ==> IsJsWhitespace(input[i])) &&
      (forall i :: k + |t| <= i < |input| ==> IsJsWhitespace(input[i]))
  {
    var u := TrimStart(input);
    var t := TrimEnd(u);
    var k := |input| - |u|;
    assert u == input[k..] && t == u[..|t|];
    SliceOfSuffix(input, k, |t|);
    forall i | k + |t| <= i < |input| ensures IsJsWhitespace(input[i]) {
      assert input[i] == u[i - k];
    }
  }

  lemma SliceOfSuffix(s: string, k: nat, m: nat)
    requires k + m <= |s|
    ensures s[k..][..m] == s[k..k + m]
  {
  }

  /** Every request carries exactly four digits, cut out of the input between
      whitespace-only margins. */
  lemma SubmitSendsOnlyFourDigits(view: RecoveryView, input: string)
    requires StartSubmit(view, input).request.Some?
    ensures var c := StartSubmit(view, input).request.value;
      var k := |input| - |TrimStart(input)|;
      |c| == 4 && AllDigits(c) && k + 4 <= |input| && input[k..k + 4] == c &&
      (forall i :: 0 <= i < k ==> IsJsWhitespace(input[i])) &&
      (forall i :: k + 4 <= i < |input| ==> IsJsWhitespace(input[i]))
  {
    TrimIsSlice(input);
  }

  /** Conversely, four digits surrounded by any whitespace are sent as they are. */
  lemma PaddedFourDigitsAreSent(view: RecoveryView, p: string, d: string, q: string)
    requires IsFourDigits(d)
    requires forall i :: 0 <= i < |p| ==> IsJsWhitespace(p[i])
    requires forall i :: 0 <= i < |q| ==> IsJsWhitespace(q[i])
    ensures StartSubmit(view, p + d + q).request == Some(d)
  {
    var dq := d + q;
    assert p + d + q == p + dq;
    TrimStartSkipsWhitespace(p, dq);
    assert IsAsciiDigit(dq[0]);
    TrimStartKeepsNonWhitespace(dq);
    TrimEndSkipsWhitespace(d, q);
    assert IsAsciiDigit(d[3]);
    TrimEndKeepsNonWhitespace(d);
    assert Trim(p + d + q) == TrimEnd(dq) == d;
  }

  lemma TrimStartKeepsNonWhitespace(s: string)
    requires s != [] && IsAsciiDigit(s[0])
    ensures TrimStart(s) == s
  {
    DigitIsNotWhitespace(s[0]);
  }

  lemma TrimEndKeepsNonWhitespace(s: string)
    requires s != [] && IsAsciiDigit(s[|s| - 1])
    ensures TrimEnd(s) == s
  {
    DigitIsNotWhitespace(s[|s| - 1]);
  }

  lemma DigitIsNotWhitespace(c: char)
    requires IsAsciiDigit(c)
    ensures !IsJsWhitespace(c)
  {
  }

  /** The answer to `POST /submit-recovery-code` as the screen sees it. */
  datatype Reply = Accepted | Rejected | NetworkError

  /** After the answer: an accepted code becomes the last full code shown. */
  function FinishSubmit(view: RecoveryView, sent: string, reply: Reply): (r: RecoveryView)
    ensures r.enteredCount == view.enteredCount && r.recentMasked == view.recentMasked
    ensures r.lastFull == if reply == Accepted then Some(sent) else view.lastFull
    ensures r.status == if reply == Accepted then Success else Error
  {
    match reply
    case Accepted => view.(lastFull := Some(sent), status := Success)
    case _ => view.(status := Error)
  }

  /** `arr.slice(-n)` for a positive `n`: the last `n` elements, or all of them. */
  function LastN<T>(s: seq<T>, n: nat): (r: seq<T>)
    requires n > 0
    ensures |r| == if |s| < n then |s| else n
    ensures forall k :: 0 <= k < |r| ==> r[k] == s[|s| - |r| + k]
  {
    if |s| <= n then s else s[|s| - n..]
  }

  /** `arr.map(c => maskCode(c.code))`. */
  function MaskAll(s: seq<CodeEntry>): (r: seq<string>)
    ensures |r| == |s| && forall k :: 0 <= k < |s| ==> r[k] == MaskCode(s[k].code)
  {
    seq(|s|, k requires 0 <= k < |s| => MaskCode(s[k].code))
  }

  /** `filter(entered).slice(-3).map(maskCode)`. */
  function RecentMasked(codes: seq<CodeEntry>): (r: seq<string>)
    ensures |r| <= 3
    ensures |r| == if CountFlagged(codes) < 3 then CountFlagged(codes) else 3
    ensures forall k :: 0 <= k < |r| ==>
      r[k] == MaskCode(Flagged(codes)[CountFlagged(codes) - |r| + k].code)
  {
    var f := Flagged(codes);
    assert |f| == CountFlagged(codes);
    var last := LastN(f, 3);
    MaskAll(last)
  }

  /** `filter(entered).slice(-1)[0]?.code || null`: an empty code string is falsy
      and also gives null. */
  function LastEntered(codes: seq<CodeEntry>): (r: Option<string>)
    ensures r.Some? ==> r.value != ""
  {
    var last := LastN(Flagged(codes), 1);
    if last == [] || last[0].code == "" then None else Some(last[0].code)
  }

  /** The last element of the filtered list is the flagged entry with the highest index. */
  lemma {:induction false} LastOfFlagged(codes: seq<CodeEntry>) returns (i: nat)
    requires Flagged(codes) != []
    ensures i < |codes| && codes[i].flag && Flagged(codes)[|Flagged(codes)| - 1] == codes[i]
    ensures forall j :: i < j < |codes| ==> !codes[j].flag
  {
    var init := codes[..|codes| - 1];
    if codes[|codes| - 1].flag {
      i := |codes| - 1;
    } else {
      assert Flagged(codes) == Flagged(init);
      i := LastOfFlagged(init);
      assert codes[i] == init[i];
    }
  }

  /** The last entered code is that of the entered entry with the highest index,
      and there is none when nothing is entered. */
  lemma LastEnteredIsLastFlagged(codes: seq<CodeEntry>)
    ensures LastEntered(codes).Some? ==>
      exists i :: 0 <= i < |codes| && codes[i].flag && codes[i].code == LastEntered(codes).value &&
        forall j :: i < j < |codes| ==> !codes[j].flag
    ensures (forall i :: 0 <= i < |codes| ==> !codes[i].flag) ==> LastEntered(codes).None?
  {
    if Flagged(codes) != [] {
      var i := LastOfFlagged(codes);
      assert LastN(Flagged(codes), 1) == [codes[i]];
    } else {
      assert LastN(Flagged(codes), 1) == [];
    }
  }

  /** Conversely, when some entry is entered, the code of the entered entry with
      the highest index is shown, unless that code is the empty string. */
  lemma LastEnteredFound(codes: seq<CodeEntry>, i: nat)
    requires i < |codes| && codes[i].flag
    requires forall j :: i < j < |codes| ==> !codes[j].flag
    ensures LastEntered(codes) == if codes[i].code == "" then None else Some(codes[i].code)
  {
    assert codes[i] in codes;
    assert codes[i] in Flagged(codes);
    var k := LastOfFlagged(codes);
    assert k == i;
    assert LastN(Flagged(codes), 1) == [codes[i]];
  }

  /** `handleGameState`: a message without `recoveryCodes` changes nothing; one
      with them recomputes the count and the last three, and the last full code
      only when the list is non-empty. */
  function OnGameState(view: RecoveryView, recoveryCodes: Option<seq<CodeEntry>>): (r: RecoveryView)
    ensures recoveryCodes.None? ==> r == view
    ensures recoveryCodes.Some? ==>
      r.enteredCount == CountFlagged(recoveryCodes.value) <= |recoveryCodes.value| &&
      r.recentMasked == RecentMasked(recoveryCodes.value) &&
      r.lastFull == (if |recoveryCodes.value| > 0 then LastEntered(recoveryCodes.value) else view.lastFull) &&
      r.status == view.status
  {
    match recoveryCodes
    case None => view
    case Some(codes) =>
      view.(enteredCount := CountFlagged(codes), recentMasked := RecentMasked(codes),
            lastFull := if |codes| > 0 then LastEntered(codes) else view.lastFull)
  }

  /** The screen's views agree with the collection: no more than three masked
      codes, each the mask of an entered code. */
  lemma RecentMaskedAreEntered(codes: seq<CodeEntry>, k: nat)
    requires k < |RecentMasked(codes)|
    ensures exists i :: 0 <= i < |codes| && codes[i].flag && RecentMasked(codes)[k] == MaskCode(codes[i].code)
  {
    var e := Flagged(codes)[CountFlagged(codes) - |RecentMasked(codes)| + k];
    assert e in Flagged(codes);
    assert e in codes && e.flag;
    var i :| 0 <= i < |codes| && codes[i] == e;
  }

  /** The list a reset broadcasts (nothing entered) brings the screen's derived
      values back to where they start; the status is left as it was. */
  lemma UnenteredListRestoresInitialView(codes: seq<CodeEntry>)
    requires forall i :: 0 <= i < |codes| ==> !codes[i].flag
    ensures OnGameState(InitialView, Some(codes)) == InitialView
  {
    CountFlaggedNone(codes);
    LastEnteredIsLastFlagged(codes);
  }
}
