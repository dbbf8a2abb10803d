/** The dashboard screen (client/src/routes/dashboard/index.tsx): the `mm:ss`
    clock, the countdown tick, the counts, and the state handler. */
module Dashboard {
  import opened Entries

  function DigitChar(d: nat): (c: char)
    requires d < 10
    ensures IsAsciiDigit(c)
  {
    ('0' as int + d) as char
  }

  /** `n.toString()` for a non-negative integer: its decimal digits, with no
      leading zero. */
  function DecimalDigits(n: nat): (r: string)
    ensures |r| >= 1 && AllDigits(r)
    ensures |r| > 1 ==> r[0] != '0'
    ensures n < 10 <==> |r| == 1
    ensures n < 100 ==> |r| <= 2
  {
    if n < 10 then [DigitChar(n)] else DecimalDigits(n / 10) + [DigitChar(n % 10)]
  }

  /** The value of a string of decimal digits. */
  function ParseDecimal(s: string): nat
    requires AllDigits(s)
  {
    if s == [] then 0 else ParseDecimal(s[..|s| - 1]) * 10 + (s[|s| - 1] as int - '0' as int)
  }

  /** Reading back the digits of `n` gives `n`. */
  lemma {:induction false} ParseDecimalDigits(n: nat)
    ensures ParseDecimal(DecimalDigits(n)) == n
  {
    if n >= 10 {
      var r := DecimalDigits(n);
      assert r[..|r| - 1] == DecimalDigits(n / 10);
      ParseDecimalDigits(n / 10);
    }
  }

  /** Leading zeros do not change the value. */
  lemma {:induction false} ParseIgnoresLeadingZeros(z: string, s: string)
    requires forall i :: 0 <= i < |z| ==> z[i] == '0'
    requires AllDigits(s)
    ensures AllDigits(z + s) && ParseDecimal(z + s) == ParseDecimal(s)
  {
    if s == [] {
      assert z + s == z;
      if z != [] {
        ParseIgnoresLeadingZeros(z[..|z| - 1], []);
        assert z[..|z| - 1] + [] == z[..|z| - 1];
      }
    } else {
      assert (z + s)[..|z + s| - 1] == z + s[..|s| - 1];
      ParseIgnoresLeadingZeros(z, s[..|s| - 1]);
    }
  }

  /** `s.padStart(2, "0")`: zeros in front up to length 2; never truncates. */
  function PadStart2(s: string): (r: string)
    ensures |r| == if |s| < 2 then 2 else |s|
    ensures r[|r| - |s|..] == s
    ensures forall i :: 0 <= i < |r| - |s| ==> r[i] == '0'
  {
    if |s| < 2 then seq(2 - |s|, _ => '0') + s else s
  }

  /** `${m}:${s}` for a two-digit seconds field. */
  function JoinClock(m: string, s: string): (r: string)
    requires AllDigits(m) && AllDigits(s) && |s| == 2
    ensures |r| == |m| + 3 && r[|r| - 3] == ':'
    ensures r[..|r| - 3] == m && r[|r| - 2..] == s
    ensures forall i :: 0 <= i < |r| && i != |r| - 3 ==> IsAsciiDigit(r[i])
  {
    var r := m + ":" + s;
    assert forall i :: 0 <= i < |m| ==> r[i] == m[i];
    assert forall i :: |m| < i < |r| ==> r[i] == s[i - |m| - 1];
    r
  }

  /** `formatTime`: minutes and seconds, each padded to two digits. */
  function FormatTime(seconds: nat): (r: string)
    ensures |r| >= 5 && r[|r| - 3] == ':'
    ensures forall i :: 0 <= i < |r| && i != |r| - 3 ==> IsAsciiDigit(r[i])
    ensures seconds < 6000 ==> |r| == 5 && r[2] == ':'
    ensures |r| > 5 ==> r[0] != '0'
  {
    var minutes, secs := seconds / 60, seconds % 60;
    PaddedField(minutes);
    PaddedField(secs);
    JoinClock(PadStart2(DecimalDigits(minutes)), PadStart2(DecimalDigits(secs)))
  }

  /** A padded number is all digits, at least two of them, exactly two below 100,
      and without a leading zero when it is longer than two. */
  lemma PaddedField(n: nat)
    ensures var p := PadStart2(DecimalDigits(n));
      AllDigits(p) && |p| >= 2 && (n < 100 ==> |p| == 2) && (|p| > 2 ==> p[0] != '0')
  {
    var d := DecimalDigits(n);
    var p := PadStart2(d);
    assert forall i :: |p| - |d| <= i < |p| ==> p[i] == d[i - (|p| - |d|)];
  }

  /** A padded field reads back as the number it shows. */
  lemma ParsePaddedDigits(n: nat)
    ensures AllDigits(PadStart2(DecimalDigits(n)))
    ensures ParseDecimal(PadStart2(DecimalDigits(n))) == n
  {
    var d := DecimalDigits(n);
    var p := PadStart2(d);
    var z := p[..|p| - |d|];
    assert p == z + d;
    ParseIgnoresLeadingZeros(z, d);
    ParseDecimalDigits(n);
  }

  /** Clock text: digits, a colon, then exactly two digits. */
  predicate IsClockText(r: string)
  {
    |r| >= 3 && r[|r| - 3] == ':' && AllDigits(r[..|r| - 3]) && AllDigits(r[|r| - 2..])
  }

  /** The minutes field of clock text. */
  function MinutesField(r: string): nat
    requires IsClockText(r)
  {
    ParseDecimal(r[..|r| - 3])
  }

  /** The seconds field of clock text. */
  function SecondsField(r: string): nat
    requires IsClockText(r)
  {
    ParseDecimal(r[|r| - 2..])
  }

  /** Joining two digit fields gives clock text whose fields read back as they were. */
  lemma JoinClockFields(m: string, s: string)
    requires AllDigits(m) && AllDigits(s) && |s| == 2
    ensures IsClockText(JoinClock(m, s))
    ensures MinutesField(JoinClock(m, s)) == ParseDecimal(m)
    ensures SecondsField(JoinClock(m, s)) == ParseDecimal(s)
  {
    var r := JoinClock(m, s);
    assert r[..|r| - 3] == m && r[|r| - 2..] == s;
  }

  /** The minutes before the colon and the seconds after it give back the
      time, and the seconds field is below 60. */
  lemma FormatTimeRoundTrip(seconds: nat)
    ensures IsClockText(FormatTime(seconds))
    ensures SecondsField(FormatTime(seconds)) < 60
    ensures MinutesField(FormatTime(seconds)) * 60 + SecondsField(FormatTime(seconds)) == seconds
  {
    var minutes, secs := seconds / 60, seconds % 60;
    var m := PadStart2(DecimalDigits(minutes));
    var s := PadStart2(DecimalDigits(secs));
    ParsePaddedDigits(minutes);
    ParsePaddedDigits(secs);
    JoinClockFields(m, s);
    assert FormatTime(seconds) == JoinClock(m, s);
  }

  /** The countdown starts at 30 minutes. */
  const InitialTimeLeft: nat := 30 * 60

  lemma InitialClock()
    ensures FormatTime(InitialTimeLeft) == "30:00"
  {
    assert InitialTimeLeft / 60 == 30 && InitialTimeLeft % 60 == 0;
    assert DigitChar(3) == '3' && DigitChar(0) == '0';
    assert DecimalDigits(3) == "3";
    assert DecimalDigits(30) == DecimalDigits(3) + [DigitChar(0)] == "30";
    assert DecimalDigits(0) == "0";
    assert PadStart2("30") == "30";
    assert PadStart2("0") == "00";
    assert FormatTime(InitialTimeLeft) == JoinClock("30", "00") == "30:00";
  }

  /** One timer tick: `prev > 0 ? prev - 1 : 0`. */
  function CountdownStep(t: int): (r: int)
    ensures r >= 0
    ensures t >= 0 ==> r <= t
    ensures t > 0 ==> r == t - 1
  {
    if t > 0 then t - 1 else 0
  }

  /** `k` ticks in a row. */
  function Countdown(t: int, k: nat): int
    decreases k
  {
    if k == 0 then t else Countdown(CountdownStep(t), k - 1)
  }

  /** After `k` ticks from `t >= 0` the clock reads `max(0, t - k)`: it counts
      down one per tick and then stays at zero. */
  lemma {:induction false} CountdownAfter(t: nat, k: nat)
    ensures Countdown(t, k) == if t >= k then t - k else 0
  {
    if k > 0 {
      CountdownAfter(CountdownStep(t), k - 1);
    }
  }

  /** `state.qrCodes || []`: a missing list reads as the empty list (the admin
      panel instead keeps its old list). */
  function ListOrEmpty(sent: Option<seq<CodeEntry>>): (r: seq<CodeEntry>)
    ensures sent.None? ==> r == []
    ensures sent.Some? ==> r == sent.value
  {
    if sent.Some? then sent.value else []
  }

  /** The four counts the dashboard shows. */
  datatype Counts = Counts(scannedCount: nat, totalQr: nat, enteredCount: nat, totalRecovery: nat)

  class DashboardScreen {
    var qrCodes: seq<CodeEntry>
    var recoveryCodes: seq<CodeEntry>
    var finalCode: Option<string>
    var timeLeft: int

    ghost predicate Valid()
      reads this
    {
      timeLeft >= 0
    }

    constructor ()
      ensures Valid()
      ensures qrCodes == [] && recoveryCodes == [] && finalCode == None
      ensures timeLeft == InitialTimeLeft
    {
      qrCodes, recoveryCodes, finalCode := [], [], None;
      timeLeft := InitialTimeLeft;
    }

    function CountsOf(): (c: Counts)
      reads this
      ensures c.scannedCount <= c.totalQr == |qrCodes|
      ensures c.enteredCount <= c.totalRecovery == |recoveryCodes|
      ensures c.scannedCount == c.totalQr <==> AllFlagged(qrCodes)
      ensures c.scannedCount == CountFlagged(qrCodes) && c.enteredCount == CountFlagged(recoveryCodes)
    {
      CountFlaggedFull(qrCodes);
      Counts(CountFlagged(qrCodes), |qrCodes|, CountFlagged(recoveryCodes), |recoveryCodes|)
    }

    /** The clock text. */
    function Clock(): (r: string)
      reads this
      requires Valid()
      ensures r == FormatTime(timeLeft)
      ensures timeLeft < 6000 ==> |r| == 5 && r[2] == ':'
    {
      FormatTime(timeLeft)
    }

    /** The one-second timer: never negative, never increasing. */
    method Tick()
      requires Valid()
      modifies this`timeLeft
      ensures Valid()
      ensures timeLeft == CountdownStep(old(timeLeft))
      ensures timeLeft <= old(timeLeft)
    {
      timeLeft := if timeLeft > 0 then timeLeft - 1 else 0;
    }

    /** `handleState`: both lists are replaced, a missing one by the empty list. */
    method OnGameState(qrCodesSent: Option<seq<CodeEntry>>, recoveryCodesSent: Option<seq<CodeEntry>>)
      modifies this`qrCodes, this`recoveryCodes
      ensures qrCodes == ListOrEmpty(qrCodesSent)
      ensures recoveryCodes == ListOrEmpty(recoveryCodesSent)
    {
      qrCodes := ListOrEmpty(qrCodesSent);
      recoveryCodes := ListOrEmpty(recoveryCodesSent);
    }

    /** `handleAllScanned`. */
    method OnAllQrScanned(carried: string)
      modifies this`finalCode
      ensures finalCode == Some(carried)
    {
      finalCode := Some(carried);
    }
  }
}
