/** The code entries shared by the server's game state and every client screen,
    and the list operations the source applies to them (`find`, `filter`,
    `every`, `filter(...).length`). */
module Entries {

  datatype Option<+T> = None | Some(value: T)

  /** One row of either collection. `flag` is the field the source calls
      `entered` in `recoveryCodes` and `scanned` in `qrCodes`. */
  datatype CodeEntry = CodeEntry(code: string, flag: bool)

  /** The code column of a collection, in order. */
  function CodesOf(s: seq<CodeEntry>): seq<string>
  {
    seq(|s|, i requires 0 <= i < |s| => s[i].code)
  }

  /** No code occurs twice in the collection. */
  predicate Distinct(s: seq<CodeEntry>)
  {
    forall i, j :: 0 <= i < j < |s| ==> s[i].code != s[j].code
  }

  /** `s.find(c => c.code === code)`, as the index of the first entry whose
      code is exactly `code`. */
  function FirstIndex(s: seq<CodeEntry>, code: string): (r: Option<nat>)
    ensures r.Some? ==> r.value < |s| && s[r.value].code == code
    ensures r.Some? ==> forall j :: 0 <= j < r.value ==> s[j].code != code
    ensures r.None? ==> forall j :: 0 <= j < |s| ==> s[j].code != code
  {
    if s == [] then None
    else if s[0].code == code then Some(0)
    else match FirstIndex(s[1..], code)
      case None => None
      case Some(i) => Some(i + 1)
  }

  /** `find` looks only at the codes: two collections with the same code
      column answer every lookup alike. */
  lemma {:induction false} FirstIndexDependsOnCodes(s: seq<CodeEntry>, t: seq<CodeEntry>, code: string)
    requires CodesOf(s) == CodesOf(t)
    ensures FirstIndex(s, code) == FirstIndex(t, code)
  {
    assert |s| == |CodesOf(s)| == |CodesOf(t)| == |t|;
    if s != [] {
      assert s[0].code == CodesOf(s)[0] == CodesOf(t)[0] == t[0].code;
      assert CodesOf(s[1..]) == CodesOf(s)[1..] == CodesOf(t)[1..] == CodesOf(t[1..]);
      FirstIndexDependsOnCodes(s[1..], t[1..], code);
    }
  }

  /** With distinct codes, the first match is the only match. */
  lemma FirstIndexOfDistinct(s: seq<CodeEntry>, i: nat)
    requires Distinct(s) && i < |s|
    ensures FirstIndex(s, s[i].code) == Some(i)
  {
  }

  /** `s.filter(c => c.flag)`: the flagged entries, in collection order. */
  function Flagged(s: seq<CodeEntry>): (r: seq<CodeEntry>)
    ensures |r| <= |s|
    ensures forall e :: e in r <==> e in s && e.flag
  {
    if s == [] then []
    else Flagged(s[..|s| - 1]) + (if s[|s| - 1].flag then [s[|s| - 1]] else [])
  }

  /** `s.filter(c => c.flag).length`: zero for the empty collection, and each
      entry adds one exactly when it is flagged. */
  function CountFlagged(s: seq<CodeEntry>): (n: nat)
    ensures n <= |s|
    ensures s == [] ==> n == 0
  {
    |Flagged(s)|
  }

  /** The count grows along the collection: the last entry adds one exactly when
      it is flagged. */
  lemma CountFlaggedStep(s: seq<CodeEntry>)
    requires s != []
    ensures CountFlagged(s) == CountFlagged(s[..|s| - 1]) + (if s[|s| - 1].flag then 1 else 0)
  {
  }

  /** `s.every(c => c.flag)`; true of the empty collection. */
  predicate AllFlagged(s: seq<CodeEntry>): (b: bool)
    ensures b <==> CountFlagged(s) == |s|
  {
    CountFlaggedFull(s);
    forall i :: 0 <= i < |s| ==> s[i].flag
  }

  /** The flagged count reaches the length exactly when every entry is flagged. */
  lemma {:induction false} CountFlaggedFull(s: seq<CodeEntry>)
    ensures CountFlagged(s) == |s| <==> forall i :: 0 <= i < |s| ==> s[i].flag
  {
    if s != [] {
      var init := s[..|s| - 1];
      CountFlaggedFull(init);
      assert forall i :: 0 <= i < |init| ==> init[i] == s[i];
    }
  }

  /** No entry flagged gives a count of zero. */
  lemma {:induction false} CountFlaggedNone(s: seq<CodeEntry>)
    requires forall i :: 0 <= i < |s| ==> !s[i].flag
    ensures CountFlagged(s) == 0
  {
    if s != [] {
      CountFlaggedNone(s[..|s| - 1]);
    }
  }

  /** Filtering distributes over concatenation. */
  lemma {:induction false} FlaggedAppend(a: seq<CodeEntry>, b: seq<CodeEntry>)
    ensures Flagged(a + b) == Flagged(a) + Flagged(b)
  {
    if b != [] {
      var b' := b[..|b| - 1];
      assert (a + b)[..|a + b| - 1] == a + b';
      FlaggedAppend(a, b');
    } else {
      assert a + b == a;
    }
  }

  /** Writing one entry changes the flagged count by the change of that entry's flag. */
  lemma CountFlaggedUpdate(s: seq<CodeEntry>, i: nat, e: CodeEntry)
    requires i < |s|
    ensures CountFlagged(s[i := e]) + (if s[i].flag then 1 else 0)
         == CountFlagged(s) + (if e.flag then 1 else 0)
  {
    var pre, post := s[..i], s[i + 1..];
    assert s == pre + [s[i]] + post;
    assert s[i := e] == pre + [e] + post;
    FlaggedAppend(pre + [s[i]], post);
    FlaggedAppend(pre, [s[i]]);
    FlaggedAppend(pre + [e], post);
    FlaggedAppend(pre, [e]);
    assert Flagged([s[i]]) == Flagged([]) + (if s[i].flag then [s[i]] else []);
    assert Flagged([e]) == Flagged([]) + (if e.flag then [e] else []);
  }

  /** `String.prototype.toUpperCase` restricted to ASCII: `a`..`z` become `A`..`Z`. */
  function UpperChar(c: char): (u: char)
    ensures 'a' <= c <= 'z' ==> 'A' <= u <= 'Z' && u as int == c as int - 32
    ensures !('a' <= c <= 'z') ==> u == c
  {
    if 'a' <= c <= 'z' then (c as int - 32) as char else c
  }

  function ToUpperAscii(s: string): (r: string)
    ensures |r| == |s|
    ensures forall i :: 0 <= i < |s| ==> r[i] == UpperChar(s[i])
  {
    seq(|s|, i requires 0 <= i < |s| => UpperChar(s[i]))
  }

  /** A string with no lower-case ASCII letter is its own upper-case form. */
  predicate IsUpperAscii(s: string)
  {
    forall i :: 0 <= i < |s| ==> !('a' <= s[i] <= 'z')
  }

  lemma UpperOfUpperIsIdentity(s: string)
    requires IsUpperAscii(s)
    ensures ToUpperAscii(s) == s
  {
  }

  predicate IsAsciiDigit(c: char)
  {
    '0' <= c <= '9'
  }

  /** Every character is an ASCII digit (`\d` without the `u` flag). */
  predicate AllDigits(s: string)
  {
    forall i :: 0 <= i < |s| ==> IsAsciiDigit(s[i])
  }

  /** `Math.round((count / total) * 100)` for a non-zero `total` (and 0 for a zero
      one, as the guarded percentages write it), computed exactly on integers:
      round half up of `100 * count / total`. */
  function Percent(count: nat, total: nat): (r: nat)
    ensures total == 0 ==> r == 0
    ensures total > 0 ==> 2 * total * r <= 200 * count + total < 2 * total * (r + 1)
    ensures count <= total ==> r <= 100
  {
    if total == 0 then 0
    else
      var n, d := 200 * count + total, 2 * total;
      var r := n / d;
      DivisionBounds(n, d);
      if count <= total then
        QuotientBelow(n, d, 101);
        r
      else r
  }

  /** Everything done shows 100 percent. */
  lemma PercentOfAll(total: nat)
    requires total > 0
    ensures Percent(total, total) == 100
  {
    var n, d := 201 * total, 2 * total;
    DivisionBounds(n, d);
    QuotientBelow(n, d, 101);
    if n / d < 100 {
      MultiplyMonotonic(d, n / d + 1, 100);
    }
  }

  lemma DivisionBounds(n: nat, d: nat)
    requires d > 0
    ensures d * (n / d) <= n < d * (n / d + 1)
  {
  }

  lemma QuotientBelow(n: nat, d: nat, k: nat)
    requires 0 < d && n < d * k
    ensures n / d < k
  {
    DivisionBounds(n, d);
    if n / d >= k {
      MultiplyMonotonic(d, k, n / d);
    }
  }

  lemma MultiplyMonotonic(d: nat, a: nat, b: nat)
    requires a <= b
    ensures d * a <= d * b
  {
  }
}
