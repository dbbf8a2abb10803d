# Escape-room game state, modelled in Dafny

The repository is a Halloween escape-room game. A Node/Express + Socket.IO
server keeps one game-state record. It holds a player count, ten recovery
codes (each `{code, entered}`) and fifteen QR codes (each `{code, scanned}`).
Players submit codes over sockets or REST, an admin toggles them, and a reset
rebuilds the record. Every change to the codes, a disconnect and a reset is
broadcast to all sockets as `game-state`. A connect raises the player count
and sends the record only to the connecting socket. Four React
screens derive what they show from that record:

- the recovery tool (masking, four-digit input check, last three entered);
- the admin panel (counts, percentages, optimistic toggles);
- the QR scanner (local duplicate check, the `finalCode` unlock latch);
- the dashboard (`mm:ss` countdown and counts).

The project models that core in these files:

- `entries.dfy` (module `Entries`): the code entry shared by all parts. Both
  `entered` and `scanned` are one `flag` field. It also holds the list
  operations the source uses: `find` as `FirstIndex`, `filter(...)` as
  `Flagged`, `.length` of it as `CountFlagged`, and `every` as `AllFlagged`.
  Beside these are ASCII `toUpperCase` and the integer form of
  `Math.round(count / total * 100)`.
- `server.dfy` (module `Server`): the registries and the pure submit and
  toggle semantics (`Mark`, `Flip`). The in-place array versions (`Find`,
  `MarkFirst`, `FlipFirst`) are proved against them. The class `GameStore`
  holds the arrays the handlers mutate and a ghost log of broadcasts.
- `recovery.dfy` (module `RecoveryScreen`), `admin.dfy` (module `AdminPanel`),
  `qrcode.dfy` (module `QrScreen`) and `dashboard.dfy` (module `Dashboard`):
  the four screens. Pure derivations are functions. The QR screen and the
  dashboard are classes whose methods update their fields as the React state
  setters do.

The screens' network answers, socket messages and timer ticks are parameters
of the methods that handle them.

## Model

| member | source | states |
|---|---|---|
| Entries.FirstIndex | server/index.js:104 | `find` by exact code: a found index is in range, holds the code and no earlier entry does; no result means no entry holds the code |
| Entries.FirstIndexDependsOnCodes | server/index.js:104 | a lookup depends only on the code column, so flag changes never change what a later `find` returns |
| Entries.FirstIndexOfDistinct | server/index.js:23-51 | with distinct codes, `find` returns the one entry holding the code |
| Entries.Flagged | client/src/routes/game/admin.tsx:19-20 | the filter keeps exactly the flagged entries and is no longer than the list |
| Entries.CountFlagged | client/src/routes/game/admin.tsx:19-20 | `filter(...).length`: zero for the empty list and never above the length; its value is pinned entry by entry by `CountFlaggedStep`, and under one rewrite by `CountFlaggedUpdate` |
| Entries.CountFlaggedStep | client/src/routes/dashboard/index.tsx:60-62 | the count grows along the list: the last entry adds one exactly when it is flagged |
| Entries.AllFlagged | client/src/routes/game/qrcode.tsx:28 | `every(c => c.scanned)`: true exactly when the flagged count reaches the length, so true of the empty list |
| Entries.CountFlaggedFull | client/src/routes/game/qrcode.tsx:104-106 | the flagged count equals the length exactly when every entry is flagged (`every`), the empty list included |
| Entries.CountFlaggedNone | server/index.js:62-63 | a list with nothing flagged counts zero |
| Entries.FlaggedAppend | client/src/routes/game/recovery.tsx:84-86 | filtering distributes over concatenation |
| Entries.CountFlaggedUpdate | server/index.js:109 | rewriting one entry changes the count by exactly the change of that entry's flag |
| Entries.ToUpperAscii | server/index.js:182 | upper-casing keeps the length and maps each character through ASCII upper-casing |
| Entries.UpperOfUpperIsIdentity | server/index.js:35-51 | upper-casing a code without lower-case letters leaves it unchanged |
| Entries.Percent | client/src/routes/game/admin.tsx:21-26 | the guarded percentage is 0 for an empty list, otherwise `100*count/total` rounded half up (exact bounds), and at most 100 |
| Entries.PercentOfAll | client/src/routes/game/admin.tsx:21-26 | a complete list shows exactly 100 |
| Server.FreshEntries | server/index.js:62-63 | a registry-built list carries the registry's codes in order, none flagged |
| Server.RecoveryRegistryDistinct | server/index.js:23-34 | the ten recovery codes are pairwise distinct |
| Server.QrRegistryUpper | server/index.js:35-51 | every registry QR code is free of lower-case letters |
| Server.QrRegistryDistinct | server/index.js:35-51 | the fifteen QR codes are pairwise distinct |
| Server.Mark | server/index.js:104-109 | a submit sets the flag of the first match and nothing else; an unknown code changes nothing; codes are preserved |
| Server.Flip | server/index.js:250-251 | a toggle negates the flag of the first match and nothing else; an unknown code changes nothing; codes are preserved |
| Server.MarkIdempotent | server/index.js:109 | submitting the same code twice is the same as once |
| Server.FlipInvolution | server/index.js:251 | toggling the same code twice restores the list |
| Server.MarkCount | server/index.js:109 | a submit raises the count by one exactly when the matched entry was unflagged, otherwise leaves it |
| Server.QrCaseAsymmetry | server/index.js:180-182 | on the registry, "r3c0v3r" is refused by the exact socket lookup and accepted by the REST lookup, which marks entry 0 |
| Server.RestQrLookupIgnoresCase | server/index.js:182 | any input whose upper-case form is a stored code is found on the REST path |
| Server.Find | server/index.js:104 | the loop over the stored array returns exactly `FirstIndex` of its contents |
| Server.MarkFirst | server/index.js:104-109 | in place, the array becomes `Mark` of its old contents; success means a match existed |
| Server.FlipFirst | server/index.js:250-251 | in place, the array becomes `Flip` of its old contents |
| Server.ToArray | server/index.js:62-63 | a fresh array holding the given list |
| Server.GameStore.Start | server/index.js:59-78 | player count 0; the saved lists replace the registry-built ones only when the file parsed and holds both; a missing or unreadable file keeps the fresh ones |
| Server.GameStore.Connect | server/index.js:91-94 | one more player; codes unchanged; the connecting socket receives the current record |
| Server.GameStore.Disconnect | server/index.js:96-100 | one player fewer, clamped at zero; codes unchanged; one broadcast of the new record |
| Server.GameStore.SubmitRecovery | server/index.js:164-173 | the recovery array becomes `Mark`; the QR array and player count are untouched; the registry invariant is kept; a broadcast exactly on success |
| Server.GameStore.SubmitQr | server/index.js:116-123 | the QR array becomes `Mark`; the recovery array and player count are untouched; the registry invariant is kept; a broadcast exactly on success |
| Server.GameStore.OnSubmitRecoveryCode | server/index.js:103-112 | the status echoes the code with success iff it exists; the state becomes `Mark`; a broadcast only on success |
| Server.GameStore.PostSubmitRecoveryCode | server/index.js:162-175 | `ok` and `success` are both true iff the code exists; "Invalid code" otherwise; the body carries the updated list; a broadcast only on success |
| Server.GameStore.OnScanQr | server/index.js:115-124 | exact, case-sensitive lookup; the status echoes the code; the state becomes `Mark`; a broadcast only on success |
| Server.GameStore.PostSubmitQrCode | server/index.js:180-193 | the lookup uses the upper-cased input; `ok`/`success`/message and list as for recovery; a broadcast only on success |
| Server.GameStore.PostToggleRecoveryCode | server/index.js:248-254 | always `ok`, always broadcasts; the list becomes `Flip`; the registry invariant is kept |
| Server.GameStore.PostToggleQrCode | server/index.js:256-262 | always `ok`, always broadcasts; the list becomes `Flip`; the registry invariant is kept |
| Server.GameStore.PostReset | server/index.js:142-155 | the record is rebuilt from the registries with player count 0 and nothing flagged; it matches the registries; one broadcast; answers ok |
| RecoveryScreen.MaskDigits | client/src/routes/game/recovery.tsx:22 | every ASCII digit becomes `*`, every other character is kept |
| RecoveryScreen.MaskCode | client/src/routes/game/recovery.tsx:20-23 | an empty code shows `****`; otherwise the length and the first character are kept and later digits are starred |
| RecoveryScreen.MaskRevealsOnlyFirstDigit | client/src/routes/game/recovery.tsx:20-23 | two digit codes of equal length and equal first digit mask alike, as the first digit followed by stars |
| RecoveryScreen.TrimStart | client/src/routes/game/recovery.tsx:26 | the result is a suffix, everything dropped is JavaScript whitespace, and it does not start with whitespace |
| RecoveryScreen.TrimEnd | client/src/routes/game/recovery.tsx:26 | the result is a prefix, everything dropped is JavaScript whitespace, and it does not end with whitespace |
| RecoveryScreen.Trim | client/src/routes/game/recovery.tsx:26 | `input.trim()`: no longer than the input, no whitespace at either end, and empty for an all-whitespace input |
| RecoveryScreen.IsFourDigits | client/src/routes/game/recovery.tsx:27 | `/^\d{4}$/`: exactly four ASCII digits, which holds no whitespace |
| RecoveryScreen.FourDigitsUntrimmed | client/src/routes/game/recovery.tsx:26-27 | four digits pass through `trim` unchanged |
| RecoveryScreen.FourDigitsMasked | client/src/routes/game/recovery.tsx:20-23 | four digits mask as their first digit followed by `***` |
| RecoveryScreen.StartSubmit | client/src/routes/game/recovery.tsx:25-36 | a request is sent iff the trimmed input is exactly four ASCII digits; it carries the trimmed text and clears the status; otherwise the status is error |
| RecoveryScreen.TrimStartSkipsWhitespace | client/src/routes/game/recovery.tsx:26 | leading whitespace of any length does not change the trimmed start |
| RecoveryScreen.TrimEndSkipsWhitespace | client/src/routes/game/recovery.tsx:26 | trailing whitespace of any length does not change the trimmed end |
| RecoveryScreen.TrimIsSlice | client/src/routes/game/recovery.tsx:26 | `trim` returns one contiguous slice of the input with only whitespace on either side |
| RecoveryScreen.SubmitSendsOnlyFourDigits | client/src/routes/game/recovery.tsx:26-42 | every request is four digits found in the input between whitespace-only margins |
| RecoveryScreen.PaddedFourDigitsAreSent | client/src/routes/game/recovery.tsx:26-42 | four digits wrapped in any whitespace are sent unchanged |
| RecoveryScreen.TrimStartKeepsNonWhitespace | client/src/routes/game/recovery.tsx:26 | a string starting with a digit is not trimmed at the start |
| RecoveryScreen.TrimEndKeepsNonWhitespace | client/src/routes/game/recovery.tsx:26 | a string ending with a digit is not trimmed at the end |
| RecoveryScreen.FinishSubmit | client/src/routes/game/recovery.tsx:44-57 | an accepted code becomes the last full code with success status; a refusal or network error sets error and keeps it |
| RecoveryScreen.LastN | client/src/routes/game/recovery.tsx:86 | `slice(-n)`: the last `min(n, length)` elements in order |
| RecoveryScreen.MaskAll | client/src/routes/game/recovery.tsx:87 | the masks of the entries' codes, position by position |
| RecoveryScreen.RecentMasked | client/src/routes/game/recovery.tsx:84-88 | at most three; exactly `min(3, entered)`; each the mask of one of the last entered codes in order |
| RecoveryScreen.LastEntered | client/src/routes/game/recovery.tsx:92-95 | a shown last code is never the empty string (`|| null`) |
| RecoveryScreen.LastOfFlagged | client/src/routes/game/recovery.tsx:92-94 | the last filtered entry is the entered entry of highest index |
| RecoveryScreen.LastEnteredIsLastFlagged | client/src/routes/game/recovery.tsx:91-95 | the last full code is the code of the entered entry with the highest index; none when nothing is entered |
| RecoveryScreen.LastEnteredFound | client/src/routes/game/recovery.tsx:91-95 | when some entry is entered, the code of the one with the highest index is shown, and None only if that code is the empty string |
| RecoveryScreen.OnGameState | client/src/routes/game/recovery.tsx:78-97 | a message without recovery codes changes nothing; otherwise count and last three are recomputed, and the last full code only for a non-empty list |
| RecoveryScreen.UnenteredListRestoresInitialView | client/src/routes/game/recovery.tsx:78-97 | a list with nothing entered, as a reset broadcasts, brings count, last three and last full code back to their initial values |
| RecoveryScreen.RecentMaskedAreEntered | client/src/routes/game/recovery.tsx:84-88 | each masked code shown is the mask of some entered entry |
| AdminPanel.ProgressOf | client/src/routes/game/admin.tsx:19-26 | the counts are exactly the numbers of flagged entries (`CountFlagged`) and the percentages are `Percent` of them, so 0 for empty lists and at most 100; a count reaches its length iff all are flagged |
| AdminPanel.InitialViewProgress | client/src/routes/game/admin.tsx:11-30 | before any state arrives both bars read 0 of 0 at 0% and the total is NaN |
| AdminPanel.TotalPercent | client/src/routes/game/admin.tsx:27-30 | the unguarded total is NaN exactly when both lists are empty; otherwise the rounded share of all flags, at most 100 |
| AdminPanel.ToggleAll | client/src/routes/game/admin.tsx:54-56 | the optimistic update keeps length and codes |
| AdminPanel.ToggleAllInvolution | client/src/routes/game/admin.tsx:54-56 | toggling twice restores the list |
| AdminPanel.ToggleAllChangesOnlyMatches | client/src/routes/game/admin.tsx:55 | exactly the entries holding the code change; an absent code changes nothing |
| AdminPanel.ToggleAllAgreesWithServer | client/src/routes/game/admin.tsx:54-56 | on a list with distinct codes, the optimistic update equals the server's toggle |
| AdminPanel.OptimisticToggleMatchesResponse | client/src/routes/game/admin.tsx:51-66 | while the panel holds a list with the registry's recovery codes, its optimistic update equals the server's toggle applied to that same list (a stale panel list can still differ from the server's own) |
| AdminPanel.OnGameState | client/src/routes/game/admin.tsx:35-38 | each list is replaced only when the message carries it |
| QrScreen.CheckBeforeSubmit | client/src/routes/game/qrcode.tsx:61-73 | an empty code is ignored; a code is refused locally iff its first exact match is scanned; otherwise it is sent |
| QrScreen.RejectedIffScanned | client/src/routes/game/qrcode.tsx:64-65 | with distinct codes, a local refusal happens iff some scanned entry holds that very code |
| QrScreen.LowerCaseSpellingIsSent | client/src/routes/game/qrcode.tsx:64 | against upper-case codes, an input with a lower-case letter is always sent, never refused locally |
| QrScreen.QrScreen.constructor | client/src/routes/game/qrcode.tsx:11-19 | empty list and input, no alert, no final code |
| QrScreen.QrScreen.ScannedCount | client/src/routes/game/qrcode.tsx:104 | the scanned count is exactly the number of scanned entries (`CountFlagged`), at most the list length |
| QrScreen.QrScreen.ScannedPercent | client/src/routes/game/qrcode.tsx:124 | NaN exactly for an empty list; otherwise at most 100, and exactly 100 when all are scanned |
| QrScreen.QrScreen.Unlocked | client/src/routes/game/qrcode.tsx:104-106 | unlocked iff every entry is scanned (the empty list included) or a final code is held |
| QrScreen.QrScreen.LoadQrCodes | client/src/routes/game/qrcode.tsx:21-33 | a fetched list replaces the old one and sets the latch when all are scanned; a failed fetch changes nothing; a set latch stays set |
| QrScreen.QrScreen.OnGameState | client/src/routes/game/qrcode.tsx:40-42 | the list is replaced only when the message carries one |
| QrScreen.QrScreen.OnAllQrScanned | client/src/routes/game/qrcode.tsx:44-50 | shows and latches the carried code; the screen is then unlocked |
| QrScreen.QrScreen.SubmitQrCode | client/src/routes/game/qrcode.tsx:61-102 | a request is sent iff the local check says so; refused and sent submits clear the input; each reply sets its alert; the latch is set only while falsy and when the reply shows all scanned; it is never cleared |
| QrScreen.EmptyListUnlocks | client/src/routes/game/qrcode.tsx:104-106 | an empty list shows the file unlocked |
| Dashboard.DigitChar | client/src/routes/dashboard/index.tsx:54 | a digit value below ten is written as an ASCII digit |
| Dashboard.DecimalDigits | client/src/routes/dashboard/index.tsx:53-56 | `toString` of a non-negative integer: at least one digit, no leading zero, one digit iff below ten, at most two below 100 |
| Dashboard.ParseDecimalDigits | client/src/routes/dashboard/index.tsx:53-56 | the decimal digits of `n` read back as `n` |
| Dashboard.ParseIgnoresLeadingZeros | client/src/routes/dashboard/index.tsx:55 | zero padding does not change the value |
| Dashboard.PadStart2 | client/src/routes/dashboard/index.tsx:55-56 | `padStart(2, "0")`: zeros in front up to length two, never truncating |
| Dashboard.JoinClock | client/src/routes/dashboard/index.tsx:57 | `${m}:${s}`: the minutes, a colon, then the two seconds digits |
| Dashboard.FormatTime | client/src/routes/dashboard/index.tsx:52-58 | all digits except a colon third from the end; exactly `mm:ss` below 100 minutes; a minutes field longer than two digits has no leading zero |
| Dashboard.PaddedField | client/src/routes/dashboard/index.tsx:53-56 | a padded field is all digits, at least two, exactly two below 100, and has no leading zero when longer than two |
| Dashboard.ParsePaddedDigits | client/src/routes/dashboard/index.tsx:53-56 | a padded field reads back as its number |
| Dashboard.JoinClockFields | client/src/routes/dashboard/index.tsx:57 | the joined text's fields read back as the two parts |
| Dashboard.FormatTimeRoundTrip | client/src/routes/dashboard/index.tsx:52-58 | the clock text's minutes times 60 plus its seconds (below 60) give back the time |
| Dashboard.InitialClock | client/src/routes/dashboard/index.tsx:18 | the countdown starts by showing "30:00" |
| Dashboard.CountdownStep | client/src/routes/dashboard/index.tsx:47 | a tick never goes below zero and lowers a positive time by one |
| Dashboard.CountdownAfter | client/src/routes/dashboard/index.tsx:45-50 | after `k` ticks from `t` the clock reads `max(0, t - k)` |
| Dashboard.ListOrEmpty | client/src/routes/dashboard/index.tsx:25-26 | a missing list reads as empty, a present one as itself |
| Dashboard.DashboardScreen.constructor | client/src/routes/dashboard/index.tsx:11-18 | empty lists, no final code, 30 minutes on the clock |
| Dashboard.DashboardScreen.CountsOf | client/src/routes/dashboard/index.tsx:60-63 | the counts are exactly the numbers of flagged entries (`CountFlagged`) and the totals the lengths; all QR codes are scanned iff the count reaches the total |
| Dashboard.DashboardScreen.Clock | client/src/routes/dashboard/index.tsx:81 | the clock text is `FormatTime(timeLeft)`, which is `mm:ss` below 100 minutes |
| Dashboard.DashboardScreen.Tick | client/src/routes/dashboard/index.tsx:45-50 | one tick is `CountdownStep`; the time stays non-negative and never rises |
| Dashboard.DashboardScreen.OnGameState | client/src/routes/dashboard/index.tsx:24-27 | both lists are replaced, a missing one by the empty list |
| Dashboard.DashboardScreen.OnAllQrScanned | client/src/routes/dashboard/index.tsx:29-31 | the carried code becomes the final code |

## Left out

- No handler of the server ever emits `all-qr-scanned`. Only its listener exists, and it logs (server/index.js:131-134). So on the QR screen and the dashboard, `OnAllQrScanned` runs only for a message from outside this code. The QR screen detects completion itself, from fetched or returned lists.
- `Server.FinalHiddenCode` is declared at server/index.js:52, and no handler uses it. The QR screen writes its own copy, "6158" (`QrScreen.LocalFinalCode`).
- `GET /state`, `GET /recovery-codes`, `GET /qr-codes` and `request-game-state` only return the record or one of its lists (`GameStore.Snapshot`). They state nothing beyond that and have no member of their own.
- Timestamps and the ten-second autosave are left out: clock time and file writes are I/O. Reading the save file is a parameter (`SavedFile`): missing, unreadable, or parsed with each list present or absent. The model does not check the shape of a saved list's entries.
- `GET /print-qr` (QR image generation and HTML) is left out: it is rendering through a foreign library.
- Console logging, CORS and socket identifiers are left out.
- Request bodies are always strings. A missing or non-string `code` makes `code.toUpperCase()` throw at server/index.js:182, and that path is not modelled.
- Entries.ToUpperAscii: upper-cases ASCII letters only. JavaScript's `toUpperCase` also maps non-ASCII letters, for example `ß` to `SS` (which changes the length) and `ſ` (U+017F) to `S`. Some non-ASCII inputs therefore upper-case onto an ASCII registry code: `POST /submit-qr-code` accepts "ſ3cr3t42" as `S3CR3T42`, and `Server.GameStore.PostSubmitQrCode` refuses it.
- Entries.Percent: the percentages use exact integer round-half-up of `100 * count / total`, not floating point. For the list sizes here the two agree. The unguarded ones (`AdminPanel.TotalPercent`, `QrScreen.QrScreen.ScannedPercent`) return None where JavaScript shows NaN. The bar widths at qrcode.tsx:120 and admin.tsx:179 are not modelled.
- Messages, alert texts and the timers that clear them after 2.5–3 seconds are left out, as are `loading` and focus handling. Alerts are kept by their cause (`QrScreen.Alert`), and recovery status as `Status`. The recovery screen's text box is also left out. A sent submit clears it in `finally` (recovery.tsx:60). A submit refused by the four-digit check returns early and keeps it (recovery.tsx:27-31). `RecoveryScreen.StartSubmit` takes the box's text as a parameter.
- QrScreen.QrScreen.SubmitQrCode: the source reads `finalCode` through a possibly stale React closure. The model reads the current field.
- Concurrency is left out: interleaving of socket events with REST calls and the order in which answers arrive. Each handler is one atomic step.
- The socket hook, the routing files and the player screens are not part of this model.
