# PKSM scripting API: record injection and network byte accounting

This project models, in Dafny, the part of PKSM's scripting API
(`3ds/source/picoc/pksm_api.cpp`) that decides whether a script may write a
creature record into storage, and the byte counting of its network helpers.

Record injection has three entry points:

- **Box injection** (`sav_inject_pkx`) and **party injection**
  (`party_inject_pkx`) run the same algorithm. First the generation tag is
  checked (`checkGen`); a bad tag aborts the script. Then the codec for that
  family builds the record. On an LGPE save the record is written only if it is
  itself an LGPE record; nothing is transferred or validated. On any other save
  the record is first transferred into the save's format, then the `moveBad`
  loop runs over the four moves. It also looks at the four relearn moves, but
  only for SIX and SEVEN records. Last comes an ordered chain of checks:
  species, form, ability, held item, ball, moves. The first failing check shows
  the two-line warning `STORAGE_BAD_TRANFER` / `STORAGE_BAD_<FIELD>` and nothing
  is written. Only when all six pass is the transferred record written to the
  addressed slot.
- **Bank injection** (`bank_inject_pkx`) checks the tag and writes the record
  to the bank's (box, slot) as decoded: no transfer and no limit.

The network helpers move raw bytes. `net_tcp_sender` sends in chunks of at most
1024 bytes until the whole buffer is counted or a `send` returns -1. It returns
0 only if exactly the requested size was counted. `net_tcp_receiver` and
`net_udp_receiver` share one receive loop: it adds each `recv` result to the
count and then stops on a result of 0 or less. They return 0 whenever setup
succeeded.

Modules:

- `Wrappers` (`wrappers.dfy`): Option and Result.
- `Generations` (`generations.dfy`): the five families and `CheckGen`.
- `Validation` (`validation.dfy`): the record fields, the destination's limits
  (`Caps`, with `formCount` as a function), the `moveBad` loop as a method
  proved against the predicate `MoveBad`, the ordered check chain and lemmas
  about it.
- `Injection` (`injection.dfy`): the pure decision (`Decide`, `Plan`) and the
  classes `Save` (box map and party map) and `Bank` (slot map). Their injection
  methods are imperative and are proved against the decision.
- `Transport` (`transport.dfy`): the send and receive loops as methods, proved
  against the recursive functions `SendFrom` and `RecvFrom`. Each `send` or
  `recv` result is drawn from an oracle sequence of "offers". A call returns -1
  for a negative offer and otherwise at most the length it asked for. When the
  oracle runs out while the loop would go on, the run is reported as `Blocked`.

The code behaves as follows, and the model follows it:

- The record is transferred on every non-LGPE save. The `doTradeEdits` argument
  is only handed on to the box write and gates nothing.
- On an LGPE save the test is the record's own generation. A non-LGPE record is
  silently not written.
- Relearn moves are inspected only for SIX and SEVEN records, not for every
  family that has them.
- A receiver whose peer closes early still returns status 0. Only the count
  shows the shortfall.

The codecs are not part of this model, so the generation a decoded record
reports is whatever the codec says. The LGPE test reads that value, exactly as
the source reads `pkm->generation()`.

## Model

| member | source | states |
|---|---|---|
| `Generations.CheckGen` | 3ds/source/picoc/pksm_api.cpp:47-61 | exactly FOUR, FIVE, SIX, SEVEN and LGPE are accepted and yield that family; any other tag fails the script with "Generation is not possible!" |
| `Validation.ComputeMoveBad` | 3ds/source/picoc/pksm_api.cpp:293-319 | the early-exit loop's flag equals `MoveBad`: some slot i < 4 has move(i) > maxMove or, for a SIX/SEVEN record, relearnMove(i) > maxMove |
| `Validation.MoveBadIff` | 3ds/source/picoc/pksm_api.cpp:294-318 | moveBad holds iff some move exceeds maxMove, or the record is SIX/SEVEN and some relearn move exceeds it |
| `Validation.RelearnIgnoredOutsideSixSeven` | 3ds/source/picoc/pksm_api.cpp:301-318 | for FOUR, FIVE and LGPE records the relearn moves never change moveBad |
| `Validation.FirstFailure` | 3ds/source/picoc/pksm_api.cpp:320-350 | the chain reports a non-move field only if that check fails, reports Move only if moveBad is set, and accepts only if moveBad is clear |
| `Validation.Validate` | 3ds/source/picoc/pksm_api.cpp:320-351 | accepted iff species <= maxSpecies, form <= formCount(species), ability <= maxAbility, item <= maxItem, ball <= maxBall and no move slot is bad; a rejection names a check that fails |
| `Validation.AcceptedIffNoFailure` | 3ds/source/picoc/pksm_api.cpp:320-351 | acceptance holds exactly when none of the six checks fails |
| `Validation.ReportsFirstFailure` | 3ds/source/picoc/pksm_api.cpp:320-350 | field f is reported iff check f fails and every check before it (species, form, ability, item, ball, move) passes |
| `Validation.SpeciesReportedBeforeAbility` | 3ds/source/picoc/pksm_api.cpp:320-334 | a record over both the species and the ability limit is reported for species |
| `Validation.FormAtCountAccepted` | 3ds/source/picoc/pksm_api.cpp:325-329 | the form bound is inclusive: form == formCount(species) passes, and with all other checks passing the record is accepted |
| `Validation.AcceptanceMonotone` | 3ds/source/picoc/pksm_api.cpp:320-350 | a record accepted under some limits is accepted under any pointwise wider limits |
| `Validation.WarningKey` | 3ds/source/picoc/pksm_api.cpp:322-348 | the second warning line of every check differs from the first line `STORAGE_BAD_TRANFER` |
| `Validation.WarningKeyInjective` | 3ds/source/picoc/pksm_api.cpp:322-348 | each failing check has its own second warning line: two checks with the same key are the same check |
| `Injection.EffectOf` | 3ds/source/picoc/pksm_api.cpp:257-350 | the script fails only on a bad tag; a warning is shown only on a refusal, with lines `STORAGE_BAD_TRANFER` and the failing field's key |
| `Injection.NonLgpeCommitIff` | 3ds/source/picoc/pksm_api.cpp:290-351 | on a non-LGPE save the record is written iff the transferred record passes all six checks; what is written is the transferred record; the silent skip never happens |
| `Injection.RefusalNamesFirstFailure` | 3ds/source/picoc/pksm_api.cpp:763-793 | on a non-LGPE save the refusal names the first failing check of the transferred record |
| `Injection.LgpeDirectPath` | 3ds/source/picoc/pksm_api.cpp:283-289 | on an LGPE save an LGPE record is written untransferred and unvalidated, any other record is silently skipped, and nothing is ever refused |
| `Injection.OutOfRangeSpeciesRefused` | 3ds/source/picoc/pksm_api.cpp:320-324 | species 99999 against maxSpecies 811 is refused for species, with the warning `STORAGE_BAD_TRANFER` / `STORAGE_BAD_SPECIES` |
| `Injection.Save.InjectBox` | 3ds/source/picoc/pksm_api.cpp:250-354 | the effect is that of the decision; only box entry (box, slot) changes, and only on a commit, to the committed record with the trade-edit flag; the party is untouched |
| `Injection.Save.InjectParty` | 3ds/source/picoc/pksm_api.cpp:695-797 | the same decision; only party entry slot changes, and only on a commit; boxes are untouched |
| `Injection.Bank.Inject` | 3ds/source/picoc/pksm_api.cpp:526-558 | a bad tag fails the script and leaves the bank unchanged; otherwise (box, slot) receives the decoded record whatever any limit says |
| `Transport.CallReturn` | 3ds/source/picoc/pksm_api.cpp:517-518 | a send/recv result is -1 exactly on error and otherwise never more than the length asked for |
| `Transport.ChunkLen` | 3ds/source/picoc/pksm_api.cpp:513-516 | each send asks for min(1024, size - total), which is positive and at most what is still unsent |
| `Transport.TcpSend` | 3ds/source/picoc/pksm_api.cpp:486-524 | a failed setup returns its errno and sends nothing; otherwise the loop's requests and count equal `SendFrom`, and the status is 0 iff the count equals size (else the send errno) |
| `Transport.SendRequestsBounded` | 3ds/source/picoc/pksm_api.cpp:515-520 | every send is asked for 1..1024 bytes, the first for min(1024, size - total), with at most one call per oracle answer |
| `Transport.SendNeverOvershoots` | 3ds/source/picoc/pksm_api.cpp:515-520 | the send count never decreases and never passes size |
| `Transport.SendEndsAtSizeOrError` | 3ds/source/picoc/pksm_api.cpp:515-523 | for size >= 0, an ended send loop has counted size bytes iff no call failed; otherwise its last call returned -1 |
| `Transport.SendAllAccepted` | 3ds/source/picoc/pksm_api.cpp:512-523 | a peer that takes every chunk gets size bytes in ceil(size/1024) calls whose lengths sum to size |
| `Transport.SendThenReceive` | 3ds/source/picoc/pksm_api.cpp:474-479 | a complete send of N bytes, fed chunk by chunk to the receive loop, is counted as N bytes with the loop ended, so `TcpSend` and `Receive` both return status 0 |
| `Transport.Receive` | 3ds/source/picoc/pksm_api.cpp:437-484 | a failed setup returns its errno and never writes the count; otherwise the count equals `RecvFrom` and the status is 0 (the UDP receiver at lines 402-435 runs the same loop) |
| `Transport.CloseKeepsCount` | 3ds/source/picoc/pksm_api.cpp:474-479 | as written, a peer that closes (recv returns 0) after K < size bytes leaves the count at exactly K, and the loop stops on the close |
| `Transport.ReceivesExactChunks` | 3ds/source/picoc/pksm_api.cpp:474-479 | chunks that add up to exactly the missing bytes are received in one call each, and the count equals size |
| `Transport.ErrorLowersCount` | 3ds/source/picoc/pksm_api.cpp:476-478 | as written, 5 bytes then a failing recv are counted as 4 |
| `Transport.CountCanExceedSize` | 3ds/source/picoc/pksm_api.cpp:475-478 | as written, with size 10, recv results 9 then 10 are counted as 19 |
| `Transport.FixedCountBounded` | 3ds/source/picoc/pksm_api.cpp:474-479 | the corrected loop's count never decreases, never passes size, and uses at most one call per oracle answer |
| `Transport.FixedReceivesExactChunks` | 3ds/source/picoc/pksm_api.cpp:474-479 | the corrected loop receives chunks that add up to exactly the missing bytes, and the count equals size |
| `Transport.FixedReportsEarlyStop` | 3ds/source/picoc/pksm_api.cpp:474-479 | the corrected loop stops on the peer's close or an error after K < size bytes, and the count is exactly K |

## Findings

| source | as written | input that shows it | evidently intended | confidence | as-written member | corrected member |
|---|---|---|---|---|---|---|
| 3ds/source/picoc/pksm_api.cpp:476-478 | `*bytesReceived += n` runs before the `n <= 0` break, so a failing `recv` (-1) lowers the count; the UDP loop at 428-430 does the same | size 10; recv returns 5, then -1: the count reported is 4 | count only positive results, so the count stays at the 5 bytes received | high; not executed | `Transport.ErrorLowersCount` | `Transport.FixedReportsEarlyStop` |
| 3ds/source/picoc/pksm_api.cpp:476 | every `recv` asks for `size` bytes at the start of the buffer. Later chunks overwrite earlier ones, and the count can pass `size`. The UDP loop at 428 does the same | size 10; recv returns 9, then 10: the count reported is 19 | ask for `size - *bytesReceived` bytes at `buffer + *bytesReceived` | medium; not executed | `Transport.CountCanExceedSize` | `Transport.FixedCountBounded` |

## Left out

- Socket setup (`socket`, `bind`, `listen`, `accept`, `connect`, `inet_pton`, `close`) is OS I/O. Each helper gets a `setupError` argument instead: the errno of the setup call that failed, if one did. `net_ip` (host name lookup) is not modelled.
- The `send`/`recv` calls are replaced by an oracle sequence. The bytes themselves and the buffer contents are not modelled, only the counts. So the overwrite half of the second finding is stated in words, not proved.
- A send or receive loop that would never end (for example, `send` returning 0 forever) is followed only as far as the oracle reaches, and is then reported as `Blocked`.
- The errno values are parameters (`setupError`, `sendErrno`), because they come from the OS.
- The record codecs (PK4, PK5, PK6, PK7, PB7) are not part of this model, and neither are `encrypt`, `pkx_decrypt`, `pkx_encrypt`, `sav_get_pkx`, `party_get_pkx`, `sav_boxEncrypt` and `sav_boxDecrypt`. They are defined outside pksm_api.cpp; decoding is a caller-supplied function `Decoder`, left uninterpreted.
- `Save::transfer` is a function-valued field of `Save`, defined outside pksm_api.cpp and left uninterpreted. The only thing assumed of it is that it yields a well-formed record (four moves; SIX/SEVEN records carry relearn moves).
- `Save::pkm` and `Bank::pkm` are modelled as map updates of the addressed slot. What the trade edits do, and the on-disk encoding of the write, are not modelled. The box slot records the `doTradeEdits` flag alongside the record.
- pksm_api.cpp does not range-check box or slot indices, so the slot maps take any integer key.
- Field widths: the accessors return 16-bit values and the limits are compared unsigned, so unbounded naturals give the same results. Overflow of the `int` byte counts is not modelled.
- The interpreter's `ProgramFail` abort is modelled as the `ScriptFailed` effect. The unreachable `default:` codec branch after it is not modelled.
- GUI calls (`gui_warn`, `gui_choice`, the menus, `gui_keyboard`, `gui_numpad`, `gui_boxes`) and the species overlay are not modelled. The warning shown on a refusal is modelled as the two localization keys it displays.
- Configuration getters, `i18n_species`, `read_directory` and `current_directory` are not modelled (filesystem and settings). Neither are `pksm_utf8_to_utf16`/`pksm_utf16_to_utf8`, thin wrappers over conversion routines defined outside pksm_api.cpp, or `sav_sbo`/`sav_gbo`, casts to save classes defined outside pksm_api.cpp.
