# doorwoman: Wiegand door daemon, modelled in Dafny

This project models the credential path of the doorwoman access-control daemon (`access.py`) and the record shaping of its users-table updater (`update.py`):

- **Readers** (`readers.dfy`). Each configured reader entry has a `stream` and a `timer` slot. A falling edge on `d0` appends `'0'` and one on `d1` appends `'1'`. The first edge of a message starts a timer. Later edges neither cancel nor restart it, so a message closes 0.2 s after its *first* edge. The timer's expiry drains the stream and hands it to the validator. `setup_readers` turns config entries into readers and routes their pins (`zone_by_pin`).
- **Validator** (`wiegand.dfy`). `validate_bits` checks the standard 26-bit Wiegand frame (HID H10301):
  - the length must be exactly 26;
  - bit 0 is even parity over bits 1–12, and bit 25 is odd parity over bits 13–24;
  - the facility code is bits 1–8 and the user number is bits 9–24, both most significant bit first;
  - the card id is the whole frame as 8 lowercase hex digits.
- **Authorization** (`authorization.dfy`). `lookup_card` tries four keys in this order and takes the first truthy hit:
  1. `"<facility>,<user>"`;
  2. the card id;
  3. the card id uppercased;
  4. the user number.

  The user is granted only if the record's entry for the daemon's zone is exactly `"authorized"`.
- **Door outputs** (`outputs.dfy`). `lock`, `unlock` and `unlock_briefly` drive the latch, green and beep pins. Their levels are derived from the zone's `unlock_value`. The pins are modelled as a map from pin to level, plus a ghost trace of every write.
- **Daemon** (`access.py` as a whole, in `access.dfy`). One object holds the zone, the door, the readers, `zone_by_pin` and the users table. Its methods are the entry points:
  - `DataPulse` for the GPIO edge callback;
  - `StreamDone` for the timer expiry;
  - `Rehash` for SIGHUP;
  - `ManualUnlock` for SIGUSR1.
- **Updater** (`update.dfy`).
  - `format_fobs` turns spreadsheet rows into the users table.
  - `find_duplicates` groups rows by ID.
  - The main block decides between three outcomes: leave `users.json` unchanged, refuse to overwrite it, or overwrite it.

Text conversions used by the code live in `formats.dfy`: `str(n)`, `"%08x"`, `str.upper()` and powers.

Behaviour of the code that the model keeps on purpose:

- **Lookup fallback.** `users.get(a) or … or users.get(d)` returns the last lookup as it is when nothing earlier is truthy. So an *empty* record stored under the user number gives "user isn't authorized for this zone", not "couldn't find user".
- **Missing name.** The grant report reads `user["name"]` before the door is unlocked. A record authorized for the zone but without `"name"` therefore raises `KeyError`, and the door stays shut. This is `Decision.NameMissing`.
- **Pin 0.** A reader pin numbered 0 is falsy, so `setup_readers` skips that entry.
- **Zone `"name"`.** A `format_fobs` record also authorizes a zone literally called `"name"` when the person's name is `"authorized"`.
- **Idle timer.** The code never cancels or restarts a pending idle timer. A message closes 0.2 s after its first edge, however many edges follow.
- **Unlock window.** `unlock_briefly` is unlock followed by lock. A second unlock while the door is open opens no new window; it only adds another unlock-then-lock.
- **Reload failure.** `rehash` does not catch a parse failure in `users.json`. The exception escapes the signal handler.
- **Key order.** `lookup_card` always tries its four keys in the fixed order given above.

## Model

| member | source | states |
|---|---|---|
| Formats.DecimalRoundTrip | access.py:224 | `str(n)` is a non-empty digit string with no leading zero that reads back as n |
| Formats.DecimalInjective | access.py:224 | different numbers give different `str(n)` |
| Formats.DecimalLength | access.py:230 | a number below 10^k prints in at most k digits |
| Formats.HexRoundTrip | access.py:221 | for n < 16^w the hex rendering has exactly w lowercase digits and reads back as n (`%08x` loses nothing) |
| Wiegand.Value | access.py:207-208 | `int(s, 2)` of an s-bit string is below 2^\|s\|; so the facility is in [0,255] and the user id in [0,65535] |
| Wiegand.Validate | access.py:201-224 | every decoded credential has facility < 256 and user id < 65536 |
| Wiegand.ValidateBits | access.py:201-224 | the loop with both parity accumulators computes exactly the decision of `Validate`; any length other than 26 is a length error before any bit is read |
| Wiegand.ParityFlip | access.py:214-216 | changing any one bit changes the XOR parity |
| Wiegand.SingleBitErrorDetected | access.py:212-219 | flipping any single bit of an accepted frame makes it fail the parity check |
| Wiegand.BitsValue | access.py:207-208 | writing n in w bits gives a w-bit string that reads back as n |
| Wiegand.ValueBits | access.py:207-208 | a bit string is the w-bit rendering of its own value |
| Wiegand.EncodeDecode | access.py:206-224 | a frame encoded from any (F, C) with computed parities is accepted and decodes to exactly F and C |
| Wiegand.DecodeEncode | access.py:206-224 | every accepted frame is exactly the encoding of the (F, C) it decodes to |
| Wiegand.ValueConcat | access.py:221 | the binary value of a + b is value(a)·2^\|b\| + value(b) |
| Wiegand.FrameValue | access.py:207-208 | a 26-bit frame's value is bit 0·2^25 + facility·2^17 + user·2 + bit 25 |
| Wiegand.CardIdIsFrameValue | access.py:221 | the card id has 8 lowercase hex digits whose value is the whole frame: lparity·2^25 + F·2^17 + C·2 + rparity |
| Authorization.FirstTruthy | access.py:230-233 | the `or` chain of gets yields a truthy (present, non-empty) record, or else the last get exactly as it is |
| Authorization.LookupKeys | access.py:230-233 | four keys in lookup order; the "F,C" key never equals the user-number key, and the third key is the second uppercased |
| Authorization.Authorize | access.py:229-240 | "couldn't find user" iff the chain yields None; a record found but not authorized for the zone gives "user isn't authorized for this zone"; an authorized record with a name is a grant carrying that name; an authorized record without a name is the KeyError case |
| Authorization.FirstTruthyPicksFirstHit | access.py:230-233 | the `or` chain yields the record of the first key with a non-empty record |
| Authorization.FirstTruthyNone | access.py:230-234 | the chain yields None iff no key before the last has a non-empty record and the last key is absent |
| Authorization.FirstTruthyFromKeys | access.py:230-233 | whatever the chain yields is the record of one of the keys tried |
| Authorization.GrantNeedsAuthorizedRecord | access.py:229-238 | a grant implies some lookup key holds a record authorized for the zone, and the grant carries that record's name |
| Authorization.UserNotFoundIff | access.py:234-235 | "couldn't find user" iff none of the first three keys holds a non-empty record and the user-number key is absent |
| Authorization.PairKeyDecides | access.py:230-240 | a non-empty record under "F,C" decides alone: grant iff authorized for the zone (and named), otherwise "not authorized" |
| Authorization.EmptyTableDenies | access.py:234-235 | an empty table refuses every credential as "couldn't find user" |
| Authorization.PairKeyInjective | access.py:230 | two credentials share the "F,C" key only if their facility and user are equal |
| Authorization.DecimalHasNoComma | access.py:230 | a decimal key has no comma |
| Authorization.PairKeyHasComma | access.py:230 | the "F,C" key always has a comma |
| Authorization.LookupKeysDistinct | access.py:229-233 | for a decoded credential the four keys are pairwise distinct, except that the lowercase and uppercase ids coincide exactly when the id has no letter |
| Authorization.HexCaseAgrees | access.py:231-232 | uppercasing a hex id changes it iff it contains a letter digit |
| Outputs.ApplyThree | access.py:136-144 | three output writes are three pin updates in that order |
| Outputs.ApplyUntouched | access.py:136-144 | a pin no write names keeps its level |
| Outputs.ApplyConcat | access.py:150-153 | performing two write sequences one after the other is performing their concatenation |
| Outputs.LockUnlockComplement | access.py:136-148 | for any latch, green and beep pins, shared ones included, unlock leaves each of the three at the opposite of lock's level, and neither touches any other pin |
| Outputs.LockLevels | access.py:136-139 | when the latch shares no pin with green or beep, lock sets latch = unlock_value^1 and green = beep = unlock_value |
| Outputs.RelockOverridesUnlock | access.py:150-153 | lock after unlock leaves every pin as lock alone would |
| Outputs.Door.constructor | access.py:75-79 | output setup ends in the lock configuration |
| Outputs.Door.Lock | access.py:136-139 | the pins become old pins with the three lock writes applied; the write trace grows by exactly those writes |
| Outputs.Door.Unlock | access.py:141-144 | the same for the three unlock writes |
| Outputs.Door.UnlockBriefly | access.py:150-153 | the pins are the old pins with the unlock writes and then the lock writes applied, which is the lock configuration; the trace grows by unlock then lock |
| Readers.Kick | access.py:187-191 | the stream is untouched, a timer is pending afterwards, and a pending timer is kept as it is |
| Readers.Pulse | access.py:179-185 | the edge's bit ('0' for d0, '1' for d1, nothing for another pin) is appended, a timer is pending afterwards, and a pending timer is never replaced |
| Readers.Expire | access.py:193-198 | nothing is handed over iff the stream is empty, and then nothing changes; otherwise the whole stream is handed over and the stream and timer slot are cleared |
| Readers.PulseKeepsConsistent | access.py:179-191 | an edge on a reader's own data line adds one bit and keeps "timer pending ⟺ stream non-empty"; a pending timer is never replaced |
| Readers.ExpireKeepsConsistent | access.py:193-198 | an expiry keeps the invariant and leaves the reader idle whenever it hands over a message |
| Readers.FeedAccumulates | access.py:179-191 | edges before expiry accumulate in order into one stream under the single timer that the first edge started |
| Readers.MessageDelivered | access.py:179-199 | a message received from idle is handed over whole, exactly once, the reader returns to empty stream and no timer, and a second expiry is a no-op |
| Readers.Reader.constructor | access.py:165-168 | a new reader has an empty stream and no timer |
| Readers.Reader.DataPulse | access.py:179-185 | d0 appends '0', d1 appends '1', then the timer is kicked; only stream and timer change |
| Readers.Reader.KickTimer | access.py:187-191 | a timer is started only when none is pending |
| Readers.Reader.StreamDone | access.py:193-198 | an empty stream is a no-op; otherwise the whole stream is returned and stream and timer are cleared |
| Readers.ReaderNamesFrom | access.py:160-165 | every selected reader name comes from a config entry that qualifies |
| Readers.SetupReaders | access.py:158-171 | exactly the non-"<zone>" dict entries with truthy d0 and d1 become fresh idle readers with those pins; zone_by_pin routes every data pin to a reader owning it |
| Access.Process | access.py:199-224 | a stream of the wrong length is refused as such; a stream is refused iff validate_bits fails it, with the same length or parity error; otherwise the outcome is lookup_card's decision on the decoded credential |
| Access.OpensOnlyForAuthorizedCard | access.py:201-238 | a stream opens the door only if it is a correctly encoded frame and one of its lookup keys holds a record authorized for the zone |
| Access.OpensForEnrolledCard | access.py:201-238 | the frame of a card enrolled under "F,C" with a named record authorized for the zone opens the door, with that name |
| Access.Daemon.constructor | access.py:24-37 | startup leaves the door locked, with exactly the lock writes performed, and the users table as given; every qualifying reader entry becomes an idle reader with its own d0 and d1; the inputs are exactly those data pins; zone_by_pin is seeded with the latch pin and routes every input to a reader owning it |
| Access.Daemon.DataPulse | access.py:179-185 | the edge goes to the reader zone_by_pin names, which appends its bit; no other reader changes |
| Access.Daemon.StreamDone | access.py:193-199 | a non-empty stream is drained once, leaving the reader idle, and its outcome is that of validate_bits on the drained bits; an empty stream changes nothing; the outputs change (unlock, then lock) only when the outcome is a grant |
| Access.Daemon.CheckFrame | access.py:201-224 | the outcome is the decoding of the frame followed by the lookup; a length or parity failure leaves the outputs untouched |
| Access.Daemon.LookupCard | access.py:229-244 | the decision is that of the four-key lookup against the current users table and zone; only a grant drives unlock-then-lock, a refusal leaves the outputs untouched |
| Access.Daemon.Rehash | access.py:93-96 | the users table is replaced wholesale |
| Access.Daemon.ManualUnlock | access.py:101-103 | unlock-then-lock without any lookup |
| Update.FormatFobs | update.py:20-21 | the table has at most as many entries as there are rows |
| Update.FormatFobsKeys | update.py:21 | an ID is a key iff some row with that ID is not disabled |
| Update.FormatFobsLastWins | update.py:21 | among enabled rows sharing an ID, the last one gives the entry |
| Update.FormatFobsRecords | update.py:21 | every entry is exactly {"name": Name, "maindoor": "authorized"} for the Name of an enabled row carrying that ID |
| Update.FobRecordAuthorizes | update.py:21 | such a record authorizes zone "maindoor" (and zone "name" only when the name is "authorized") |
| Update.SheetOpensOnlyMainDoor | access.py:236 | a table made by format_fobs opens no zone but "maindoor" (zone "name" aside) and never lacks a name |
| Update.FindDuplicates | update.py:23-27 | id_dict maps every ID to its rows in input order, disabled ones included; the reported IDs are those with more than one row, in first-occurrence order |
| Update.FirstIdsAreIds | update.py:26-27 | an ID is a key of id_dict iff some row carries it |
| Update.RepeatedMembers | update.py:27 | the comprehension keeps exactly the listed IDs whose group has more than one row |
| Update.DuplicateIff | update.py:27 | an ID is reported iff more than one row carries it |
| Update.UpdateAction | update.py:52-58 | tables equal to the existing users stop the update; `len(users) and not len(records) or not len(records_by_id)` refuses; anything else overwrites with a non-empty table that differs from the existing one |
| Update.UpdateActionSimplified | update.py:52-58 | with the records' own table, the guard refuses iff the new table is empty and differs from the existing one; the `len(users) and not len(records)` disjunct adds nothing |

## Left out

- GPIO calls (mode, setup, event detection, cleanup). Output writes become updates of the pin map. Edge callbacks become `DataPulse` calls on the pins that got an edge callback.
- Real time: the 0.2 s `threading.Timer`, and the `time.sleep(open_delay)` inside `unlock_briefly`. A timer expiry is an explicit `StreamDone` step. `unlock_briefly` is unlock followed by lock, with no clock in between.
- Concurrency between edge callbacks, timer threads and signal handlers. Only sequential interleavings are modelled, since the code has no locks.
- Logging, e-mail, journal output, `debug` messages and the text of `report`.
- The PID lockfile, `atexit`, signal registration, `sigterm` and `cleanup`.
- JSON loading of `zone.json`, `config.json` and `users.json`. These are given as typed values: config sections are maps of integers, other settings are opaque, and user records map strings to strings. A non-string record value, such as a JSON null name, is not modelled. Neither is a users file that fails to parse during `rehash`.
- `active()` reads `unlock_value` through `zone_by_pin[latch]` on every call. The model keeps the zone's `unlock_value` in the door instead. These differ only if a reader's data pin reuses the latch pin.
- `unlock_value` is taken to be 0 or 1 (JSON false or true), the `Level` type. For any other integer, `v^1` and `v` are not opposite levels, and that case is not modelled.
- Dict ordering is taken to be insertion order, as in Python 3.7 and later. The `#!/usr/bin/python` scripts may run under Python 2.7, which iterates dicts in hash order. This affects two things: the order of `find_duplicates`' reported IDs (`Update.FindDuplicates`), and which reader wins a shared pin in `zone_by_pin` (`Readers.RoutePins`).
- `reader["unlocked"]` is set in `setup_readers` but never read, so it is not modelled.
- `Readers.Reader.started`: the serial number of each `threading.Timer` stands for the Timer object itself.
- In update.py: the Google Sheets fetch, the reads and writes of `users.json`, and the `subprocess` calls. (`users_file.open` at update.py:61 is not a method of a file object.) `json.dumps` text equality is treated as equality of the two tables.
- Spreadsheet IDs and names are strings. An integer ID cell and the same ID as text are distinct dict keys that collide once written as JSON. That collision is not modelled.
