# Fingerprint sensor workflows in Dafny

A model of the decision logic of the R03 fingerprint service. It covers:

- the capture poll loop and the two-buffer enrollment of the sensor service;
- free-slot allocation for uploaded templates, and identification by library search;
- the encrypted template vault: `salt ‖ nonce ‖ ct` files, with PBKDF2 and AES-GCM as opaque primitives;
- the status-to-LED table;
- the façade: user-id validation, vault file names, and the mapping from workflow results to `FingerprintError` codes;
- the older revisions of enrollment and identification (`src/core/enroll.py`, `src/core/identify.py`, `src/features/*.py`), each as its own module.

All of this runs against an **abstract sensor**. Every driver call takes the next reply from one scripted queue of replies, in call order. A reply is a return code or an exception, and a call made after the queue is exhausted raises, as a disconnected sensor would. A workflow is a pure function that threads a `Run`. The run holds:

- the sensor: library capacity, occupied slots, the driver's cached `templates` list, the remaining replies, the image bytes and the last match;
- the status events emitted so far;
- the log of every exchange (command issued, reply received).

So "no store was issued" or "the events were PLACE_FINGER, …, SUCCESS" are statements about a run.

Time is a poll budget. `capture` loops while `elapsed <= timeout`, and each no-finger poll is one time unit, standing for its sleep. The finger-removal wait of the older snapshots has no timeout in the source: it polls for as long as a finger stays on the sensor. In the model every poll consumes one scripted reply and an exhausted script raises, so the modelled wait always ends. A wait that never ends is not modelled (see "Left out").

Modules, in dependency order:

- `Wrappers`: Option and Result.
- `Driver`: codes, commands, the scripted sensor, `Issue` and `Emit`.
- `Status`: the enumeration and the LED table.
- `Slots`: the free-slot choice.
- `SensorService`: `response`, `_template`, `capture`, `clear_library` and `get_sensor_info`.
- `EnrollService`.
- `IdentifyService`.
- `Vault`: `src/security/encrypt.py`.
- `FingerprintService`: the façade.
- `FeaturesEnroll`, `CoreEnroll`, `CoreIdentify` and `FeaturesIdentify`: the older revisions.

Where the code and its documentation disagree, the model follows the code:

- `upload_to_sensor`'s handler raises instead of answering FAIL.
- `enroll_finger` passes `message=` to a `send` that takes only `msg`.
- The older `upload_to_sensor` of `src/core/identify.py` returns FAIL on every path.
- Older `_check_template` treats an OK count as failure.

## Model

| member | source | states |
|---|---|---|
| Status.GetLedMode | src/core/status.py:34-39 | every status finds its own entry in the table; a value the table lacks (the older `START`) gets the empty mode |
| Status.MembersComplete | src/core/status.py:7-17 | the enumeration has exactly ten distinct members and every status is one of them (no `START`) |
| Status.LedMapTotal | src/core/status.py:20-31 | the table has an entry for every member, so the lookup never falls back for a status |
| Status.NamesDistinct | src/core/status.py:7-17 | two statuses have the same name exactly when they are the same member |
| Status.PlacePromptsShareMode | src/core/status.py:21-23 | PLACE_FINGER and PLACE_SAME_FINGER light the same configured `p_finger` mode |
| Status.FailuresHaveNoMode | src/core/status.py:26-30 | the five failure statuses look up `"error"`, which the configuration lacks, so each gets the empty mode |
| Status.PromptsHaveMode | src/core/status.py:21-25 | the five other statuses each get a non-empty configured mode |
| Slots.FirstFree | src/core/identify_service.py:43-48 | the chosen slot is below the library size, not listed, and every smaller slot is listed; there is none exactly when every slot below the size is listed |
| SensorService.Respond | src/core/sensor_service.py:52-73 | the response holds the given status (FAIL when none is given), the message keyword or else the status name, and every other keyword unchanged; an extra positional argument raises TypeError |
| SensorService.Template | src/core/sensor_service.py:99-113 | one conversion into the buffer is issued; the result is true exactly when it answers OK, false for every other code, and an exception propagates |
| SensorService.Poll | src/core/sensor_service.py:78-97 | capture issues only image polls and conversions into its buffer, emits only its cue, leaves the library alone, and returns true only right after an OK image followed by an OK conversion |
| SensorService.PollTimesOut | src/core/sensor_service.py:81-90 | a finger that does not show within the budget costs exactly `timeout - elapsed + 1` empty polls, each followed by a PLACE_FINGER cue, and the result is false |
| SensorService.PollDecided | src/core/sensor_service.py:82-95 | within the budget the first non-NOFINGER reply decides: true exactly when it and the conversion after it are OK; an imaging error, an unknown code or a failed conversion ends at once with false; nothing further is polled |
| SensorService.CaptureBySpan | src/core/sensor_service.py:78-97 | capture succeeds exactly when the script's reference span exists: a non-NOFINGER reply within the budget that is OK, followed by an OK conversion |
| SensorService.CapturedShape | src/core/sensor_service.py:81-90 | a successful capture consumes exactly its span, logs the empty polls, the image and the conversion into its buffer, and emits one cue per empty poll |
| SensorService.PollKeepsMatch | src/core/sensor_service.py:78-97 | polling does not change the finger id or confidence the sensor reports |
| SensorService.ClearLibrary | src/core/sensor_service.py:146-154 | true exactly when emptying answers OK, which leaves the library empty; any other code or an exception gives false with the library unchanged |
| SensorService.SensorInfo | src/core/sensor_service.py:118-123 | reports the cached templates list, its length as the count, and the library size; for a freshly read list the count is the number of occupied slots |
| SensorService.ListingCount | src/core/sensor_service.py:121 | a freshly read templates list has one entry per occupied slot below the capacity |
| EnrollService.Send | src/core/enroll_service.py:63-66 | a returning `send` emits its status and returns a response with that status and message, with a `data` field exactly when data is passed |
| EnrollService.EnrollFinger | src/core/enroll_service.py:33-72 | enrollment starts by emitting PLACE_FINGER, ends in SUCCESS, ENROLLMISMATCH or FAIL, and its last event is that outcome |
| EnrollService.Combine | src/core/enroll_service.py:58-66 | SUCCESS exactly when `create_model` answers OK and the read-out does not raise, and it then carries the sensor's template; ENROLLMISMATCH exactly on a mismatch reply; otherwise FAIL |
| EnrollService.EnrollFollowsScript | src/core/enroll_service.py:45-72 | the enrollment outcome equals the outcome read off the script: two captures within budget, then the combine reply |
| EnrollService.EnrollStopsAfterFirstCapture | src/core/enroll_service.py:45-46 | a failed first capture gives FAIL having issued only image polls and conversions into buffer 1: no second capture, no combine |
| EnrollService.EnrollStopsAfterSecondCapture | src/core/enroll_service.py:54-55 | a failed second capture gives FAIL with no `create_model` issued |
| EnrollService.EnrollSuccessTrace | src/core/enroll_service.py:43-63 | a successful enrollment issues exactly the two captures (buffers 1 then 2, no command in between), the combine and the read-out, and emits PLACE_FINGER, REMOVE_FINGER, PLACE_SAME_FINGER, PROCESSING, SUCCESS with the captures' prompts in between |
| EnrollService.SendAsDeclared | src/core/sensor_service.py:47-50 | `send` accepts only `msg`: any other keyword raises TypeError before anything is emitted; otherwise it emits and returns None |
| EnrollService.EnrollFingerAsWritten | src/core/enroll_service.py:39-72 | as written, enrollment raises TypeError with nothing emitted and no sensor command issued |
| IdentifyService.UploadHandler | src/core/identify_service.py:72-74 | the upload's exception handler raises TypeError itself |
| IdentifyService.UploadToSensor | src/core/identify_service.py:29-74 | an upload emits nothing and answers SUCCESS, STORAGE_FULL or FAIL, or raises TypeError from its handler |
| IdentifyService.Store | src/core/identify_service.py:51-54 | from the push on, SUCCESS reports `loc_id` equal to the chosen slot and leaves that slot occupied |
| IdentifyService.Commit | src/core/identify_service.py:60-63 | SUCCESS only after the store of buffer 2 at the slot, which is then occupied |
| IdentifyService.Reread | src/core/identify_service.py:65-70 | the closing re-read changes no slot; it answers SUCCESS with the slot unless the read raises |
| IdentifyService.UploadIsStaged | src/core/identify_service.py:38-63 | the commands issued are a prefix of read, push, convert(2), store(slot, 2), re-read, and every step before the last one issued succeeded; with no free slot only the read is issued |
| IdentifyService.UploadChoosesFirstFree | src/core/identify_service.py:42-70 | SUCCESS reports the smallest slot missing from the freshly read list, the fourth command stored buffer 2 there with OK, and the slot is then occupied |
| IdentifyService.UploadSlotWasFree | src/core/identify_service.py:38-48 | the reported slot lies below the library size, was free before the call, and every smaller slot was occupied |
| IdentifyService.UploadStorageFull | src/core/identify_service.py:43-46 | a full listing gives STORAGE_FULL with no push, conversion or store issued |
| IdentifyService.AuthFailed | src/core/identify_service.py:110-112 | the handler emits FAIL once and answers FAIL |
| IdentifyService.Authenticate | src/core/identify_service.py:79-112 | authentication emits PLACE_FINGER first, answers SUCCESS, NOT_FOUND or FAIL, and its last event is that outcome |
| IdentifyService.Search | src/core/identify_service.py:94-108 | the search is the one command issued: OK gives SUCCESS with the sensor's finger id and confidence, NOTFOUND gives NOT_FOUND, anything else FAIL |
| IdentifyService.AuthenticateFollowsScript | src/core/identify_service.py:90-108 | the outcome equals the one read off the script: a capture within budget, then the search reply |
| IdentifyService.AuthenticateNoSearchWithoutCapture | src/core/identify_service.py:90-93 | a failed capture gives FAIL with no search issued, emitting only prompts and one FAIL |
| IdentifyService.AuthenticateSearchTrace | src/core/identify_service.py:94-101 | after a capture, REMOVE_FINGER and PROCESSING precede the outcome, the search is the last command, and a match reports the sensor's finger id and confidence |
| Vault.IntsRoundTrip | src/security/encrypt.py:43 | reading bytes as a list of ints and converting back is the identity, both ways round |
| Vault.Coerce | src/security/encrypt.py:30-31 | `bytes` pass unchanged; a list of ints is converted exactly when every value is in 0..255 and reads back as the same list; otherwise ValueError |
| Vault.Encrypt | src/security/encrypt.py:29-37 | the result carries the drawn 16-byte salt and 12-byte nonce, and with sound primitives the ciphertext opens, under the key derived from the salt with no associated data, to the coerced plaintext |
| Vault.Frame | src/security/encrypt.py:48 | the file is 28 bytes longer than the ciphertext and holds salt, nonce and ciphertext at offsets 0, 16 and 28 |
| Vault.Slice | src/security/encrypt.py:55 | Python slicing clamps to the length: in range it is the ordinary slice, an upper bound past the end gives the rest of the file, and a lower bound past the end gives nothing |
| Vault.Split | src/security/encrypt.py:55 | the three parts always concatenate back to the file; they have lengths 16 and 12 exactly when the file has 28 bytes or more; a shorter file gives an empty ciphertext |
| Vault.SplitFrame | src/security/encrypt.py:48-55 | splitting a framed file recovers salt, nonce and ciphertext |
| Vault.FrameSplit | src/security/encrypt.py:48-55 | every file of 28 bytes or more is the frame of its own split |
| Vault.EncryptToFile | src/security/encrypt.py:45-50 | writing returns True and replaces only the target file, whose bytes are the salt at 0..16, the nonce at 16..28 and the ciphertext after them |
| Vault.Decrypt | src/security/encrypt.py:39-43 | succeeds exactly when AES-GCM opens the ciphertext with no associated data, and returns the opened plaintext's bytes as ints, in order |
| Vault.DecryptFromFile | src/security/encrypt.py:52-57 | a missing file fails with FileNotFoundError; success returns byte values |
| Vault.DecryptFailsOnlyInCipher | src/security/encrypt.py:52-57 | for an existing file of any length, the read fails exactly when the cipher call on the split parts fails, with its error |
| Vault.VaultRoundTrip | src/security/encrypt.py:45-57 | with sound primitives, reading back a written file with the same password gives the plaintext bytes as a list of ints, and a list of ints comes back unchanged |
| FingerprintService.ValidUserIdMeans | src/core/fingerprint_service.py:18 | an id is accepted exactly when it is a non-empty word over letters, digits, `_` and `-`, optionally followed by one newline |
| FingerprintService.VaultPathInjective | src/core/fingerprint_service.py:86 | distinct user ids get distinct `user_<id>.bin` vault files |
| FingerprintService.FinishEnroll | src/core/fingerprint_service.py:89-121 | code 400 exactly when the service answers a status other than SUCCESS; empty data, non-byte data, an exception or an encryption error give 500; success writes only the user's vault file and returns `user_<id>.bin` |
| FingerprintService.EnrollFingerprint | src/core/fingerprint_service.py:78-121 | an invalid id gives 400 with nothing done; every failure is 400 or 500 with the vault unchanged; success names `user_<id>.bin` and writes it |
| FingerprintService.EnrollFingerprintAsWritten | src/core/fingerprint_service.py:89-121 | over the enrollment service as it stands, the vault is never written |
| FingerprintService.EnrollAsWrittenAlwaysFails | src/core/fingerprint_service.py:117-121 | as written, every valid enrollment request ends in code 500 (the default code) without touching the sensor or the vault |
| FingerprintService.EnrollFingerprintCodes | src/core/fingerprint_service.py:83-101 | 400 exactly when the id is invalid or enrollment does not end in SUCCESS; success exactly when, in addition, the template is a non-empty list of byte values |
| FingerprintService.EnrolledFileDecrypts | src/core/fingerprint_service.py:99-109 | with sound primitives, the file a successful enrollment writes decrypts to the sensor's template |
| FingerprintService.AuthenticateWithEncrypted | src/core/fingerprint_service.py:127-175 | authentication never writes the vault and fails only with 400, 404 or 500; with neither a user id nor a path, or with a malformed user id, it answers 400 before reading any file or touching the sensor |
| FingerprintService.UploadThenSearch | src/core/fingerprint_service.py:157-169 | an upload that raises or does not succeed ends the call (400 or 500) before any search; otherwise SUCCESS maps to `ok` with `matched_id`, NOT_FOUND to `not found`, anything else to `failed` |
| FingerprintService.UserIdWins | src/core/fingerprint_service.py:142-147 | when a user id is given, the file path argument plays no part |
| FingerprintService.AuthenticateNeedsTemplate | src/core/fingerprint_service.py:149-154 | a missing file gives 404 and an empty decryption gives 500, both with no sensor command issued |
| FingerprintService.UploadFailureSkipsSearch | src/core/fingerprint_service.py:160-161 | an upload answering other than SUCCESS gives 400 with no prompt emitted and no image or search issued |
| FingerprintService.EnrollThenAuthenticate | src/core/fingerprint_service.py:145-158 | authenticating a user just enrolled uploads exactly the enrolled template |
| FeaturesEnroll.SilentCapture | src/features/enroll.py:60-82 | the oldest capture emits nothing and succeeds exactly when the script's capture span exists |
| FeaturesEnroll.PollSilent | src/features/enroll.py:73-75 | a poll loop with no cue emits no event |
| FeaturesEnroll.CheckPrints | src/features/enroll.py:49-58 | one combine is issued; true exactly when it answers OK, so a mismatch is false like any other code |
| FeaturesEnroll.AwaitRemoval | src/features/enroll.py:22-25 | the removal wait only extends the run, changes no slot, template list or image, and with no cue emits nothing |
| FeaturesEnroll.AwaitBySpan | src/features/enroll.py:22-25 | the wait ends normally exactly when a NOFINGER comes before any exception; it then consumes the replies up to it and cues once per poll that still saw a finger |
| FeaturesEnroll.Enroll | src/features/enroll.py:13-31 | `_enroll` emits nothing, and true means the last command was a combine answered OK |
| FeaturesEnroll.EnrollFollowsScript | src/features/enroll.py:13-31 | `_enroll` is true exactly when the script holds a capture, a normal removal wait, a second capture and an OK combine, in that order |
| FeaturesEnroll.EnrollStopsAfterFirstCapture | src/features/enroll.py:18-27 | a failed first capture gives false with no command touching buffer 2 |
| FeaturesEnroll.GetRaw | src/features/enroll.py:84-92 | buffer 1 is read out, giving the sensor's template, only after a successful `_enroll`; otherwise the answer is False with nothing further issued |
| CoreEnroll.Enroll | src/core/enroll.py:22-39 | announces START then PLACE_FINGER first, ends in SUCCESS or FAIL, and SUCCESS means the last command was a combine answered OK |
| CoreEnroll.EnrollFollowsScript | src/core/enroll.py:22-50 | SUCCESS exactly under the oldest revision's script condition; a combine mismatch is FAIL like any other failure |
| CoreEnroll.EnrollStopsAfterFirstCapture | src/core/enroll.py:23-35 | a failed first capture gives FAIL after announcing only START and PLACE_FINGER, with no command touching buffer 2 |
| CoreEnroll.CheckTemplate | src/core/enroll.py:52-66 | the check returns a status or a slot; a slot is the first one free in the list it read, and nothing is announced on that path |
| CoreEnroll.CheckTemplateFalsy | src/core/enroll.py:52-69 | the check is falsy exactly when it returns slot 0: parameters and templates read OK, the count does not, and slot 0 is free |
| CoreEnroll.CountCheckInverted | src/core/enroll.py:59-61 | an OK count makes the check return FAIL, which is truthy, so the store goes ahead |
| CoreEnroll.AfterCheck | src/core/enroll.py:69-90 | a stored slot means the last command stored buffer 1 there with OK and SUCCESS was announced last; False means FAIL was announced last; otherwise STORAGE_FULL or LOCATION_OCCUPIED |
| CoreEnroll.EnrollAndStore | src/core/enroll.py:81-90 | the result is the slot, after an OK store and a final SUCCESS, or False after a final FAIL |
| CoreEnroll.StoreDefaultPicksFirstFree | src/core/enroll.py:70-75 | with the default location a successful store uses the smallest slot below the size missing from the templates list |
| CoreEnroll.StoreGuards | src/core/enroll.py:69-79 | a falsy check gives False after FAIL; no free slot gives STORAGE_FULL; an occupied chosen slot gives LOCATION_OCCUPIED; in each case nothing past the check is issued |
| CoreEnroll.GetRaw | src/core/enroll.py:92-98 | the answer is the sensor's template, only after SUCCESS was announced, or FAIL |
| CoreIdentify.Upload | src/core/identify.py:22-50 | the older upload returns FAIL on every path |
| CoreIdentify.PushAnnouncesSuccess | src/core/identify.py:36-44 | SUCCESS is announced exactly when the push answers OK and the conversion, store and re-read raise nothing, whatever codes they answer |
| CoreIdentify.PushIssues | src/core/identify.py:36-40 | `send_fpdata` is always issued; after a truthy answer come the buffer-2 conversion, the store of buffer 2 at the caller's slot and the re-read, in that order, each only while nothing has raised, with the log recording each reply |
| CoreIdentify.Searched | src/core/identify.py:57-66 | a match answers the finger id and announces SUCCESS only when `loc_id` exists; NOT_FOUND is announced exactly on a NOTFOUND reply; every other ending is FAIL with no announcement |
| CoreIdentify.UploadSlotChecks | src/core/identify.py:24-28 | an out-of-range slot is announced as FAIL before START and the upload goes on |
| CoreIdentify.UploadDeletesOccupied | src/core/identify.py:31-35 | a listed slot is announced as LOCATION_OCCUPIED and deleted right after the read |
| CoreIdentify.Authenticate | src/core/identify.py:52-69 | PLACE_FINGER comes first; the answer is FAIL unless the instance has a `loc_id` and the search matched |
| CoreIdentify.AuthenticateNotFound | src/core/identify.py:55-66 | NOT_FOUND is announced exactly when the capture succeeds and the search answers NOTFOUND; the answer is then FAIL, and the events are PLACE_FINGER followed by NOT_FOUND |
| CoreIdentify.AuthenticateSearches | src/core/identify.py:55-57 | the search is issued only after a successful capture, and it answers the reply that follows the capture's span of the script |
| CoreIdentify.FreshAuthenticateFails | src/core/identify.py:52-69 | on a fresh instance the answer is FAIL on every path and SUCCESS is never announced; a failed capture issues no search |
| FeaturesIdentify.Open | src/features/identify.py:13-16 | constructing the instance empties the library with one command and records no match |
| FeaturesIdentify.Caught | src/features/identify.py:32-35 | only TypeError is caught, answering False; other exceptions propagate |
| FeaturesIdentify.Upload | src/features/identify.py:18-35 | True means five commands were issued, the push answered OK and buffer 2 was stored at the caller's slot; no event is emitted |
| FeaturesIdentify.UploadTrueWhen | src/features/identify.py:23-31 | the upload is True exactly when the push answers OK and none of the five calls raises; the conversion and store codes play no part |
| FeaturesIdentify.Authenticate | src/features/identify.py:37-55 | True means the last command was a search answered OK and records the sensor's finger id; False leaves the recorded slot unchanged |
| FeaturesIdentify.AuthenticateFollowsScript | src/features/identify.py:37-55 | True exactly when the capture succeeds and the search reply after it is OK; NOTFOUND, other codes, a failed capture and exceptions all give False |

## Left out

- UART and serial setup, and the Adafruit driver internals: hardware I/O. The driver is the scripted reply queue of `Driver`.
- LED actuation (`config_led`), `close` and `__del__`: side effects only. The table lookup is modelled; the LED commands are not logged.
- Wall-clock time and `time.sleep`: each no-finger poll counts one time unit. The fixed sleep of `enroll_finger` between the captures issues nothing.
- PBKDF2, AES-GCM and `os.urandom`: opaque functions in `Vault.Crypto` plus the correctness axiom `Vault.Sound`. The random salt and nonce are parameters.
- File reads and writes: the vault is a map from paths to bytes. Directory creation and write errors are not modelled.
- asyncio, `to_thread` and the async context manager: concurrency plumbing.
- `check_sensor` and `reset_sensor`: thin wrappers over `get_sensor_info` and `clear_library`, which are modelled.
- Logging, the CLI, menus and settings loading: I/O and configuration. Only the LED table is copied, as constant data.
- FingerprintService.FinishEnroll: the 400 message is "Enrollment failed" without the service's message appended. Only the code is stated.
- FeaturesEnroll.AwaitRemoval: does not model a removal wait that never ends. The loops at src/features/enroll.py:23-25 and src/core/enroll.py:30-33 have no timeout and spin while the finger stays on the sensor, but the finite reply script ends every modelled wait, at a NOFINGER or with an exception once the script runs out.
- SensorService.SensorInfo: does not model the `templates or []` fallback for a missing list, because the abstract driver always holds a list.
- Ordinary `SensorStatus` values stand for the `IdentifyStatus` values of `src/core/identify.py`. Status events are `Status.Notice`, which adds the `START` that the older revisions announce. Neither `START` nor `IdentifyStatus` exists in the current `src/core/status.py`.
- The `_capture` of `src/core/enroll.py` and `src/core/identify.py` is not defined anywhere in the repository. It is modelled as the silent capture of `src/features/enroll.py`.
- `src/core/fingerprint_service.py` imports `Encrypt` from `src.utils.encrypt`. The class modelled is the one in `src/security/encrypt.py`.
- `send_fpdata` is taken to be truthy exactly when the driver answers OK. `get_fpdata` returns the sensor's image bytes.
- The `hasattr(self._sensor, "read_templates")` guards are always true for the driver, so the read is always issued.
- `read_sysparam` and `count_templates` leave the sensor unchanged in the model. The library size is fixed.
- AES-GCM's rejection of a nonce of the wrong length is folded into the abstract `open`, which may fail on any input.
- The text of log and status messages is kept only where a response returns it.

## Findings

| source | as written | input that shows it | evidently intended | confidence | as-written member | corrected member |
|---|---|---|---|---|---|---|
| src/core/enroll_service.py:43 | `self.send(SensorStatus.PLACE_FINGER, message=...)` calls `send(status, msg="")` with a keyword it does not accept. The handler at :71 does the same, so the TypeError escapes. Every enrollment fails before touching the sensor, and the façade answers 500. | any call of `enroll_finger()` | `send` returns `response(status, message=..., data=...)` after emitting the status, so enrollment ends in SUCCESS, ENROLLMISMATCH or FAIL as the sensor dictates | not executed | EnrollService.EnrollFingerAsWritten | EnrollService.EnrollFinger |
