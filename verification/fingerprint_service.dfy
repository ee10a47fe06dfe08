/**
 * The façade the API calls: validate the user id, enroll a finger and keep
 * its template encrypted in the vault, and authenticate a live finger
 * against a template read back from the vault. Every failure is a
 * `FingerprintError` carrying an HTTP-style code.
 */
module FingerprintService {
  import opened Wrappers
  import opened Driver
  import opened Status
  import opened SensorService
  import opened EnrollService
  import opened IdentifyService
  import opened Vault

  /** `FingerprintError(message, code=500)`. */
  datatype FpError = FpError(message: string, code: int)

  function Failure(message: string, code: int := 500): FpError {
    FpError(message, code)
  }

  /** A façade result together with the sensor run and the vault after the call. */
  datatype Served<T> = Served(result: Result<T, FpError>, run: Run<SensorStatus>, files: Files)

  /** A character of the class `[a-zA-Z0-9_\-]`. */
  predicate IdChar(ch: char) {
    ('a' <= ch <= 'z') || ('A' <= ch <= 'Z') || ('0' <= ch <= '9') || ch == '_' || ch == '-'
  }

  predicate IdChars(w: string) {
    forall i :: 0 <= i < |w| ==> IdChar(w[i])
  }

  /**
   * `USER_ID_RE.match(s)` for `^[a-zA-Z0-9_\-]+$`: in Python `$` also
   * matches just before a final newline, so that newline is dropped before
   * the class is checked.
   */
  predicate ValidUserId(s: string) {
    var stem := if |s| > 0 && s[|s| - 1] == '\n' then s[..|s| - 1] else s;
    |stem| > 0 && IdChars(stem)
  }

  /**
   * The ids the pattern accepts are exactly the non-empty words over the
   * class, each optionally followed by one newline.
   */
  lemma ValidUserIdMeans(s: string)
    ensures ValidUserId(s) <==> exists w :: |w| > 0 && IdChars(w) && (s == w || s == w + "\n")
  {
    if ValidUserId(s) {
      var w := if s[|s| - 1] == '\n' then s[..|s| - 1] else s;
      assert s == w || s == w + "\n";
    }
    if w :| |w| > 0 && IdChars(w) && (s == w || s == w + "\n") {
      if s == w {
        assert !IdChar(w[|w| - 1]) ==> false;
      } else {
        assert s[..|s| - 1] == w;
      }
    }
  }

  /** The vault file of a user: `ENCRYPTED_PATH / f"user_{user_id}.bin"`. */
  function FileName(id: string): string {
    "user_" + id + ".bin"
  }

  function VaultPath(dir: string, id: string): string {
    dir + "/" + FileName(id)
  }

  /** Distinct users get distinct vault files, so enrollment and authentication agree on a user's file. */
  lemma VaultPathInjective(dir: string, a: string, b: string)
    requires VaultPath(dir, a) == VaultPath(dir, b)
    ensures a == b
  {
    var p := VaultPath(dir, a);
    assert |a| == |b|;
    assert a == p[|dir| + 6..|p| - 4];
    assert b == VaultPath(dir, b)[|dir| + 6..|p| - 4];
  }

  /** Python truthiness of a response value. */
  predicate TruthyValue(v: Value) {
    match v
    case StatusV(_) => true
    case Text(t) => |t| > 0
    case Int(n) => n != 0
    case Ints(xs) => |xs| > 0
    case NoneV => false
  }

  /** `result.get(key)`. */
  function Get(resp: Response, key: string): Value {
    if key in resp then resp[key] else NoneV
  }

  /** The body of `enroll_fingerprint` that returns. */
  datatype Enrolled = Enrolled(userId: string, encryptedPath: string)

  /**
   * `enroll_fingerprint` from the point where the enrollment service has
   * answered `result` (or raised): check the status, take the data, write
   * it encrypted to the user's vault file. An exception becomes code 500.
   */
  function FinishEnroll(result: Result<Response, Exc>, r: Run<SensorStatus>, c: Crypto, files: Files, dir: string,
                        id: string, password: string, salt: Salt, nonce: Nonce): (out: Served<Enrolled>)
    ensures out.run == r
    ensures out.result.Err? ==> (out.result.error.code == 400 || out.result.error.code == 500)
    ensures out.result.Err? ==> out.files == files
    ensures out.result.Err? && out.result.error.code == 400 <==>
      result.Ok? && StatusOf(result.value) != StatusV(Success)
    ensures result.Ok? && StatusOf(result.value) == StatusV(Success) ==>
      (out.result.Ok? <==> var data := Get(result.value, "data"); data.Ints? && |data.ints| > 0 && ByteValues(data.ints))
    ensures out.result.Ok? ==>
      && out.result.value == Enrolled(id, FileName(id))
      && result.Ok? && Get(result.value, "data").Ints?
      && VaultPath(dir, id) in out.files
      && out.files == files[VaultPath(dir, id) := out.files[VaultPath(dir, id)]]
  {
    match result
    case Err(_) => Served(Err(Failure("Internal server error during enrollment")), r, files)
    case Ok(resp) =>
      if StatusOf(resp) != StatusV(Success) then
        Served(Err(Failure("Enrollment failed", 400)), r, files)
      else
        var data := Get(resp, "data");
        if !TruthyValue(data) then
          Served(Err(Failure("No fingerprint data returned from sensor", 500)), r, files)
        else if !data.Ints? || !ByteValues(data.ints) then
          // `bytes(fingerprint_data)` raises; the generic handler answers 500
          Served(Err(Failure("Internal server error during enrollment")), r, files)
        else
          match EncryptToFile(c, files, VaultPath(dir, id), Raw(FromInts(data.ints)), password, salt, nonce)
          case Err(_) => Served(Err(Failure("Internal server error during enrollment")), r, files)
          case Ok((_, files')) => Served(Ok(Enrolled(id, FileName(id))), r, files')
  }

  /**
   * `enroll_fingerprint(user_id)` over the enrollment service read as
   * intended. The salt and nonce are the random draws of this call.
   */
  function EnrollFingerprint(r: Run<SensorStatus>, timeout: nat, c: Crypto, files: Files, dir: string,
                             id: string, password: string, salt: Salt, nonce: Nonce): (out: Served<Enrolled>)
    ensures !ValidUserId(id) ==> out == Served(Err(Failure("Invalid user_id format", 400)), r, files)
    ensures out.result.Err? ==> (out.result.error.code == 400 || out.result.error.code == 500) && out.files == files
    ensures out.result.Ok? ==> out.result.value.encryptedPath == FileName(id) && VaultPath(dir, id) in out.files
  {
    if !ValidUserId(id) then Served(Err(Failure("Invalid user_id format", 400)), r, files)
    else
      var e := EnrollFinger(r, timeout);
      FinishEnroll(Ok(e.response), e.run, c, files, dir, id, password, salt, nonce)
  }

  /** `enroll_fingerprint(user_id)` over the enrollment service as it stands. */
  function EnrollFingerprintAsWritten(r: Run<SensorStatus>, timeout: nat, c: Crypto, files: Files, dir: string,
                                      id: string, password: string, salt: Salt, nonce: Nonce): (out: Served<Enrolled>)
    ensures out.files == files
  {
    if !ValidUserId(id) then Served(Err(Failure("Invalid user_id format", 400)), r, files)
    else
      var st := EnrollFingerAsWritten(r, timeout);
      FinishEnroll(Err(st.exc), st.run, c, files, dir, id, password, salt, nonce)
  }

  /**
   * As the code stands every valid enrollment request fails with code 500
   * without touching the sensor or the vault, because the enrollment
   * service raises TypeError on its first `send`.
   */
  lemma EnrollAsWrittenAlwaysFails(r: Run<SensorStatus>, timeout: nat, c: Crypto, files: Files, dir: string,
                                   id: string, password: string, salt: Salt, nonce: Nonce)
    requires ValidUserId(id)
    ensures EnrollFingerprintAsWritten(r, timeout, c, files, dir, id, password, salt, nonce)
         == Served(Err(Failure("Internal server error during enrollment", 500)), r, files)
  {
  }

  /**
   * Enrollment's error codes: 400 exactly when the id is invalid or the
   * enrollment outcome read off the script is not SUCCESS; otherwise the
   * call succeeds exactly when the sensor's template is a non-empty list of
   * byte values, and fails with 500 when it is not.
   */
  lemma EnrollFingerprintCodes(r: Run<SensorStatus>, timeout: nat, c: Crypto, files: Files, dir: string,
                               id: string, password: string, salt: Salt, nonce: Nonce)
    ensures var out := EnrollFingerprint(r, timeout, c, files, dir, id, password, salt, nonce);
      var success := ValidUserId(id) && EnrollVerdict(r.sensor.replies, timeout) == Success;
      && (out.result.Err? && out.result.error.code == 400 <==> !success)
      && (out.result.Ok? <==> success && |r.sensor.image| > 0 && ByteValues(r.sensor.image))
  {
    if ValidUserId(id) {
      var e := EnrollFinger(r, timeout);
      var out := EnrollFingerprint(r, timeout, c, files, dir, id, password, salt, nonce);
      assert out == FinishEnroll(Ok(e.response), e.run, c, files, dir, id, password, salt, nonce);
      EnrollFollowsScript(r, timeout);
      if EnrollVerdict(r.sensor.replies, timeout) == Success {
        EnrollSuccessData(r, timeout);
        assert Get(e.response, "data") == Ints(r.sensor.image);
      }
    }
  }

  /**
   * A successful enrollment leaves in the user's vault file a frame that,
   * with sound primitives and the same password, decrypts to the sensor's
   * template.
   */
  lemma EnrolledFileDecrypts(r: Run<SensorStatus>, timeout: nat, c: Crypto, files: Files, dir: string,
                             id: string, password: string, salt: Salt, nonce: Nonce)
    requires Sound(c)
    requires EnrollFingerprint(r, timeout, c, files, dir, id, password, salt, nonce).result.Ok?
    ensures var out := EnrollFingerprint(r, timeout, c, files, dir, id, password, salt, nonce);
      DecryptFromFile(c, out.files, VaultPath(dir, id), password) == Ok(r.sensor.image)
  {
    EnrollFollowsScript(r, timeout);
    EnrollSuccessData(r, timeout);
    var image := r.sensor.image;
    var bytes := FromInts(image);
    VaultRoundTrip(c, files, VaultPath(dir, id), Raw(bytes), password, salt, nonce);
    IntsRoundTrip(bytes, image);
  }

  /** What `authenticate_with_encrypted` returns. */
  datatype AuthOutcome =
    | Matched(matchedId: Value)   // {"status": "ok", "matched_id": ...}
    | NoMatch                     // {"status": "not found"}
    | Failed(reason: Value)       // {"status": "failed", "reason": ...}

  /** A truthy optional string: present and non-empty. */
  predicate Given(s: Option<string>) {
    s.Some? && |s.value| > 0
  }

  /**
   * `authenticate_with_encrypted(user_id, file_path)`: locate and decrypt
   * the template, upload it into a free slot, then search the library with
   * a live finger.
   */
  function AuthenticateWithEncrypted(r: Run<SensorStatus>, timeout: nat, c: Crypto, files: Files, dir: string,
                                     userId: Option<string>, filePath: Option<string>, password: string)
    : (out: Served<AuthOutcome>)
    ensures out.files == files
    ensures out.result.Err? ==> (out.result.error.code == 400 || out.result.error.code == 404 || out.result.error.code == 500)
    ensures !Given(userId) && !Given(filePath) ==> out == Served(Err(Failure("Provide either user_id or file_path", 400)), r, files)
    ensures Given(userId) && !ValidUserId(userId.value) ==> out == Served(Err(Failure("Invalid user_id format", 400)), r, files)
  {
    if !(Given(userId) || Given(filePath)) then
      Served(Err(Failure("Provide either user_id or file_path", 400)), r, files)
    else if Given(userId) && !ValidUserId(userId.value) then
      Served(Err(Failure("Invalid user_id format", 400)), r, files)
    else
      var path := if Given(userId) then VaultPath(dir, userId.value) else filePath.value;
      if path !in files then
        Served(Err(Failure("Encrypted fingerprint file not found", 404)), r, files)
      else
        match DecryptFromFile(c, files, path, password)
        case Err(_) => Served(Err(Failure("Internal server error during authentication")), r, files)
        case Ok(data) =>
          if |data| == 0 then Served(Err(Failure("Decryption failed or file invalid", 500)), r, files)
          else UploadThenSearch(r, timeout, files, data)
  }

  /** The part of `authenticate_with_encrypted` that talks to the sensor. */
  function UploadThenSearch(r: Run<SensorStatus>, timeout: nat, files: Files, data: seq<int>): (out: Served<AuthOutcome>)
    ensures out.files == files
    ensures out.result.Err? ==> (out.result.error.code == 400 || out.result.error.code == 500)
    ensures var up := UploadToSensor(r, data);
      out.result.Err? <==> up.Threw? || StatusOf(up.value) != StatusV(Success)
    ensures var up := UploadToSensor(r, data);
      out.result.Err? ==> out.run == up.run
    ensures var up := UploadToSensor(r, data);
      out.result.Ok? ==>
        var a := Authenticate(up.run, timeout);
        && out.run == a.run
        && (out.result.value.Matched? <==> StatusOf(a.response) == StatusV(Success))
        && (out.result.value.NoMatch? <==> StatusOf(a.response) == StatusV(NotFound))
        && (out.result.value.Matched? ==> out.result.value.matchedId == Get(a.response, "loc_id"))
  {
    match UploadToSensor(r, data)
    case Threw(_, r1) => Served(Err(Failure("Internal server error during authentication")), r1, files)
    case Done(resp, r1) =>
      if StatusOf(resp) != StatusV(Success) then
        Served(Err(Failure("Failed to upload fingerprint", 400)), r1, files)
      else
        var a := Authenticate(r1, timeout);
        var outcome :=
          if StatusOf(a.response) == StatusV(Success) then Matched(Get(a.response, "loc_id"))
          else if StatusOf(a.response) == StatusV(NotFound) then NoMatch
          else Failed(Get(a.response, "message"));
        Served(Ok(outcome), a.run, files)
  }

  /** When both a user id and a path are given, the user id decides which file is read. */
  lemma UserIdWins(r: Run<SensorStatus>, timeout: nat, c: Crypto, files: Files, dir: string,
                   id: string, path: Option<string>, password: string)
    requires |id| > 0
    ensures AuthenticateWithEncrypted(r, timeout, c, files, dir, Some(id), path, password)
         == AuthenticateWithEncrypted(r, timeout, c, files, dir, Some(id), None, password)
  {
  }

  /**
   * Authentication touches the sensor only with a file that exists and
   * decrypts to a non-empty template: a missing file is 404 and an empty
   * template 500, in both cases with nothing issued and nothing emitted.
   */
  lemma AuthenticateNeedsTemplate(r: Run<SensorStatus>, timeout: nat, c: Crypto, files: Files, dir: string,
                                  userId: Option<string>, filePath: Option<string>, password: string)
    requires Given(userId) || Given(filePath)
    requires Given(userId) ==> ValidUserId(userId.value)
    ensures var path := if Given(userId) then VaultPath(dir, userId.value) else filePath.value;
      var out := AuthenticateWithEncrypted(r, timeout, c, files, dir, userId, filePath, password);
      && (path !in files ==> out.result == Err(Failure("Encrypted fingerprint file not found", 404)) && out.run == r)
      && (DecryptFromFile(c, files, path, password) == Ok([]) ==> out.result.Err? && out.result.error.code == 500 && out.run == r)
  {
  }

  /**
   * A failed upload ends authentication with code 400 before any live
   * capture: no prompt is emitted and no image is taken.
   */
  lemma UploadFailureSkipsSearch(r: Run<SensorStatus>, timeout: nat, files: Files, data: seq<int>)
    requires UploadToSensor(r, data).Done?
    requires StatusOf(UploadToSensor(r, data).value) != StatusV(Success)
    ensures var out := UploadThenSearch(r, timeout, files, data);
      && out.result == Err(Failure("Failed to upload fingerprint", 400))
      && out.run.events == r.events
      && forall i :: |r.log| <= i < |out.run.log| ==> out.run.log[i].cmd != GetImage && out.run.log[i].cmd != FingerSearch
  {
    UploadIsStaged(r, data);
    var out := UploadThenSearch(r, timeout, files, data);
    var issued := out.run.log[|r.log|..];
    forall i | |r.log| <= i < |out.run.log| ensures out.run.log[i].cmd != GetImage && out.run.log[i].cmd != FingerSearch {
      assert out.run.log[i] == issued[i - |r.log|];
    }
  }

  /**
   * Enrolling then authenticating the same user uploads exactly the
   * enrolled template: the vault hands the sensor's template back to the
   * upload step, and the outcome is then that of the upload and the search.
   */
  lemma EnrollThenAuthenticate(r: Run<SensorStatus>, r': Run<SensorStatus>, timeout: nat, c: Crypto, files: Files,
                               dir: string, id: string, password: string, salt: Salt, nonce: Nonce, path: Option<string>)
    requires Sound(c)
    requires EnrollFingerprint(r, timeout, c, files, dir, id, password, salt, nonce).result.Ok?
    ensures var files' := EnrollFingerprint(r, timeout, c, files, dir, id, password, salt, nonce).files;
      AuthenticateWithEncrypted(r', timeout, c, files', dir, Some(id), path, password)
        == UploadThenSearch(r', timeout, files', r.sensor.image)
  {
    EnrolledFileDecrypts(r, timeout, c, files, dir, id, password, salt, nonce);
    EnrollFingerprintCodes(r, timeout, c, files, dir, id, password, salt, nonce);
  }
}
