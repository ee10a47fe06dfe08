/**
 * Two-capture enrollment: capture into buffer 1, prompt removal, capture the
 * same finger into buffer 2, combine the buffers into one model and hand
 * back the model's bytes.
 */
module EnrollService {
  import opened Wrappers
  import opened Driver
  import opened Status
  import opened SensorService

  /**
   * A call `send(status, message=text[, data=...])` whose value is returned,
   * read as intended: emit `status` and return the response it describes.
   */
  function Send(r: Run<SensorStatus>, s: SensorStatus, text: string, data: Option<seq<int>>): (out: Reported)
    ensures out.run == Emit(r, s)
    ensures "status" in out.response && "message" in out.response
    ensures out.response["status"] == StatusV(s) && out.response["message"] == Text(text)
    ensures data.Some? <==> "data" in out.response
    ensures data.Some? ==> out.response["data"] == Ints(data.value)
  {
    var kwargs := map["message" := Text(text)];
    var kwargs := if data.Some? then kwargs["data" := Ints(data.value)] else kwargs;
    Reported(Respond(Some(s), [], kwargs).value, Emit(r, s))
  }

  /**
   * `out` ends a workflow begun at `r`: it extends `r`'s log and events,
   * its response carries one of the three enrollment outcomes, and the last
   * event emitted is that outcome.
   */
  ghost predicate Concludes(r: Run<SensorStatus>, out: Reported) {
    && Extends(r, out.run)
    && (StatusOf(out.response) == StatusV(Success) || StatusOf(out.response) == StatusV(EnrollMismatch) || StatusOf(out.response) == StatusV(Fail))
    && |out.run.events| > |r.events|
    && StatusV(out.run.events[|out.run.events| - 1]) == StatusOf(out.response)
  }

  /**
   * `enroll_finger()`, with each returning `send` read as returning the
   * response for its status (see EnrollFingerAsWritten for the code as it
   * stands). The removal step is a fixed wait that issues nothing.
   */
  function EnrollFinger(r: Run<SensorStatus>, timeout: nat): (out: Reported)
    ensures Concludes(r, out)
    ensures |out.run.events| >= |r.events| + 2 && out.run.events[|r.events|] == PlaceFinger
  {
    var r1 := Emit(r, PlaceFinger);
    match Capture(r1, timeout, 1, Some(PlaceFinger))
    case Threw(_, r2) => Send(r2, Fail, "Unexpected error", None)
    case Done(false, r2) => Send(r2, Fail, "Failed to read first image", None)
    case Done(true, r2) => SecondCapture(r2, timeout)
  }

  /** Steps 2 and 3: prompt removal, wait, prompt the same finger and capture it into buffer 2. */
  function SecondCapture(r: Run<SensorStatus>, timeout: nat): (out: Reported)
    ensures Concludes(r, out)
  {
    var r1 := Emit(Emit(r, RemoveFinger), PlaceSameFinger);
    match Capture(r1, timeout, 2, Some(PlaceFinger))
    case Threw(_, r2) => Send(r2, Fail, "Unexpected error", None)
    case Done(false, r2) => Send(r2, Fail, "Failed to read second image", None)
    case Done(true, r2) => Combine(Emit(r2, Processing))
  }

  /** Steps 4 and 5: combine the two buffers and act on the driver's answer. */
  function Combine(r: Run<SensorStatus>): (out: Reported)
    ensures Concludes(r, out)
    ensures |out.run.events| == |r.events| + 1
    ensures |out.run.log| > |r.log| && out.run.log[|r.log|] == Exchange(CreateModel, Nth(r.sensor.replies, 0))
    ensures StatusOf(out.response) == StatusV(Success) <==>
      Nth(r.sensor.replies, 0) == Code(OK) && Nth(r.sensor.replies, 1).Code?
    ensures StatusOf(out.response) == StatusV(EnrollMismatch) <==>
      Nth(r.sensor.replies, 0) == Code(ENROLLMISMATCH)
    ensures StatusOf(out.response) == StatusV(Success) ==>
      && out.run.log == r.log + [Exchange(CreateModel, Code(OK)), Exchange(GetFpData(1), Nth(r.sensor.replies, 1))]
      && "data" in out.response && out.response["data"] == Ints(r.sensor.image)
    ensures StatusOf(out.response) != StatusV(Success) && Nth(r.sensor.replies, 0) != Code(OK) ==>
      out.run.log == r.log + [Exchange(CreateModel, Nth(r.sensor.replies, 0))]
  {
    var a := Issue(r, CreateModel);
    match a.reply
    case Raise(_) => Send(a.run, Fail, "Unexpected error", None)
    case Code(OK) =>
      var g := Issue(a.run, GetFpData(1));
      if g.reply.Raise? then Send(g.run, Fail, "Unexpected error", None)
      else Send(g.run, Success, "Enrollment successful", Some(g.run.sensor.image))
    case Code(ENROLLMISMATCH) => Send(a.run, EnrollMismatch, "Fingerprints not matched", None)
    case Code(_) => Send(a.run, Fail, "Model creation failed", None)
  }

  /**
   * `send` as declared, `send(status, msg="")`: it accepts only `msg`, so a
   * call with any other keyword raises TypeError before it emits anything;
   * otherwise it emits the status and returns None.
   */
  function SendAsDeclared(r: Run<SensorStatus>, s: SensorStatus, keywords: set<string>): (st: Step<Value, SensorStatus>)
    ensures st.Done? <==> keywords <= {"msg"}
    ensures st.Done? ==> st == Done(NoneV, Emit(r, s))
    ensures st.Threw? ==> st == Threw(TypeError, r)
  {
    if keywords <= {"msg"} then Done(NoneV, Emit(r, s)) else Threw(TypeError, r)
  }

  /**
   * `enroll_finger()` as the code stands: the opening prompt passes
   * `message=`, which `send` rejects, and the handler's own `send(...,
   * message=...)` raises again, so the TypeError escapes before any status
   * is emitted or any sensor command issued.
   */
  function EnrollFingerAsWritten(r: Run<SensorStatus>, timeout: nat): (st: Step<Value, SensorStatus>)
    ensures st == Threw(TypeError, r)
  {
    match SendAsDeclared(r, PlaceFinger, {"message"})
    // the `except Exception` handler: its own send passes `message=` too
    case Threw(_, r1) => SendAsDeclared(r1, Fail, {"message"})
    // the remainder of the body is never reached
    case Done(_, r1) => assert false; Threw(TypeError, r1)
  }

  /** The combine outcome read off the script: the combine reply, then the read-out's. */
  function CombineVerdict(rs: seq<Reply>): SensorStatus {
    if Nth(rs, 0) == Code(OK) && Nth(rs, 1).Code? then Success
    else if Nth(rs, 0) == Code(ENROLLMISMATCH) then EnrollMismatch
    else Fail
  }

  /** The outcome from the second capture on, read off the script. */
  function SecondVerdict(rs: seq<Reply>, timeout: nat): SensorStatus {
    match CaptureSpan(rs, timeout)
    case None => Fail
    case Some(n) => CombineVerdict(rs[n..])
  }

  /**
   * The enrollment outcome read off the script alone: two captures in turn,
   * each within the budget, then the combine reply; a combine that succeeds
   * still needs the template read-out not to raise.
   */
  function EnrollVerdict(rs: seq<Reply>, timeout: nat): SensorStatus {
    match CaptureSpan(rs, timeout)
    case None => Fail
    case Some(n) => SecondVerdict(rs[n..], timeout)
  }

  /** The second half of enrollment follows the script. */
  lemma SecondCaptureFollowsScript(r: Run<SensorStatus>, timeout: nat)
    ensures StatusOf(SecondCapture(r, timeout).response) == StatusV(SecondVerdict(r.sensor.replies, timeout))
  {
    var r1 := Emit(Emit(r, RemoveFinger), PlaceSameFinger);
    CaptureBySpan(r1, timeout, 2, Some(PlaceFinger));
    var c := Capture(r1, timeout, 2, Some(PlaceFinger));
    if c.Done? && c.value {
      CapturedShape(r1, timeout, 2, Some(PlaceFinger));
    }
  }

  /**
   * Enrollment ends in SUCCESS, ENROLLMISMATCH or FAIL exactly as the script
   * dictates: a mismatch is reported as such, distinct from FAIL, and every
   * other combine code, every failed capture and every exception gives FAIL.
   */
  lemma EnrollFollowsScript(r: Run<SensorStatus>, timeout: nat)
    ensures StatusOf(EnrollFinger(r, timeout).response) == StatusV(EnrollVerdict(r.sensor.replies, timeout))
  {
    var r1 := Emit(r, PlaceFinger);
    CaptureBySpan(r1, timeout, 1, Some(PlaceFinger));
    var c := Capture(r1, timeout, 1, Some(PlaceFinger));
    if c.Done? && c.value {
      CapturedShape(r1, timeout, 1, Some(PlaceFinger));
      SecondCaptureFollowsScript(c.run, timeout);
    }
  }

  /**
   * A first capture that fails ends enrollment in FAIL at once: only image
   * polls and conversions into buffer 1 are issued, so neither a second
   * capture nor a combine is attempted.
   */
  lemma EnrollStopsAfterFirstCapture(r: Run<SensorStatus>, timeout: nat)
    requires CaptureSpan(r.sensor.replies, timeout).None?
    ensures var out := EnrollFinger(r, timeout);
      && StatusOf(out.response) == StatusV(Fail)
      && forall i :: |r.log| <= i < |out.run.log| ==> (out.run.log[i].cmd == GetImage || out.run.log[i].cmd == Image2Tz(1))
  {
    var r1 := Emit(r, PlaceFinger);
    CaptureBySpan(r1, timeout, 1, Some(PlaceFinger));
    PollCommands(r1, timeout, 0, 1, Some(PlaceFinger));
    var c := Capture(r1, timeout, 1, Some(PlaceFinger));
    assert EnrollFinger(r, timeout).run.log == c.run.log;
  }

  /**
   * A second capture that fails ends enrollment in FAIL without a combine:
   * only image polls and conversions into buffers 1 and 2 are issued.
   */
  lemma EnrollStopsAfterSecondCapture(r: Run<SensorStatus>, timeout: nat)
    requires CaptureSpan(r.sensor.replies, timeout).Some?
    requires CaptureSpan(r.sensor.replies[CaptureSpan(r.sensor.replies, timeout).value..], timeout).None?
    ensures var out := EnrollFinger(r, timeout);
      && StatusOf(out.response) == StatusV(Fail)
      && forall i :: |r.log| <= i < |out.run.log| ==> (out.run.log[i].cmd == GetImage || out.run.log[i].cmd == Image2Tz(1) || out.run.log[i].cmd == Image2Tz(2))
  {
    var rs := r.sensor.replies;
    var r1 := Emit(r, PlaceFinger);
    CaptureBySpan(r1, timeout, 1, Some(PlaceFinger));
    CapturedShape(r1, timeout, 1, Some(PlaceFinger));
    var c1 := Capture(r1, timeout, 1, Some(PlaceFinger));
    var r3 := Emit(Emit(c1.run, RemoveFinger), PlaceSameFinger);
    CaptureBySpan(r3, timeout, 2, Some(PlaceFinger));
    PollCommands(r1, timeout, 0, 1, Some(PlaceFinger));
    PollCommands(r3, timeout, 0, 2, Some(PlaceFinger));
    var out := EnrollFinger(r, timeout);
    var c2 := Capture(r3, timeout, 2, Some(PlaceFinger));
    assert out.run.log == c2.run.log;
    forall i | |r.log| <= i < |out.run.log|
      ensures out.run.log[i].cmd == GetImage || out.run.log[i].cmd == Image2Tz(1) || out.run.log[i].cmd == Image2Tz(2)
    {
      if i < |c1.run.log| {
        assert c2.run.log[..|c1.run.log|] == c1.run.log;
        assert out.run.log[i] == c1.run.log[i];
      } else {
        assert |r3.log| <= i < |c2.run.log|;
      }
    }
  }

  /** A capture that leads to success: it succeeds, consuming, logging and cueing as its span says. */
  lemma CapturedForSuccess(r: Run<SensorStatus>, timeout: nat, buffer: int)
    requires Capture(r, timeout, buffer, Some(PlaceFinger)).Done? && Capture(r, timeout, buffer, Some(PlaceFinger)).value
    ensures var c := Capture(r, timeout, buffer, Some(PlaceFinger));
      var k := Leading(r.sensor.replies);
      && k + 2 <= |r.sensor.replies|
      && c.run.sensor.replies == r.sensor.replies[k + 2..]
      && c.run.sensor.image == r.sensor.image
      && c.run.log == r.log + CapturedLog(k, buffer)
      && c.run.events == r.events + Repeat(PlaceFinger, k)
  {
    CapturedShape(r, timeout, buffer, Some(PlaceFinger));
  }

  /** A successful second half: its capture into buffer 2, the combine and the read-out, nothing else. */
  lemma SecondCaptureTrace(r: Run<SensorStatus>, timeout: nat)
    requires StatusOf(SecondCapture(r, timeout).response) == StatusV(Success)
    ensures var out := SecondCapture(r, timeout);
      var rs := r.sensor.replies;
      var k := Leading(rs);
      && k + 3 < |rs|
      && out.run.log == r.log + CapturedLog(k, 2)
           + [Exchange(CreateModel, Code(OK)), Exchange(GetFpData(1), Nth(rs, k + 3))]
      && out.run.events == r.events + [RemoveFinger, PlaceSameFinger] + Repeat(PlaceFinger, k) + [Processing, Success]
      && "data" in out.response && out.response["data"] == Ints(r.sensor.image)
  {
    var rs := r.sensor.replies;
    var r1 := Emit(Emit(r, RemoveFinger), PlaceSameFinger);
    var c := Capture(r1, timeout, 2, Some(PlaceFinger));
    assert c.Done? && c.value;
    CapturedForSuccess(r1, timeout, 2);
    var k := Leading(rs);
    var r2 := Emit(c.run, Processing);
    var out := Combine(r2);
    assert SecondCapture(r, timeout) == out;
    assert r2.sensor.replies == rs[k + 2..];
    assert Nth(r2.sensor.replies, 0) == Code(OK);
    assert Nth(r2.sensor.replies, 1) == Nth(rs, k + 3) by {
      NthSuffix(rs, k + 2, 1);
    }
    assert r2.events == r.events + [RemoveFinger, PlaceSameFinger] + Repeat(PlaceFinger, k) + [Processing];
    assert out.run.events == r2.events + [Success] by {
      assert out.run.events[..|r2.events|] == r2.events;
    }
  }

  /** A successful enrollment got past its first capture, and the rest of it is the second half. */
  lemma FirstCaptureForSuccess(r: Run<SensorStatus>, timeout: nat)
    requires StatusOf(EnrollFinger(r, timeout).response) == StatusV(Success)
    ensures var c := Capture(Emit(r, PlaceFinger), timeout, 1, Some(PlaceFinger));
      var k := Leading(r.sensor.replies);
      && c.Done? && c.value
      && EnrollFinger(r, timeout) == SecondCapture(c.run, timeout)
      && k + 2 <= |r.sensor.replies|
      && c.run.sensor.replies == r.sensor.replies[k + 2..]
      && c.run.sensor.image == r.sensor.image
      && c.run.log == r.log + CapturedLog(k, 1)
      && c.run.events == r.events + [PlaceFinger] + Repeat(PlaceFinger, k)
  {
    var r1 := Emit(r, PlaceFinger);
    var c := Capture(r1, timeout, 1, Some(PlaceFinger));
    assert c.Done? && c.value;
    CapturedForSuccess(r1, timeout, 1);
  }

  /**
   * A successful enrollment, exactly, for the script's two capture spans
   * `k1 + 2` and `k2 + 2` (`k1`, `k2` the empty polls of each capture):
   * the first capture's empty polls, its image and conversion into buffer
   * 1, then (with no command in between, the removal being a plain wait)
   * the second capture into buffer 2, the combine and the read-out of
   * buffer 1; the events are PLACE_FINGER, one PLACE_FINGER per empty poll,
   * REMOVE_FINGER, PLACE_SAME_FINGER, the second capture's prompts,
   * PROCESSING and SUCCESS; the data returned is the sensor's template.
   * (Success implies both spans exist: see EnrollFollowsScript.)
   */
  lemma EnrollSuccessTrace(r: Run<SensorStatus>, timeout: nat, k1: nat, k2: nat)
    requires StatusOf(EnrollFinger(r, timeout).response) == StatusV(Success)
    requires CaptureSpan(r.sensor.replies, timeout) == Some(k1 + 2)
    requires CaptureSpan(r.sensor.replies[k1 + 2..], timeout) == Some(k2 + 2)
    ensures var out := EnrollFinger(r, timeout);
      "data" in out.response && out.response["data"] == Ints(r.sensor.image)
    ensures k1 + k2 + 5 < |r.sensor.replies|
    ensures EnrollFinger(r, timeout).run.log == r.log + CapturedLog(k1, 1) + CapturedLog(k2, 2)
      + [Exchange(CreateModel, Code(OK)), Exchange(GetFpData(1), Nth(r.sensor.replies, k1 + k2 + 5))]
    ensures EnrollFinger(r, timeout).run.events == r.events + [PlaceFinger] + Repeat(PlaceFinger, k1)
      + [RemoveFinger, PlaceSameFinger] + Repeat(PlaceFinger, k2) + [Processing, Success]
  {
    EnrollSuccessData(r, timeout);
    EnrollSuccessLog(r, timeout, k1, k2);
    EnrollSuccessEvents(r, timeout, k1, k2);
  }

  /** A successful enrollment hands back the sensor's template. */
  lemma EnrollSuccessData(r: Run<SensorStatus>, timeout: nat)
    requires StatusOf(EnrollFinger(r, timeout).response) == StatusV(Success)
    ensures var out := EnrollFinger(r, timeout);
      "data" in out.response && out.response["data"] == Ints(r.sensor.image)
  {
    FirstCaptureForSuccess(r, timeout);
    SecondCaptureTrace(Capture(Emit(r, PlaceFinger), timeout, 1, Some(PlaceFinger)).run, timeout);
  }

  /** The command log of a successful enrollment. */
  lemma EnrollSuccessLog(r: Run<SensorStatus>, timeout: nat, k1: nat, k2: nat)
    requires StatusOf(EnrollFinger(r, timeout).response) == StatusV(Success)
    requires CaptureSpan(r.sensor.replies, timeout) == Some(k1 + 2)
    requires CaptureSpan(r.sensor.replies[k1 + 2..], timeout) == Some(k2 + 2)
    ensures k1 + k2 + 5 < |r.sensor.replies|
    ensures EnrollFinger(r, timeout).run.log == r.log + CapturedLog(k1, 1) + CapturedLog(k2, 2)
      + [Exchange(CreateModel, Code(OK)), Exchange(GetFpData(1), Nth(r.sensor.replies, k1 + k2 + 5))]
  {
    FirstCaptureForSuccess(r, timeout);
    assert k1 == Leading(r.sensor.replies);
    var c := Capture(Emit(r, PlaceFinger), timeout, 1, Some(PlaceFinger));
    SecondCaptureLogAt(c.run, timeout, r.sensor.replies, k1, k2);
  }

  /** The second half's log, for a second half that starts `k1 + 2` replies into the script `rs`. */
  lemma SecondCaptureLogAt(r: Run<SensorStatus>, timeout: nat, rs: seq<Reply>, k1: nat, k2: nat)
    requires StatusOf(SecondCapture(r, timeout).response) == StatusV(Success)
    requires k1 + 2 <= |rs| && r.sensor.replies == rs[k1 + 2..]
    requires CaptureSpan(r.sensor.replies, timeout) == Some(k2 + 2)
    ensures k1 + k2 + 5 < |rs|
    ensures SecondCapture(r, timeout).run.log == r.log + CapturedLog(k2, 2)
      + [Exchange(CreateModel, Code(OK)), Exchange(GetFpData(1), Nth(rs, k1 + k2 + 5))]
  {
    SecondCaptureTrace(r, timeout);
    assert Leading(r.sensor.replies) == k2;
    NthSuffix(rs, k1 + 2, k2 + 3);
  }

  /** The events of a successful enrollment. */
  lemma EnrollSuccessEvents(r: Run<SensorStatus>, timeout: nat, k1: nat, k2: nat)
    requires StatusOf(EnrollFinger(r, timeout).response) == StatusV(Success)
    requires CaptureSpan(r.sensor.replies, timeout) == Some(k1 + 2)
    requires CaptureSpan(r.sensor.replies[k1 + 2..], timeout) == Some(k2 + 2)
    ensures EnrollFinger(r, timeout).run.events == r.events + [PlaceFinger] + Repeat(PlaceFinger, k1)
      + [RemoveFinger, PlaceSameFinger] + Repeat(PlaceFinger, k2) + [Processing, Success]
  {
    FirstCaptureForSuccess(r, timeout);
    var c := Capture(Emit(r, PlaceFinger), timeout, 1, Some(PlaceFinger));
    SecondCaptureTrace(c.run, timeout);
    assert Leading(c.run.sensor.replies) == k2;
  }
}
