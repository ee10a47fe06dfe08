/**
 * Identification: upload an externally held template into the first free
 * library slot, and authenticate a live finger against the library.
 */
module IdentifyService {
  import opened Wrappers
  import opened Driver
  import opened Status
  import opened SensorService
  import opened Slots

  /**
   * The `except` handler of `upload_to_sensor`: its `response(FAIL, None)`
   * passes a second positional argument, so it raises TypeError itself.
   */
  function UploadHandler(r: Run<SensorStatus>): (st: Step<Response, SensorStatus>)
    ensures st == Threw(TypeError, r)
  {
    match Respond(Some(Fail), [NoneV], map[])
    case Err(e) => Threw(e, r)
    case Ok(resp) => Done(resp, r)
  }

  /** The driver's `templates` list once a ReadTemplates has been answered by `reply`. */
  function ViewAfterRead(s: Sensor, reply: Reply): seq<int> {
    Effect(s, ReadTemplates, reply).templates
  }

  /**
   * `upload_to_sensor(finger_data)`: re-read the library, pick the smallest
   * free slot, push the bytes, convert them in buffer 2 and store buffer 2
   * at the slot, stopping at the first step that fails. It emits no events.
   */
  function UploadToSensor(r: Run<SensorStatus>, data: seq<int>): (st: Step<Response, SensorStatus>)
    ensures st.run.events == r.events && r.log <= st.run.log
    ensures st.Threw? ==> st.exc == TypeError
    ensures st.Done? ==> (StatusOf(st.value) == StatusV(Success) || StatusOf(st.value) == StatusV(StorageFull) || StatusOf(st.value) == StatusV(Fail))
  {
    var a := Issue(r, ReadTemplates);
    if a.reply.Raise? then UploadHandler(a.run)
    else
      match FirstFree(a.run.sensor.templates, a.run.sensor.librarySize)
      case None => Done(Plain(StorageFull), a.run)
      case Some(loc) => Store(a.run, data, loc)
  }

  /** The staged store into slot `loc`: push the template bytes to the sensor. */
  function Store(r: Run<SensorStatus>, data: seq<int>, loc: int): (st: Step<Response, SensorStatus>)
    ensures st.run.events == r.events && r.log <= st.run.log
    ensures st.Threw? ==> st.exc == TypeError
    ensures st.Done? ==> (StatusOf(st.value) == StatusV(Success) || StatusOf(st.value) == StatusV(Fail))
    ensures st.Done? && StatusOf(st.value) == StatusV(Success) ==>
      && "loc_id" in st.value && st.value["loc_id"] == Int(loc)
      && loc in st.run.sensor.library
  {
    var b := Issue(r, SendFpData(data));
    if b.reply.Raise? then UploadHandler(b.run)
    else if b.reply != Code(OK) then Done(Plain(Fail), b.run)
    else Convert(b.run, loc)
  }

  /** Convert the pushed bytes into a template in buffer 2. */
  function Convert(r: Run<SensorStatus>, loc: int): (st: Step<Response, SensorStatus>)
    ensures st.run.events == r.events && r.log <= st.run.log
    ensures st.Threw? ==> st.exc == TypeError
    ensures st.Done? ==> (StatusOf(st.value) == StatusV(Success) || StatusOf(st.value) == StatusV(Fail))
    ensures st.Done? && StatusOf(st.value) == StatusV(Success) ==>
      && "loc_id" in st.value && st.value["loc_id"] == Int(loc)
      && loc in st.run.sensor.library
  {
    var c := Issue(r, Image2Tz(2));
    if c.reply.Raise? then UploadHandler(c.run)
    else if c.reply != Code(OK) then Done(Plain(Fail), c.run)
    else Commit(c.run, loc)
  }

  /** Store buffer 2 at slot `loc`. */
  function Commit(r: Run<SensorStatus>, loc: int): (st: Step<Response, SensorStatus>)
    ensures st.run.events == r.events && r.log <= st.run.log
    ensures st.Threw? ==> st.exc == TypeError
    ensures st.Done? ==> (StatusOf(st.value) == StatusV(Success) || StatusOf(st.value) == StatusV(Fail))
    ensures st.Done? && StatusOf(st.value) == StatusV(Success) ==>
      && "loc_id" in st.value && st.value["loc_id"] == Int(loc)
      && loc in st.run.sensor.library
  {
    var d := Issue(r, StoreModel(loc, 2));
    if d.reply.Raise? then UploadHandler(d.run)
    else if d.reply != Code(OK) then Done(Plain(Fail), d.run)
    else Reread(d.run, loc)
  }

  /** Refresh the driver's template list and report the slot. */
  function Reread(r: Run<SensorStatus>, loc: int): (st: Step<Response, SensorStatus>)
    ensures st.run.events == r.events
    ensures st.run.log == r.log + [Exchange(ReadTemplates, Nth(r.sensor.replies, 0))]
    ensures st.run.sensor.library == r.sensor.library
    ensures st.Threw? <==> Nth(r.sensor.replies, 0).Raise?
    ensures st.Threw? ==> st.exc == TypeError
    ensures st.Done? ==>
      && StatusOf(st.value) == StatusV(Success)
      && "loc_id" in st.value && st.value["loc_id"] == Int(loc)
  {
    var e := Issue(r, ReadTemplates);
    if e.reply.Raise? then UploadHandler(e.run)
    else Done(Respond(Some(Success), [], map["loc_id" := Int(loc)]).value, e.run)
  }

  /** The commands an upload into slot `loc` issues, in order, when every step succeeds. */
  function UploadPlan(data: seq<int>, loc: int): seq<Command> {
    [ReadTemplates, SendFpData(data), Image2Tz(2), StoreModel(loc, 2), ReadTemplates]
  }

  /** A step let the upload go on: a read that did not raise, or any other command answered OK. */
  predicate Passed(x: Exchange) {
    if x.cmd == ReadTemplates then x.reply.Code? else x.reply == Code(OK)
  }

  /**
   * `issued` follows `plan` and stops at its first failing step: it issues
   * a non-empty prefix of the plan's commands, and every step but the last
   * one issued passed.
   */
  predicate StagedBy(issued: seq<Exchange>, plan: seq<Command>) {
    && 1 <= |issued| <= |plan|
    && (forall i :: 0 <= i < |issued| ==> issued[i].cmd == plan[i])
    && (forall i :: 0 <= i < |issued| - 1 ==> Passed(issued[i]))
  }

  /** Putting one step in front of a staged trace that it let go on gives a staged trace. */
  lemma StagedCons(x: Exchange, rest: seq<Exchange>, c: Command, plan: seq<Command>)
    requires x.cmd == c && Passed(x) && StagedBy(rest, plan)
    ensures StagedBy([x] + rest, [c] + plan)
  {
    var issued := [x] + rest;
    forall i | 1 <= i < |issued| - 1 ensures Passed(issued[i]) {
      assert issued[i] == rest[i - 1];
    }
  }

  /** The trace a step issues: one exchange, followed when it passed by the next stage's trace. */
  lemma StageStep(r: Run<SensorStatus>, a: Answer<SensorStatus>, c: Command, plan: seq<Command>, out: Run<SensorStatus>)
    requires a == Issue(r, c) && a.run.log <= out.log
    requires Passed(Exchange(c, a.reply)) ==> StagedBy(out.log[|a.run.log|..], plan)
    requires !Passed(Exchange(c, a.reply)) ==> out.log == a.run.log
    ensures StagedBy(out.log[|r.log|..], [c] + plan)
  {
    var x := Exchange(c, a.reply);
    if Passed(x) {
      assert out.log[|r.log|..] == [x] + out.log[|a.run.log|..];
      StagedCons(x, out.log[|a.run.log|..], c, plan);
    } else {
      assert out.log[|r.log|..] == [x];
    }
  }

  /** Storing at `loc` issues the store and, only when it succeeded, the re-read. */
  lemma CommitIsStaged(r: Run<SensorStatus>, loc: int)
    ensures StagedBy(Commit(r, loc).run.log[|r.log|..], [StoreModel(loc, 2), ReadTemplates])
  {
    var d := Issue(r, StoreModel(loc, 2));
    var e := Reread(d.run, loc);
    assert e.run.log[|d.run.log|..] == [Exchange(ReadTemplates, Nth(d.run.sensor.replies, 0))];
    StageStep(r, d, StoreModel(loc, 2), [ReadTemplates], Commit(r, loc).run);
  }

  /** Converting issues the conversion and, only when it succeeded, the store stage. */
  lemma ConvertIsStaged(r: Run<SensorStatus>, loc: int)
    ensures StagedBy(Convert(r, loc).run.log[|r.log|..], [Image2Tz(2), StoreModel(loc, 2), ReadTemplates])
  {
    var c := Issue(r, Image2Tz(2));
    CommitIsStaged(c.run, loc);
    StageStep(r, c, Image2Tz(2), [StoreModel(loc, 2), ReadTemplates], Convert(r, loc).run);
  }

  /** The staged store issues a prefix of push, convert, store, re-read. */
  lemma StoreIsStaged(r: Run<SensorStatus>, data: seq<int>, loc: int)
    ensures StagedBy(Store(r, data, loc).run.log[|r.log|..], UploadPlan(data, loc)[1..])
  {
    var b := Issue(r, SendFpData(data));
    ConvertIsStaged(b.run, loc);
    assert UploadPlan(data, loc)[1..] == [SendFpData(data), Image2Tz(2), StoreModel(loc, 2), ReadTemplates];
    StageStep(r, b, SendFpData(data), [Image2Tz(2), StoreModel(loc, 2), ReadTemplates], Store(r, data, loc).run);
  }

  /**
   * Uploads are staged: the commands issued are a prefix of the plan for the
   * slot chosen from the freshly read list, every command before the last
   * one issued succeeded, so a store is issued only after the read, the
   * push and the conversion all did. With no free slot, or a read that
   * raised, nothing but the read is issued.
   */
  lemma UploadIsStaged(r: Run<SensorStatus>, data: seq<int>)
    ensures var st := UploadToSensor(r, data);
      var view := ViewAfterRead(r.sensor, Nth(r.sensor.replies, 0));
      var free := FirstFree(view, r.sensor.librarySize);
      var issued := st.run.log[|r.log|..];
      && (free.Some? && Nth(r.sensor.replies, 0).Code? ==> StagedBy(issued, UploadPlan(data, free.value)))
      && (free.None? || Nth(r.sensor.replies, 0).Raise? ==>
            issued == [Exchange(ReadTemplates, Nth(r.sensor.replies, 0))])
  {
    var st := UploadToSensor(r, data);
    var a := Issue(r, ReadTemplates);
    assert a.reply == Nth(r.sensor.replies, 0);
    assert a.run.sensor.templates == ViewAfterRead(r.sensor, a.reply);
    var issued := st.run.log[|r.log|..];
    var free := FirstFree(a.run.sensor.templates, a.run.sensor.librarySize);
    if a.reply.Code? && free.Some? {
      var loc := free.value;
      StoreIsStaged(a.run, data, loc);
      var rest := st.run.log[|a.run.log|..];
      assert issued == [Exchange(ReadTemplates, a.reply)] + rest;
    }
  }

  /**
   * A successful upload reports `loc_id`, the smallest slot below the
   * library size missing from the list read at the start of the call; the
   * fourth command it issued stored buffer 2 there with reply OK, and after
   * the call the slot is occupied.
   */
  lemma UploadChoosesFirstFree(r: Run<SensorStatus>, data: seq<int>)
    requires var st := UploadToSensor(r, data); st.Done? && StatusOf(st.value) == StatusV(Success)
    ensures var st := UploadToSensor(r, data);
      var view := ViewAfterRead(r.sensor, Nth(r.sensor.replies, 0));
      var free := FirstFree(view, r.sensor.librarySize);
      && free.Some?
      && st.value["loc_id"] == Int(free.value)
      && st.run.log[|r.log| + 3] == Exchange(StoreModel(free.value, 2), Code(OK))
      && free.value in st.run.sensor.library
  {
    var a := Issue(r, ReadTemplates);
    assert a.reply == Nth(r.sensor.replies, 0);
    assert a.run.sensor.templates == ViewAfterRead(r.sensor, a.reply);
    var loc := FirstFree(a.run.sensor.templates, a.run.sensor.librarySize).value;
    var st := Store(a.run, data, loc);
    StoreIsStaged(a.run, data, loc);
    var rest := st.run.log[|a.run.log|..];
    assert |rest| == 4;
    assert rest[2].cmd == StoreModel(loc, 2) && Passed(rest[2]);
    assert st.run.log[|r.log| + 3] == rest[2];
  }

  /**
   * When the read at the start of a successful upload answered OK, the
   * reported slot lies below the library size, was free in the sensor
   * before the call, and every smaller slot was occupied.
   */
  lemma UploadSlotWasFree(r: Run<SensorStatus>, data: seq<int>)
    requires var st := UploadToSensor(r, data); st.Done? && StatusOf(st.value) == StatusV(Success)
    requires Nth(r.sensor.replies, 0) == Code(OK)
    ensures var st := UploadToSensor(r, data);
      exists loc :: st.value["loc_id"] == Int(loc)
        && 0 <= loc < r.sensor.librarySize
        && loc !in r.sensor.library
        && forall j :: 0 <= j < loc ==> j in r.sensor.library
  {
    UploadChoosesFirstFree(r, data);
    var view := ViewAfterRead(r.sensor, Nth(r.sensor.replies, 0));
    assert view == Listing(r.sensor.library, r.sensor.librarySize);
    var loc := FirstFree(view, r.sensor.librarySize).value;
    assert forall j :: 0 <= j < loc ==> j in view;
  }

  /**
   * With every slot below the library size listed, the upload reports
   * STORAGE_FULL having issued only the read: no push, no conversion and no
   * store.
   */
  lemma UploadStorageFull(r: Run<SensorStatus>, data: seq<int>)
    requires Nth(r.sensor.replies, 0).Code?
    requires forall j :: 0 <= j < r.sensor.librarySize ==> j in ViewAfterRead(r.sensor, Nth(r.sensor.replies, 0))
    ensures var st := UploadToSensor(r, data);
      && st.Done? && StatusOf(st.value) == StatusV(StorageFull)
      && st.run.log == r.log + [Exchange(ReadTemplates, Nth(r.sensor.replies, 0))]
  {
    var a := Issue(r, ReadTemplates);
    assert a.reply == Nth(r.sensor.replies, 0);
    assert a.run.sensor.templates == ViewAfterRead(r.sensor, a.reply);
  }

  /** The handler at the end of `authenticate`: emit FAIL and respond FAIL. */
  function AuthFailed(r: Run<SensorStatus>): (out: Reported)
    ensures out.run == Emit(r, Fail) && StatusOf(out.response) == StatusV(Fail)
  {
    Reported(Plain(Fail), Emit(r, Fail))
  }

  /**
   * `authenticate()`: capture into buffer 1, then search the whole library.
   * On a failed capture the code first reads `settings.LED["error"]`, a key
   * the configuration lacks, so the KeyError lands in the handler, which
   * emits FAIL once and responds FAIL.
   */
  function Authenticate(r: Run<SensorStatus>, timeout: nat): (out: Reported)
    ensures Extends(r, out.run)
    ensures |out.run.events| >= |r.events| + 2 && out.run.events[|r.events|] == PlaceFinger
    ensures (StatusOf(out.response) == StatusV(Success) || StatusOf(out.response) == StatusV(NotFound) || StatusOf(out.response) == StatusV(Fail))
    ensures StatusV(out.run.events[|out.run.events| - 1]) == StatusOf(out.response)
  {
    var r1 := Emit(r, PlaceFinger);
    match Capture(r1, timeout, 1, Some(PlaceFinger))
    case Threw(_, r2) => AuthFailed(r2)
    case Done(false, r2) => AuthFailed(r2)
    case Done(true, r2) => Search(Emit(Emit(r2, RemoveFinger), Processing))
  }

  /** The library search after a successful capture. */
  function Search(r: Run<SensorStatus>): (out: Reported)
    ensures Extends(r, out.run)
    ensures out.run.log == r.log + [Exchange(FingerSearch, Nth(r.sensor.replies, 0))]
    ensures |out.run.events| == |r.events| + 1 && out.run.events[..|r.events|] == r.events
    ensures StatusV(out.run.events[|r.events|]) == StatusOf(out.response)
    ensures StatusOf(out.response) == StatusV(Success) <==> Nth(r.sensor.replies, 0) == Code(OK)
    ensures StatusOf(out.response) == StatusV(NotFound) <==> Nth(r.sensor.replies, 0) == Code(NOTFOUND)
    ensures (StatusOf(out.response) == StatusV(Success) || StatusOf(out.response) == StatusV(NotFound) || StatusOf(out.response) == StatusV(Fail))
    ensures StatusOf(out.response) == StatusV(Success) ==>
      && "loc_id" in out.response && out.response["loc_id"] == Int(r.sensor.fingerId)
      && "confidence" in out.response && out.response["confidence"] == Int(r.sensor.confidence)
  {
    var a := Issue(r, FingerSearch);
    match a.reply
    case Raise(_) => AuthFailed(a.run)
    case Code(OK) =>
      var kwargs := map["loc_id" := Int(a.run.sensor.fingerId), "confidence" := Int(a.run.sensor.confidence)];
      Reported(Respond(Some(Success), [], kwargs).value, Emit(a.run, Success))
    case Code(NOTFOUND) => Reported(Plain(NotFound), Emit(a.run, NotFound))
    case Code(_) => Reported(Plain(Fail), Emit(a.run, Fail))
  }

  /** The authentication outcome read off the script: a capture within the budget, then the search reply. */
  function AuthVerdict(rs: seq<Reply>, timeout: nat): SensorStatus {
    match CaptureSpan(rs, timeout)
    case None => Fail
    case Some(n) =>
      if Nth(rs, n) == Code(OK) then Success
      else if Nth(rs, n) == Code(NOTFOUND) then NotFound
      else Fail
  }

  /**
   * Authentication reports SUCCESS exactly when the capture succeeds and the
   * search answers OK, NOT_FOUND exactly when the search answers NOTFOUND
   * (a normal outcome, distinct from FAIL), and FAIL otherwise.
   */
  lemma AuthenticateFollowsScript(r: Run<SensorStatus>, timeout: nat)
    ensures StatusOf(Authenticate(r, timeout).response) == StatusV(AuthVerdict(r.sensor.replies, timeout))
  {
    var r1 := Emit(r, PlaceFinger);
    CaptureBySpan(r1, timeout, 1, Some(PlaceFinger));
    var c := Capture(r1, timeout, 1, Some(PlaceFinger));
    if c.Done? && c.value {
      CapturedShape(r1, timeout, 1, Some(PlaceFinger));
      var n := CaptureSpan(r.sensor.replies, timeout).value;
      assert Nth(c.run.sensor.replies, 0) == Nth(r.sensor.replies, n);
    }
  }

  /**
   * A failed capture ends authentication in FAIL without a search: only
   * image polls and conversions into buffer 1 are issued, and the events are
   * PLACE_FINGER, the capture's prompts and one FAIL.
   */
  lemma AuthenticateNoSearchWithoutCapture(r: Run<SensorStatus>, timeout: nat)
    requires CaptureSpan(r.sensor.replies, timeout).None?
    ensures var out := Authenticate(r, timeout);
      && StatusOf(out.response) == StatusV(Fail)
      && (forall i :: |r.log| <= i < |out.run.log| ==> (out.run.log[i].cmd == GetImage || out.run.log[i].cmd == Image2Tz(1)))
      && (forall i :: |r.events| < i < |out.run.events| - 1 ==> out.run.events[i] == PlaceFinger)
  {
    var r1 := Emit(r, PlaceFinger);
    CaptureBySpan(r1, timeout, 1, Some(PlaceFinger));
    PollCommands(r1, timeout, 0, 1, Some(PlaceFinger));
    PollCuesOnly(r1, timeout, 0, 1, Some(PlaceFinger));
    var c := Capture(r1, timeout, 1, Some(PlaceFinger));
    var out := Authenticate(r, timeout);
    assert out.run == Emit(c.run, Fail);
    assert out.run.log == c.run.log;
    assert out.run.events == c.run.events + [Fail];
  }

  /**
   * After a successful capture the events close with REMOVE_FINGER,
   * PROCESSING and the outcome, and the search is the last command issued;
   * a match reports the sensor's finger id and confidence.
   */
  lemma AuthenticateSearchTrace(r: Run<SensorStatus>, timeout: nat)
    requires CaptureSpan(r.sensor.replies, timeout).Some?
    ensures var out := Authenticate(r, timeout);
      var n := CaptureSpan(r.sensor.replies, timeout).value;
      && out.run.log[|out.run.log| - 1] == Exchange(FingerSearch, Nth(r.sensor.replies, n))
      && |out.run.events| >= |r.events| + 4
      && out.run.events[|out.run.events| - 3..|out.run.events| - 1] == [RemoveFinger, Processing]
      && (StatusOf(out.response) == StatusV(Success) ==>
            && out.response["loc_id"] == Int(r.sensor.fingerId)
            && out.response["confidence"] == Int(r.sensor.confidence))
  {
    var r1 := Emit(r, PlaceFinger);
    CaptureBySpan(r1, timeout, 1, Some(PlaceFinger));
    CapturedShape(r1, timeout, 1, Some(PlaceFinger));
    PollKeepsMatch(r1, timeout, 0, 1, Some(PlaceFinger));
    var c := Capture(r1, timeout, 1, Some(PlaceFinger));
    var n := CaptureSpan(r.sensor.replies, timeout).value;
    assert Nth(c.run.sensor.replies, 0) == Nth(r.sensor.replies, n);
    var r3 := Emit(Emit(c.run, RemoveFinger), Processing);
    var out := Search(r3);
    assert |r3.events| == |c.run.events| + 2 && |c.run.events| >= |r.events| + 1;
  }
}
