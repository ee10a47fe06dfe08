/**
 * The older identification class: upload into a caller-chosen slot and
 * authenticate, announcing each step through a status callback. As written
 * both operations return FAIL on every path.
 */
module CoreIdentify {
  import opened Wrappers
  import opened Driver
  import opened Status
  import opened SensorService
  import opened FeaturesEnroll
  import opened CoreEnroll

  /** The instance state that matters: `loc_id` is declared but never assigned by the constructor. */
  datatype Identify = Identify(locId: Option<int>)

  /** A freshly constructed instance. */
  const Fresh := Identify(None)

  /**
   * `upload_to_sensor(finger_data, sensor_location)`: an out-of-range slot
   * is announced as FAIL but the upload goes on; an occupied slot is
   * announced and deleted first; a truthy `send_fpdata` is followed by the
   * conversion, the store and SUCCESS. Every exception is caught, and the
   * result is FAIL whatever happens.
   */
  function Upload(r: Run<Notice>, data: seq<int>, loc: int): (st: Step<SensorStatus, Notice>)
    ensures st == Done(Fail, st.run)
    ensures Extends(r, st.run)
  {
    var r0 := if 0 <= loc < r.sensor.librarySize then r else Notify(r, Fail);
    Started(Emit(r0, Start), data, loc)
  }

  /** `upload_to_sensor` after START: read, free an occupied slot, push. */
  function Started(r: Run<Notice>, data: seq<int>, loc: int): (st: Step<SensorStatus, Notice>)
    ensures st == Done(Fail, st.run)
    ensures Extends(r, st.run)
  {
    var a := Issue(r, ReadTemplates);
    if a.reply.Raise? then Done(Fail, a.run)
    else
      var r2 :=
        if loc in a.run.sensor.templates then Issue(Notify(a.run, LocationOccupied), DeleteModel(loc))
        else Answer(Code(OK), a.run);
      if r2.reply.Raise? then Done(Fail, r2.run)
      else Push(r2.run, data, loc)
  }

  /** The push, conversion and store of `upload_to_sensor`. */
  function Push(r: Run<Notice>, data: seq<int>, loc: int): (st: Step<SensorStatus, Notice>)
    ensures st == Done(Fail, st.run)
    ensures Extends(r, st.run)
    ensures st.run.events == r.events || st.run.events == r.events + [Said(Success)]
  {
    var b := Issue(r, SendFpData(data));
    if b.reply != Code(OK) then Done(Fail, b.run)
    else PushConvert(b.run, loc)
  }

  /** After a truthy `send_fpdata`: convert into buffer 2, then store and re-read. */
  function PushConvert(r: Run<Notice>, loc: int): (st: Step<SensorStatus, Notice>)
    ensures st == Done(Fail, st.run)
    ensures var rs := r.sensor.replies;
      && (Nth(rs, 0).Raise? ==> st.run.log == r.log + [Exchange(Image2Tz(2), Nth(rs, 0))])
      && (Nth(rs, 0).Code? && Nth(rs, 1).Raise? ==>
            st.run.log == r.log + [Exchange(Image2Tz(2), Nth(rs, 0)), Exchange(StoreModel(loc, 2), Nth(rs, 1))])
      && (Nth(rs, 0).Code? && Nth(rs, 1).Code? ==>
            st.run.log == r.log + [Exchange(Image2Tz(2), Nth(rs, 0)), Exchange(StoreModel(loc, 2), Nth(rs, 1)),
                                   Exchange(ReadTemplates, Nth(rs, 2))])
    ensures var rs := r.sensor.replies;
      st.run.events == if Nth(rs, 0).Code? && Nth(rs, 1).Code? && Nth(rs, 2).Code? then r.events + [Said(Success)] else r.events
  {
    var c := Issue(r, Image2Tz(2));
    NthAfterIssue(r, Image2Tz(2), 0);
    NthAfterIssue(r, Image2Tz(2), 1);
    if c.reply.Raise? then Done(Fail, c.run)
    else PushStore(c.run, loc)
  }

  /** Store buffer 2 at `loc`, re-read the library, announce SUCCESS if nothing raised. */
  function PushStore(r: Run<Notice>, loc: int): (st: Step<SensorStatus, Notice>)
    ensures st == Done(Fail, st.run)
    ensures var rs := r.sensor.replies;
      && (Nth(rs, 0).Raise? ==> st.run.log == r.log + [Exchange(StoreModel(loc, 2), Nth(rs, 0))])
      && (Nth(rs, 0).Code? ==>
            st.run.log == r.log + [Exchange(StoreModel(loc, 2), Nth(rs, 0)), Exchange(ReadTemplates, Nth(rs, 1))])
    ensures var rs := r.sensor.replies;
      st.run.events == if Nth(rs, 0).Code? && Nth(rs, 1).Code? then r.events + [Said(Success)] else r.events
  {
    var d := Issue(r, StoreModel(loc, 2));
    NthAfterIssue(r, StoreModel(loc, 2), 0);
    if d.reply.Raise? then Done(Fail, d.run)
    else
      var e := Issue(d.run, ReadTemplates);
      if e.reply.Raise? then Done(Fail, e.run)
      else Done(Fail, Notify(e.run, Success))
  }

  /**
   * SUCCESS is announced exactly when `send_fpdata` answers OK and the
   * conversion, the store and the re-read raise nothing, whatever codes
   * they answer; the result is FAIL regardless.
   */
  lemma PushAnnouncesSuccess(r: Run<Notice>, data: seq<int>, loc: int)
    ensures var st := Push(r, data, loc);
      var rs := r.sensor.replies;
      st.run.events == r.events + [Said(Success)] <==>
        && Nth(rs, 0) == Code(OK)
        && Nth(rs, 1).Code? && Nth(rs, 2).Code? && Nth(rs, 3).Code?
  {
    NthAfterIssue(r, SendFpData(data), 0);
    NthAfterIssue(r, SendFpData(data), 1);
    NthAfterIssue(r, SendFpData(data), 2);
  }

  /**
   * What the push issues: `send_fpdata` always; after a truthy answer the
   * buffer-2 conversion, then the store of buffer 2 at `loc`, then the
   * re-read, each issued only when the call before it raised nothing.
   */
  lemma PushIssues(r: Run<Notice>, data: seq<int>, loc: int)
    ensures var st := Push(r, data, loc);
      var rs := r.sensor.replies;
      var send := Exchange(SendFpData(data), Nth(rs, 0));
      && (Nth(rs, 0) != Code(OK) ==> st.run.log == r.log + [send])
      && (Nth(rs, 0) == Code(OK) && Nth(rs, 1).Raise? ==>
            st.run.log == r.log + [send, Exchange(Image2Tz(2), Nth(rs, 1))])
      && (Nth(rs, 0) == Code(OK) && Nth(rs, 1).Code? && Nth(rs, 2).Raise? ==>
            st.run.log == r.log + [send, Exchange(Image2Tz(2), Nth(rs, 1)), Exchange(StoreModel(loc, 2), Nth(rs, 2))])
      && (Nth(rs, 0) == Code(OK) && Nth(rs, 1).Code? && Nth(rs, 2).Code? ==>
            st.run.log == r.log + [send, Exchange(Image2Tz(2), Nth(rs, 1)), Exchange(StoreModel(loc, 2), Nth(rs, 2)),
                                   Exchange(ReadTemplates, Nth(rs, 3))])
  {
    var st := Push(r, data, loc);
    var b := Issue(r, SendFpData(data));
    NthAfterIssue(r, SendFpData(data), 0);
    NthAfterIssue(r, SendFpData(data), 1);
    NthAfterIssue(r, SendFpData(data), 2);
    if b.reply == Code(OK) {
      assert st == PushConvert(b.run, loc);
    }
  }

  /**
   * The slot checks do not stop the upload: an out-of-range slot is
   * announced as FAIL just before START, an in-range one goes straight to
   * START.
   */
  lemma UploadSlotChecks(r: Run<Notice>, data: seq<int>, loc: int)
    ensures var st := Upload(r, data, loc);
      && (!(0 <= loc < r.sensor.librarySize) ==>
            st.run.events[|r.events|..|r.events| + 2] == [Said(Fail), Start])
      && (0 <= loc < r.sensor.librarySize ==> st.run.events[|r.events|] == Start)
  {
    var st := Upload(r, data, loc);
    var r0 := if 0 <= loc < r.sensor.librarySize then r else Notify(r, Fail);
    var r1 := Emit(r0, Start);
    assert st == Started(r1, data, loc);
    assert st.run.events[..|r1.events|] == r1.events;
    if !(0 <= loc < r.sensor.librarySize) {
      assert r1.events == r.events + [Said(Fail), Start];
      assert st.run.events[|r.events|..|r.events| + 2] == r1.events[|r.events|..];
    } else {
      assert r1.events == r.events + [Start];
    }
  }

  /** An occupied slot is deleted before anything is pushed into it. */
  lemma UploadDeletesOccupied(r: Run<Notice>, data: seq<int>, loc: int)
    requires var a := Issue(r, ReadTemplates); a.reply.Code? && loc in a.run.sensor.templates
    ensures var st := Upload(r, data, loc);
      && |st.run.log| >= |r.log| + 2
      && st.run.log[|r.log| + 1].cmd == DeleteModel(loc)
      && Said(LocationOccupied) in st.run.events[|r.events|..]
  {
    var st := Upload(r, data, loc);
    var r0 := if 0 <= loc < r.sensor.librarySize then r else Notify(r, Fail);
    var a := Issue(Emit(r0, Start), ReadTemplates);
    var r2 := Issue(Notify(a.run, LocationOccupied), DeleteModel(loc));
    assert r2.run.log[|r.log| + 1].cmd == DeleteModel(loc);
    assert r2.run.events[|r.events|..] <= st.run.events[|r.events|..];
    assert Said(LocationOccupied) == r2.run.events[|r2.run.events| - 1];
  }

  /**
   * `authenticate()`: announce PLACE_FINGER, capture into buffer 1, search.
   * On a match the code reads the never-assigned `self.loc_id` before
   * announcing SUCCESS; a missing match announces NOT_FOUND. All other
   * endings, and every exception, return FAIL.
   */
  function Authenticate(r: Run<Notice>, obj: Identify, timeout: nat): (out: (Outcome, Run<Notice>))
    ensures Extends(r, out.1)
    ensures |out.1.events| > |r.events| && out.1.events[|r.events|] == Said(PlaceFinger)
    ensures out.0 == Status(Fail) || (obj.locId.Some? && out.0.Slot?)
  {
    var r1 := Notify(r, PlaceFinger);
    match SilentCapture(r1, timeout, 1)
    case Threw(_, r2) => (Status(Fail), r2)
    case Done(false, r2) => (Status(Fail), r2)
    case Done(true, r2) => Searched(Issue(r2, FingerSearch), obj)
  }

  /**
   * What `authenticate` makes of the search: a match announces SUCCESS
   * only when `loc_id` exists, NOTFOUND announces NOT_FOUND, and every
   * other ending (an exception included) is a silent FAIL.
   */
  function Searched(a: Answer<Notice>, obj: Identify): (out: (Outcome, Run<Notice>))
    ensures out.1.log == a.run.log && out.1.sensor == a.run.sensor
    ensures out.1.events == a.run.events || out.1.events == a.run.events + [Said(Success)]
         || out.1.events == a.run.events + [Said(NotFound)]
    ensures Said(NotFound) in out.1.events[|a.run.events|..] <==> a.reply == Code(NOTFOUND)
    ensures out.0 == Status(Fail) || (obj.locId.Some? && out.0.Slot?)
    ensures out.0.Slot? <==> a.reply == Code(OK) && obj.locId.Some?
  {
    match a.reply
    case Raise(_) => (Status(Fail), a.run)
    case Code(c) =>
      if c == OK then
        match obj.locId
        // AttributeError, caught by the handler
        case None => (Status(Fail), a.run)
        case Some(_) => (Slot(a.run.sensor.fingerId), Notify(a.run, Success))
      else if c == NOTFOUND then (Status(Fail), Notify(a.run, NotFound))
      else (Status(Fail), a.run)
  }

  /**
   * On a freshly constructed instance authentication returns FAIL on every
   * path and never announces SUCCESS, even when the search matches; a
   * failed capture searches nothing.
   */
  lemma FreshAuthenticateFails(r: Run<Notice>, timeout: nat)
    ensures var out := Authenticate(r, Fresh, timeout);
      && out.0 == Status(Fail)
      && Said(Success) !in out.1.events[|r.events|..]
      && (CaptureSpan(r.sensor.replies, timeout).None? ==>
            forall i :: |r.log| <= i < |out.1.log| ==> out.1.log[i].cmd != FingerSearch)
  {
    var r1 := Notify(r, PlaceFinger);
    CaptureBySpan(r1, timeout, 1, None);
    PollSilent(r1, timeout, 0, 1);
    PollCommands(r1, timeout, 0, 1, None);
    var c := Capture(r1, timeout, 1, None);
    assert c.run.events == r.events + [Said(PlaceFinger)];
    if c.Done? && c.value {
      var a := Issue(c.run, FingerSearch);
      assert a.run.events[|r.events|..] == [Said(PlaceFinger)];
    }
  }

  /**
   * NOT_FOUND is announced exactly when the capture succeeds and the
   * search answers NOTFOUND; the answer is then FAIL, and the events are
   * PLACE_FINGER followed by NOT_FOUND.
   */
  lemma AuthenticateNotFound(r: Run<Notice>, obj: Identify, timeout: nat)
    ensures var out := Authenticate(r, obj, timeout);
      var rs := r.sensor.replies;
      var span := CaptureSpan(rs, timeout);
      && (Said(NotFound) in out.1.events[|r.events|..] <==> span.Some? && Nth(rs, span.value) == Code(NOTFOUND))
      && (span.Some? && Nth(rs, span.value) == Code(NOTFOUND) ==>
            out.0 == Status(Fail) && out.1.events == r.events + [Said(PlaceFinger), Said(NotFound)])
  {
    var rs := r.sensor.replies;
    var out := Authenticate(r, obj, timeout);
    var c := Capture(Notify(r, PlaceFinger), timeout, 1, None);
    AuthenticateSearches(r, obj, timeout);
    if c.Done? && c.value {
      var a := Issue(c.run, FingerSearch);
      assert out.1.events[|r.events|..] == [Said(PlaceFinger)] + out.1.events[|a.run.events|..];
    } else {
      assert out.1.events[|r.events|..] == [Said(PlaceFinger)];
    }
  }

  /**
   * `authenticate` is the silent capture after PLACE_FINGER, then, only
   * when the capture succeeds, the search of what the next reply says.
   */
  lemma AuthenticateSearches(r: Run<Notice>, obj: Identify, timeout: nat)
    ensures var c := Capture(Notify(r, PlaceFinger), timeout, 1, None);
      var out := Authenticate(r, obj, timeout);
      var rs := r.sensor.replies;
      var span := CaptureSpan(rs, timeout);
      && c.run.events == r.events + [Said(PlaceFinger)]
      && (c.Done? && c.value <==> span.Some?)
      && (c.Done? && c.value ==> out == Searched(Issue(c.run, FingerSearch), obj))
      && (c.Done? && c.value ==> Issue(c.run, FingerSearch).reply == Nth(rs, span.value))
      && (!(c.Done? && c.value) ==> out == (Status(Fail), c.run))
  {
    var rs := r.sensor.replies;
    var r1 := Notify(r, PlaceFinger);
    var c := Capture(r1, timeout, 1, None);
    CaptureBySpan(r1, timeout, 1, None);
    PollSilent(r1, timeout, 0, 1);
    if c.Done? && c.value {
      CapturedShape(r1, timeout, 1, None);
      NthSuffix(rs, CaptureSpan(rs, timeout).value, 0);
    }
  }
}
