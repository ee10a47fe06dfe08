/**
 * The older enrollment class: announces each step through a status
 * callback, lets the caller choose the slot, and guards the store with a
 * template check whose result is used for its truthiness. Every driver
 * exception propagates to the caller.
 */
module CoreEnroll {
  import opened Wrappers
  import opened Driver
  import opened Status
  import opened SensorService
  import opened Slots
  import opened FeaturesEnroll

  /** `notify(status)`: hand the status to the callback. */
  function Notify(r: Run<Notice>, s: SensorStatus): Run<Notice> {
    Emit(r, Said(s))
  }

  /**
   * `_enroll()`: announce START and PLACE_FINGER, capture into buffer 1,
   * prompt REMOVE_FINGER until the finger leaves, announce
   * PLACE_SAME_FINGER, then SUCCESS only if the buffer-2 capture and the
   * combine both succeed; every other ending is FAIL.
   */
  function Enroll(r: Run<Notice>, timeout: nat): (st: Step<SensorStatus, Notice>)
    ensures Extends(r, st.run) && st.run.sensor.image == r.sensor.image
    ensures |st.run.events| >= |r.events| + 2
    ensures st.run.events[|r.events|] == Start && st.run.events[|r.events| + 1] == Said(PlaceFinger)
    ensures st.Done? ==> (st.value == Success || st.value == Fail)
    ensures st.Done? && st.value == Success ==>
      |st.run.log| > 0 && st.run.log[|st.run.log| - 1] == Exchange(CreateModel, Code(OK))
  {
    var r1 := Emit(Emit(r, Start), Said(PlaceFinger));
    match SilentCapture(r1, timeout, 1)
    case Threw(e, r2) => Threw(e, r2)
    case Done(false, r2) => Done(Fail, r2)
    case Done(true, r2) => Remaining(Notify(r2, RemoveFinger), timeout)
  }

  /** After the first capture and the first REMOVE_FINGER. */
  function Remaining(r: Run<Notice>, timeout: nat): (st: Step<SensorStatus, Notice>)
    ensures Extends(r, st.run) && st.run.sensor.image == r.sensor.image
    ensures st.Done? ==> (st.value == Success || st.value == Fail)
    ensures st.Done? && st.value == Success ==>
      |st.run.log| > 0 && st.run.log[|st.run.log| - 1] == Exchange(CreateModel, Code(OK))
  {
    match AwaitRemoval(r, Some(Said(RemoveFinger)))
    case Threw(e, r1) => Threw(e, r1)
    case Done(_, r1) =>
      // `self._capture(...) and self._check_prints()`
      match FinalCapture(Notify(r1, PlaceSameFinger), timeout)
      case Threw(e, r2) => Threw(e, r2)
      case Done(ok, r2) => Done(if ok then Success else Fail, r2)
  }

  lemma RemainingFollowsScript(r: Run<Notice>, timeout: nat)
    ensures var st := Remaining(r, timeout);
      st.Done? && st.value == Success <==> SecondPlacementBy(r.sensor.replies, timeout)
  {
    AwaitBySpan(r, Some(Said(RemoveFinger)));
    var w := AwaitRemoval(r, Some(Said(RemoveFinger)));
    if w.Done? {
      FinalCaptureFollowsScript(Notify(w.run, PlaceSameFinger), timeout);
    }
  }

  /**
   * This `_enroll` succeeds under exactly the script condition of the
   * oldest one: a capture, a normal removal wait, a second capture and an
   * OK combine. A combine mismatch is FAIL like any other failure.
   */
  lemma EnrollFollowsScript(r: Run<Notice>, timeout: nat)
    ensures var st := Enroll(r, timeout);
      st.Done? && st.value == Success <==> EnrollsBy(r.sensor.replies, timeout)
  {
    var r1 := Emit(Emit(r, Start), Said(PlaceFinger));
    var c1 := Capture(r1, timeout, 1, None);
    CaptureBySpan(r1, timeout, 1, None);
    if c1.Done? && c1.value {
      CapturedShape(r1, timeout, 1, None);
      RemainingFollowsScript(Notify(c1.run, RemoveFinger), timeout);
    }
  }

  /**
   * A failed first capture ends in FAIL after announcing only START and
   * PLACE_FINGER, with no command touching buffer 2.
   */
  lemma EnrollStopsAfterFirstCapture(r: Run<Notice>, timeout: nat)
    requires CaptureSpan(r.sensor.replies, timeout).None?
    ensures var st := Enroll(r, timeout);
      && (st.Done? ==> st.value == Fail)
      && st.run.events == r.events + [Start, Said(PlaceFinger)]
      && forall i :: |r.log| <= i < |st.run.log| ==> (st.run.log[i].cmd == GetImage || st.run.log[i].cmd == Image2Tz(1))
  {
    var r1 := Emit(Emit(r, Start), Said(PlaceFinger));
    CaptureBySpan(r1, timeout, 1, None);
    PollSilent(r1, timeout, 0, 1);
    PollCommands(r1, timeout, 0, 1, None);
  }

  /** What the older enrollment calls return, judged by Python truthiness where the code tests them. */
  datatype Outcome = Status(status: SensorStatus) | Slot(slot: int) | Data(bytes: seq<int>) | False

  /** Python truthiness: enum members are true, an integer slot is true unless 0, a list unless empty. */
  predicate Truthy(o: Outcome) {
    match o
    case Status(_) => true
    case Slot(n) => n != 0
    case Data(d) => |d| > 0
    case False => false
  }

  /**
   * `_check_template()`: read the system parameters and the templates,
   * count them, then return the first free slot, or STORAGE_FULL after
   * announcing it. The count check is inverted as written: an OK count
   * returns FAIL.
   */
  function CheckTemplate(r: Run<Notice>): (st: Step<Outcome, Notice>)
    ensures Extends(r, st.run)
    ensures st.run.sensor.librarySize == r.sensor.librarySize
    ensures st.Done? ==> st.value.Status? || st.value.Slot?
    ensures st.Done? && st.value.Slot? ==>
      && FirstFree(st.run.sensor.templates, r.sensor.librarySize) == Some(st.value.slot)
      && st.run.events == r.events
  {
    var a := Issue(r, ReadSysparam);
    if a.reply.Raise? then Threw(a.reply.exc, a.run)
    else if a.reply != Code(OK) then Done(Status(Fail), a.run)
    else
      var b := Issue(a.run, ReadTemplates);
      if b.reply.Raise? then Threw(b.reply.exc, b.run)
      else if b.reply != Code(OK) then Done(Status(Fail), b.run)
      else
        var c := Issue(b.run, CountTemplates);
        if c.reply.Raise? then Threw(c.reply.exc, c.run)
        else if c.reply == Code(OK) then Done(Status(Fail), c.run)
        else
          match FirstFree(c.run.sensor.templates, c.run.sensor.librarySize)
          case None => Done(Status(StorageFull), Notify(c.run, StorageFull))
          case Some(loc) => Done(Slot(loc), c.run)
  }

  /**
   * The template check is falsy only when it returns slot 0: that is, the
   * parameters and the templates read OK, the count does not, and slot 0
   * is free while the library has room. Every failure it detects returns a
   * truthy status.
   */
  lemma CheckTemplateFalsy(r: Run<Notice>)
    requires CheckTemplate(r).Done?
    ensures var rs := r.sensor.replies;
      !Truthy(CheckTemplate(r).value) <==>
        && Nth(rs, 0) == Code(OK) && Nth(rs, 1) == Code(OK)
        && Nth(rs, 2).Code? && Nth(rs, 2) != Code(OK)
        && 0 < r.sensor.librarySize && 0 !in r.sensor.library
  {
    var rs := r.sensor.replies;
    var a := Issue(r, ReadSysparam);
    var b := Issue(a.run, ReadTemplates);
    var c := Issue(b.run, CountTemplates);
    assert a.reply == Nth(rs, 0);
    assert Nth(a.run.sensor.replies, 0) == Nth(rs, 1) && b.reply == Nth(rs, 1);
    assert Nth(b.run.sensor.replies, 0) == Nth(rs, 2) && c.reply == Nth(rs, 2);
    if a.reply == Code(OK) && b.reply == Code(OK) && c.reply.Code? && c.reply != Code(OK) {
      var l := Listing(r.sensor.library, r.sensor.librarySize);
      assert c.run.sensor.templates == l;
      if 0 < r.sensor.librarySize && 0 !in r.sensor.library {
        assert 0 !in l;
      } else if 0 < r.sensor.librarySize {
        assert 0 in l;
      }
    }
  }

  /**
   * The inverted count check: when the parameters, the templates and the
   * count all read OK, the check returns FAIL, a truthy value, so the store
   * goes ahead anyway.
   */
  lemma CountCheckInverted(r: Run<Notice>)
    requires Nth(r.sensor.replies, 0) == Code(OK) && Nth(r.sensor.replies, 1) == Code(OK)
    requires Nth(r.sensor.replies, 2) == Code(OK)
    ensures CheckTemplate(r) == Done(Status(Fail), CheckTemplate(r).run)
    ensures Truthy(CheckTemplate(r).value)
  {
    var rs := r.sensor.replies;
    var a := Issue(r, ReadSysparam);
    var b := Issue(a.run, ReadTemplates);
    assert Nth(a.run.sensor.replies, 0) == Nth(rs, 1);
    assert Nth(b.run.sensor.replies, 0) == Nth(rs, 2);
  }

  /**
   * `store_finger(location)`: the template check gates everything; the
   * default location (-1) takes the first free slot, a chosen one must not
   * be occupied; then enroll and store buffer 1 at the slot.
   */
  function StoreFinger(r: Run<Notice>, location: int, timeout: nat): (st: Step<Outcome, Notice>)
    ensures Extends(r, st.run)
  {
    match CheckTemplate(r)
    case Threw(e, r1) => Threw(e, r1)
    case Done(v, r1) => AfterCheck(r1, v, location, timeout)
  }

  /**
   * The slot `store_finger` settles on before enrolling: the first free one
   * for the default location (-1), else the caller's own unless it is
   * listed; the status it answers when there is none.
   */
  function Target(templates: seq<int>, size: int, location: int): (t: Result<int, SensorStatus>)
    ensures location == -1 ==> (t.Err? <==> FirstFree(templates, size).None?)
    ensures location == -1 && t.Ok? ==> FirstFree(templates, size) == Some(t.value)
    ensures location == -1 && t.Err? ==> t.error == StorageFull
    ensures location != -1 ==> (t.Err? <==> location in templates)
    ensures location != -1 && t.Ok? ==> t.value == location
    ensures location != -1 && t.Err? ==> t.error == LocationOccupied
  {
    if location == -1 then
      match FirstFree(templates, size)
      case None => Err(StorageFull)
      case Some(loc) => Ok(loc)
    else if location in templates then Err(LocationOccupied)
    else Ok(location)
  }

  /** `store_finger` once `_check_template()` has returned `v`. */
  function AfterCheck(r: Run<Notice>, v: Outcome, location: int, timeout: nat): (st: Step<Outcome, Notice>)
    ensures Extends(r, st.run)
    ensures st.Done? ==> !st.value.Data?
    ensures st.Done? && st.value.Status? ==> st.value.status == StorageFull || st.value.status == LocationOccupied
    ensures st.Done? && st.value.Slot? ==>
      && |st.run.log| > 0 && st.run.log[|st.run.log| - 1] == Exchange(StoreModel(st.value.slot, 1), Code(OK))
      && |st.run.events| > 0 && st.run.events[|st.run.events| - 1] == Said(Success)
    ensures st.Done? && st.value.False? ==>
      |st.run.events| > 0 && st.run.events[|st.run.events| - 1] == Said(Fail)
  {
    if !Truthy(v) then Done(False, Notify(r, Fail))
    else
      match Target(r.sensor.templates, r.sensor.librarySize, location)
      case Err(s) => Done(Status(s), r)
      case Ok(loc) => EnrollAndStore(r, loc, timeout)
  }

  /** Enroll, then store buffer 1 (the driver's default) at `loc`. */
  function EnrollAndStore(r: Run<Notice>, loc: int, timeout: nat): (st: Step<Outcome, Notice>)
    ensures Extends(r, st.run)
    ensures st.Done? ==> st.value == Slot(loc) || st.value == False
    ensures st.Done? && st.value.Slot? ==>
      && |st.run.log| > 0 && st.run.log[|st.run.log| - 1] == Exchange(StoreModel(loc, 1), Code(OK))
      && |st.run.events| > 0 && st.run.events[|st.run.events| - 1] == Said(Success)
    ensures st.Done? && st.value == False ==>
      |st.run.events| > 0 && st.run.events[|st.run.events| - 1] == Said(Fail)
  {
    match Enroll(r, timeout)
    case Threw(e, r1) => Threw(e, r1)
    case Done(res, r1) => StoreIfEnrolled(r1, res, loc)
  }

  /** After `_enroll()` answered `res`: announce FAIL and return False, or store at `loc`. */
  function StoreIfEnrolled(r: Run<Notice>, res: SensorStatus, loc: int): (st: Step<Outcome, Notice>)
    ensures Extends(r, st.run)
    ensures st.Done? ==> st.value == Slot(loc) || st.value == False
    ensures st.Done? && st.value.Slot? ==>
      && |st.run.log| > 0 && st.run.log[|st.run.log| - 1] == Exchange(StoreModel(loc, 1), Code(OK))
      && |st.run.events| > 0 && st.run.events[|st.run.events| - 1] == Said(Success)
    ensures st.Done? && st.value == False ==>
      |st.run.events| > 0 && st.run.events[|st.run.events| - 1] == Said(Fail)
  {
    if res != Success then Done(False, Notify(r, Fail))
    else StoreAt(r, loc)
  }

  /** Store buffer 1 at `loc` and announce how it went. */
  function StoreAt(r: Run<Notice>, loc: int): (st: Step<Outcome, Notice>)
    ensures Extends(r, st.run)
    ensures |st.run.log| == |r.log| + 1 && st.run.log[|r.log|].cmd == StoreModel(loc, 1)
    ensures st.Done? ==> st.value == Slot(loc) || st.value == False
    ensures st.Done? ==> |st.run.events| == |r.events| + 1
    ensures st.Done? && st.value.Slot? ==>
      st.run.log[|r.log|].reply == Code(OK) && st.run.events[|r.events|] == Said(Success)
    ensures st.Done? && st.value == False ==> st.run.events[|r.events|] == Said(Fail)
  {
    var a := Issue(r, StoreModel(loc, 1));
    match a.reply
    case Raise(e) => Threw(e, a.run)
    case Code(c) =>
      if c == OK then Done(Slot(loc), Notify(a.run, Success)) else Done(False, Notify(a.run, Fail))
  }

  /**
   * With the default location, a successful store lands in the smallest
   * slot below the library size missing from the templates as the check
   * left them.
   */
  lemma StoreDefaultPicksFirstFree(r: Run<Notice>, timeout: nat)
    requires StoreFinger(r, -1, timeout).Done? && StoreFinger(r, -1, timeout).value.Slot?
    ensures var ct := CheckTemplate(r);
      var n := StoreFinger(r, -1, timeout).value.slot;
      && ct.Done?
      && 0 <= n < r.sensor.librarySize
      && n !in ct.run.sensor.templates
      && (forall j :: 0 <= j < n ==> j in ct.run.sensor.templates)
  {
    var ct := CheckTemplate(r);
    var free := FirstFree(ct.run.sensor.templates, ct.run.sensor.librarySize);
    assert free.Some? && EnrollAndStore(ct.run, free.value, timeout).value == Slot(free.value);
  }

  /**
   * The guards before enrollment: a falsy check announces FAIL and returns
   * False, no free slot for the default location returns STORAGE_FULL, and
   * a chosen slot already listed returns LOCATION_OCCUPIED; in each case
   * nothing past the check is issued.
   */
  lemma StoreGuards(r: Run<Notice>, location: int, timeout: nat)
    requires CheckTemplate(r).Done?
    ensures var ct := CheckTemplate(r);
      var st := StoreFinger(r, location, timeout);
      var ts := ct.run.sensor.templates;
      && (!Truthy(ct.value) ==> st == Done(False, Notify(ct.run, Fail)))
      && (Truthy(ct.value) && location == -1 && FirstFree(ts, r.sensor.librarySize).None? ==>
            st == Done(Status(StorageFull), ct.run))
      && (Truthy(ct.value) && location != -1 && location in ts ==>
            st == Done(Status(LocationOccupied), ct.run))
  {
  }

  /**
   * `get_raw()`: announce the enrollment result, then read buffer 1 out of
   * the sensor only after SUCCESS; otherwise return FAIL.
   */
  function GetRaw(r: Run<Notice>, timeout: nat): (st: Step<Outcome, Notice>)
    ensures Extends(r, st.run)
    ensures st.Done? ==> st.value == Data(r.sensor.image) || st.value == Status(Fail)
    ensures st.Done? && st.value.Data? ==>
      |st.run.events| > |r.events| && st.run.events[|st.run.events| - 1] == Said(Success)
  {
    match Enroll(r, timeout)
    case Threw(e, r1) => Threw(e, r1)
    case Done(res, r1) => ReadOut(Notify(r1, res), res)
  }

  /** The read-out step of `get_raw()`, once `res` has been announced. */
  function ReadOut(r: Run<Notice>, res: SensorStatus): (st: Step<Outcome, Notice>)
    ensures Extends(r, st.run) && st.run.events == r.events
    ensures st.Done? ==> st.value == Data(r.sensor.image) || st.value == Status(Fail)
    ensures st.Done? && st.value.Data? ==> res == Success
    ensures res != Success ==> st == Done(Status(Fail), r)
  {
    if res != Success then Done(Status(Fail), r)
    else
      var a := Issue(r, GetFpData(1));
      match a.reply
      case Raise(e) => Threw(e, a.run)
      case Code(_) => Done(Data(a.run.sensor.image), a.run)
  }
}
