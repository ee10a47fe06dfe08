/**
 * The oldest identification class: opening it empties the library, an
 * upload stores at whatever slot the caller names, and authentication
 * answers with a boolean and remembers the matched slot.
 */
module FeaturesIdentify {
  import opened Wrappers
  import opened Driver
  import opened Status
  import opened SensorService
  import opened FeaturesEnroll

  /** The instance state: the slot of the last match, unset until one happens. */
  datatype Session = Session(locId: Option<int>)

  /** `Identify()`: the constructor empties the sensor library; its exceptions propagate. */
  function Open(r: Run<Notice>): (st: Step<Session, Notice>)
    ensures st.run.log == r.log + [Exchange(EmptyLibrary, Nth(r.sensor.replies, 0))]
    ensures st.run.events == r.events
    ensures st.Threw? <==> Nth(r.sensor.replies, 0).Raise?
    ensures st.Done? ==> st.value == Session(None)
    ensures Nth(r.sensor.replies, 0) == Code(OK) ==> st.run.sensor.library == {}
  {
    var a := Issue(r, EmptyLibrary);
    match a.reply
    case Raise(e) => Threw(e, a.run)
    case Code(_) => Done(Session(None), a.run)
  }

  /** The handler of `upload_to_sensor`: only TypeError is caught, and it answers False. */
  function Caught(e: Exc, r: Run<Notice>): (st: Step<bool, Notice>)
    ensures e == TypeError ==> st == Done(false, r)
    ensures e != TypeError ==> st == Threw(e, r)
  {
    if e == TypeError then Done(false, r) else Threw(e, r)
  }

  /**
   * `upload_to_sensor(finger_data, sensor_location)`: no range or
   * occupancy check; when `send_fpdata` is truthy, convert and store at
   * the slot and answer True whatever the conversion and the store answer.
   */
  function Upload(r: Run<Notice>, data: seq<int>, loc: int): (st: Step<bool, Notice>)
    ensures Extends(r, st.run) && st.run.events == r.events
    ensures st.Threw? ==> st.exc != TypeError
    ensures st.Done? && st.value ==>
      && |st.run.log| == |r.log| + 5
      && st.run.log[|r.log| + 1] == Exchange(SendFpData(data), Code(OK))
      && st.run.log[|r.log| + 3].cmd == StoreModel(loc, 2)
  {
    var a := Issue(r, ReadTemplates);
    if a.reply.Raise? then Caught(a.reply.exc, a.run)
    else
      var b := Issue(a.run, SendFpData(data));
      if b.reply.Raise? then Caught(b.reply.exc, b.run)
      else if b.reply != Code(OK) then Done(false, b.run)
      else
        var c := Issue(b.run, Image2Tz(2));
        if c.reply.Raise? then Caught(c.reply.exc, c.run)
        else
          var d := Issue(c.run, StoreModel(loc, 2));
          if d.reply.Raise? then Caught(d.reply.exc, d.run)
          else
            var e := Issue(d.run, ReadTemplates);
            if e.reply.Raise? then Caught(e.reply.exc, e.run) else Done(true, e.run)
  }

  /**
   * The upload answers True exactly when `send_fpdata` answers OK and none
   * of the five calls raises; the codes of the conversion and the store
   * play no part.
   */
  lemma UploadTrueWhen(r: Run<Notice>, data: seq<int>, loc: int)
    ensures var st := Upload(r, data, loc);
      var rs := r.sensor.replies;
      st.Done? && st.value <==>
        && Nth(rs, 0).Code? && Nth(rs, 1) == Code(OK)
        && Nth(rs, 2).Code? && Nth(rs, 3).Code? && Nth(rs, 4).Code?
  {
    var a := Issue(r, ReadTemplates);
    var b := Issue(a.run, SendFpData(data));
    var c := Issue(b.run, Image2Tz(2));
    var d := Issue(c.run, StoreModel(loc, 2));
    NthAfterIssue(r, ReadTemplates, 0);
    NthAfterIssue(r, ReadTemplates, 1);
    NthAfterIssue(r, ReadTemplates, 2);
    NthAfterIssue(r, ReadTemplates, 3);
    NthAfterIssue(a.run, SendFpData(data), 0);
    NthAfterIssue(a.run, SendFpData(data), 1);
    NthAfterIssue(a.run, SendFpData(data), 2);
    NthAfterIssue(b.run, Image2Tz(2), 0);
    NthAfterIssue(b.run, Image2Tz(2), 1);
    NthAfterIssue(c.run, StoreModel(loc, 2), 0);
  }

  /**
   * `authenticate()`: capture into buffer 1 and search; True exactly on an
   * OK search, which also records the matched slot. Every exception is
   * caught and answers False.
   */
  function Authenticate(r: Run<Notice>, s: Session, timeout: nat): (out: (bool, Session, Run<Notice>))
    ensures Extends(r, out.2) && out.2.events == r.events
    ensures out.0 ==> |out.2.log| > 0 && out.2.log[|out.2.log| - 1] == Exchange(FingerSearch, Code(OK))
    ensures out.0 ==> out.1 == Session(Some(out.2.sensor.fingerId))
    ensures !out.0 ==> out.1 == s
  {
    match SilentCapture(r, timeout, 1)
    case Threw(_, r1) => (false, s, r1)
    case Done(false, r1) => (false, s, r1)
    case Done(true, r1) =>
      var a := Issue(r1, FingerSearch);
      if a.reply == Code(OK) then (true, Session(Some(a.run.sensor.fingerId)), a.run)
      else (false, s, a.run)
  }

  /**
   * Authentication answers True exactly when the capture succeeds and the
   * search reply after it is OK, and the slot it records is the sensor's
   * finger id; NOTFOUND, other codes, a failed capture and exceptions all
   * answer False.
   */
  lemma AuthenticateFollowsScript(r: Run<Notice>, s: Session, timeout: nat)
    ensures var out := Authenticate(r, s, timeout);
      var span := CaptureSpan(r.sensor.replies, timeout);
      && (out.0 <==> span.Some? && Nth(r.sensor.replies, span.value) == Code(OK))
      && (out.0 ==> out.1 == Session(Some(r.sensor.fingerId)))
  {
    var c := Capture(r, timeout, 1, None);
    CaptureBySpan(r, timeout, 1, None);
    PollKeepsMatch(r, timeout, 0, 1, None);
    if c.Done? && c.value {
      CapturedShape(r, timeout, 1, None);
      NthSuffix(r.sensor.replies, CaptureSpan(r.sensor.replies, timeout).value, 0);
    }
  }
}
