/**
 * The oldest enrollment snapshot: a capture loop that waits silently, a
 * removal wait that polls until the sensor sees no finger, two captures
 * combined into one model, and a read-out of the model's bytes. Nothing is
 * announced; every driver exception propagates to the caller.
 */
module FeaturesEnroll {
  import opened Wrappers
  import opened Driver
  import opened Status
  import opened SensorService

  /** `capture(timeout, buffer)`: the base poll loop with no cue on an empty poll. */
  function SilentCapture<E>(r: Run<E>, timeout: nat, buffer: int): (st: Step<bool, E>)
    ensures Extends(r, st.run) && st.run.events == r.events && st.run.sensor.image == r.sensor.image
    ensures st.Done? && st.value <==> CaptureSpan(r.sensor.replies, timeout).Some?
  {
    CaptureBySpan(r, timeout, buffer, None);
    PollSilent(r, timeout, 0, buffer);
    Capture(r, timeout, buffer, None)
  }

  /** A poll loop with no cue emits nothing. */
  lemma {:induction false} PollSilent<E>(r: Run<E>, timeout: nat, elapsed: nat, buffer: int)
    ensures Poll(r, timeout, elapsed, buffer, None).run.events == r.events
    decreases timeout - elapsed
  {
    if elapsed <= timeout {
      var a := Issue(r, GetImage);
      if a.reply == Code(NOFINGER) {
        PollSilent(a.run, timeout, elapsed + 1, buffer);
      }
    }
  }

  /**
   * `_check_prints()`: combine the two buffers; true exactly when
   * `create_model` answers OK, so a mismatch and any other code are both false.
   */
  function CheckPrints<E>(r: Run<E>): (st: Step<bool, E>)
    ensures st.run.log == r.log + [Exchange(CreateModel, Nth(r.sensor.replies, 0))]
    ensures st.run.events == r.events && st.run.sensor.image == r.sensor.image
    ensures st.run.sensor.replies == r.sensor.replies[if |r.sensor.replies| > 0 then 1 else 0..]
    ensures st.Threw? <==> Nth(r.sensor.replies, 0).Raise?
    ensures st.Done? ==> (st.value <==> Nth(r.sensor.replies, 0) == Code(OK))
  {
    var a := Issue(r, CreateModel);
    match a.reply
    case Raise(e) => Threw(e, a.run)
    case Code(c) => Done(c == OK, a.run)
  }

  /**
   * The wait for the finger to leave: poll `get_image` until it answers
   * NOFINGER, emitting `cue` after every other answer. The loop has no
   * timeout and would spin for as long as a finger stays on the sensor; in
   * the model each poll consumes a scripted reply and an exhausted script
   * raises, so the modelled wait ends with the script.
   */
  function AwaitRemoval<E>(r: Run<E>, cue: Option<E>): (st: Step<bool, E>)
    ensures Extends(r, st.run)
    ensures st.run.sensor.library == r.sensor.library && st.run.sensor.templates == r.sensor.templates
    ensures st.run.sensor.image == r.sensor.image && st.run.sensor.librarySize == r.sensor.librarySize
    ensures cue.None? ==> st.run.events == r.events
    decreases |r.sensor.replies|
  {
    var a := Issue(r, GetImage);
    match a.reply
    case Raise(e) => Threw(e, a.run)
    case Code(c) =>
      if c == NOFINGER then Done(true, a.run)
      else AwaitRemoval(Cue(a.run, cue), cue)
  }

  /**
   * The number of replies a removal wait consumes when it ends normally:
   * up to and including the first NOFINGER, provided no exception comes
   * first; None when the wait raises.
   */
  function RemovalSpan(rs: seq<Reply>): (span: Option<nat>)
    ensures span.Some? ==> 1 <= span.value <= |rs| && rs[span.value - 1] == Code(NOFINGER)
    ensures span.Some? ==> forall i :: 0 <= i < span.value - 1 ==> rs[i].Code? && rs[i] != Code(NOFINGER)
  {
    if |rs| == 0 || rs[0].Raise? then None
    else if rs[0] == Code(NOFINGER) then Some(1)
    else
      match RemovalSpan(rs[1..])
      case None => None
      case Some(k) => Some(k + 1)
  }

  /**
   * The removal wait ends normally exactly when the script holds a NOFINGER
   * before any exception; it then consumes that span, logs only image
   * polls, and emits one cue per poll that still saw a finger.
   */
  lemma AwaitBySpan<E>(r: Run<E>, cue: Option<E>)
    ensures var st := AwaitRemoval(r, cue);
      var span := RemovalSpan(r.sensor.replies);
      && (st.Done? <==> span.Some?)
      && (st.Done? ==> st.value)
      && (forall i :: |r.log| <= i < |st.run.log| ==> st.run.log[i].cmd == GetImage)
      && (span.Some? ==>
            && st.run.sensor.replies == r.sensor.replies[span.value..]
            && |st.run.log| == |r.log| + span.value
            && st.run.events == r.events + Cues(cue, span.value - 1))
  {
    AwaitOutcome(r, cue);
    AwaitPollsOnly(r, cue);
    AwaitTrace(r, cue);
  }

  /** One poll that still sees a finger: it is logged and cued, and the wait goes on. */
  lemma AwaitWaits<E>(r: Run<E>, cue: Option<E>)
    requires |r.sensor.replies| > 0 && r.sensor.replies[0].Code? && r.sensor.replies[0] != Code(NOFINGER)
    ensures var r1 := Cue(Issue(r, GetImage).run, cue);
      && AwaitRemoval(r, cue) == AwaitRemoval(r1, cue)
      && r1.sensor.replies == r.sensor.replies[1..]
      && r1.log == r.log + [Exchange(GetImage, r.sensor.replies[0])]
      && r1.events == r.events + Cues(cue, 1)
      && RemovalSpan(r.sensor.replies) == (match RemovalSpan(r.sensor.replies[1..])
                                           case None => None
                                           case Some(k) => Some(k + 1))
  {
    if cue.Some? {
      assert Repeat(cue.value, 1) == [cue.value] + Repeat(cue.value, 0);
    }
  }

  /** The outcome half of `AwaitBySpan`. */
  lemma {:induction false} AwaitOutcome<E>(r: Run<E>, cue: Option<E>)
    ensures var st := AwaitRemoval(r, cue);
      && (st.Done? <==> RemovalSpan(r.sensor.replies).Some?)
      && (st.Done? ==> st.value)
    decreases |r.sensor.replies|
  {
    var rs := r.sensor.replies;
    if |rs| > 0 && rs[0].Code? && rs[0] != Code(NOFINGER) {
      AwaitWaits(r, cue);
      AwaitOutcome(Cue(Issue(r, GetImage).run, cue), cue);
    }
  }

  /** Every exchange in `log` from position `from` on is an image poll. */
  ghost predicate PollsFrom(log: seq<Exchange>, from: nat) {
    forall i :: from <= i < |log| ==> log[i].cmd == GetImage
  }

  /** The removal wait issues nothing but image polls. */
  lemma {:induction false} AwaitPollsOnly<E>(r: Run<E>, cue: Option<E>)
    ensures PollsFrom(AwaitRemoval(r, cue).run.log, |r.log|)
    decreases |r.sensor.replies|
  {
    var rs := r.sensor.replies;
    var st := AwaitRemoval(r, cue);
    var a := Issue(r, GetImage);
    if |rs| > 0 && rs[0].Code? && rs[0] != Code(NOFINGER) {
      AwaitWaits(r, cue);
      var r1 := Cue(a.run, cue);
      AwaitPollsOnly(r1, cue);
      forall i | |r.log| <= i < |st.run.log|
        ensures st.run.log[i].cmd == GetImage
      {
        if i == |r.log| {
          assert st.run.log[..|r1.log|] == r1.log;
          assert st.run.log[i] == r1.log[i];
        }
      }
    } else {
      assert st.run == a.run;
    }
  }

  /** The trace half of `AwaitBySpan`: what a wait that ends normally consumes, logs and cues. */
  lemma {:induction false} AwaitTrace<E>(r: Run<E>, cue: Option<E>)
    ensures var st := AwaitRemoval(r, cue);
      var span := RemovalSpan(r.sensor.replies);
      span.Some? ==>
        && st.run.sensor.replies == r.sensor.replies[span.value..]
        && |st.run.log| == |r.log| + span.value
        && st.run.events == r.events + Cues(cue, span.value - 1)
    decreases |r.sensor.replies|
  {
    var rs := r.sensor.replies;
    if |rs| > 0 && rs[0].Code? && rs[0] != Code(NOFINGER) {
      AwaitWaits(r, cue);
      var r1 := Cue(Issue(r, GetImage).run, cue);
      AwaitTrace(r1, cue);
      if RemovalSpan(rs[1..]).Some? {
        var k := RemovalSpan(rs[1..]).value;
        assert rs[1..][k..] == rs[k + 1..];
        assert Cues(cue, k) == Cues(cue, 1) + Cues(cue, k - 1) by {
          if cue.Some? {
            assert Repeat(cue.value, k) == [cue.value] + Repeat(cue.value, k - 1);
          }
        }
      }
    }
  }

  /**
   * `_enroll()`: capture into buffer 1, wait for the finger to leave,
   * capture into buffer 2, combine. False when either capture fails or the
   * buffers do not combine.
   */
  function Enroll<E>(r: Run<E>, timeout: nat): (st: Step<bool, E>)
    ensures Extends(r, st.run) && st.run.events == r.events && st.run.sensor.image == r.sensor.image
    ensures st.Done? && st.value ==>
      |st.run.log| > 0 && st.run.log[|st.run.log| - 1] == Exchange(CreateModel, Code(OK))
  {
    match SilentCapture(r, timeout, 1)
    case Threw(e, r1) => Threw(e, r1)
    case Done(false, r1) => Done(false, r1)
    case Done(true, r1) => SecondPlacement(r1, timeout)
  }

  /** After the first capture: wait for removal, capture into buffer 2, combine. */
  function SecondPlacement<E>(r: Run<E>, timeout: nat): (st: Step<bool, E>)
    ensures Extends(r, st.run) && st.run.events == r.events && st.run.sensor.image == r.sensor.image
    ensures st.Done? && st.value ==>
      |st.run.log| > 0 && st.run.log[|st.run.log| - 1] == Exchange(CreateModel, Code(OK))
  {
    match AwaitRemoval(r, None)
    case Threw(e, r2) => Threw(e, r2)
    case Done(_, r2) => FinalCapture(r2, timeout)
  }

  /** Capture the same finger into buffer 2 and combine the buffers. */
  function FinalCapture<E>(r: Run<E>, timeout: nat): (st: Step<bool, E>)
    ensures Extends(r, st.run) && st.run.events == r.events && st.run.sensor.image == r.sensor.image
    ensures st.Done? && st.value ==>
      |st.run.log| > 0 && st.run.log[|st.run.log| - 1] == Exchange(CreateModel, Code(OK))
  {
    match SilentCapture(r, timeout, 2)
    case Threw(e, r1) => Threw(e, r1)
    case Done(false, r1) => Done(false, r1)
    case Done(true, r1) => CheckPrints(r1)
  }

  /**
   * The success condition of both older enrollments, read off the script:
   * a capture, then a normal removal wait, a second capture and an OK
   * combine, in that order.
   */
  predicate EnrollsBy(rs: seq<Reply>, timeout: nat) {
    match CaptureSpan(rs, timeout)
    case None => false
    case Some(n) => SecondPlacementBy(rs[n..], timeout)
  }

  /** The success condition once the first capture has consumed its span. */
  predicate SecondPlacementBy(rs: seq<Reply>, timeout: nat) {
    match RemovalSpan(rs)
    case None => false
    case Some(m) => FinalCaptureBy(rs[m..], timeout)
  }

  /** The success condition of the second capture and the combine. */
  predicate FinalCaptureBy(rs: seq<Reply>, timeout: nat) {
    match CaptureSpan(rs, timeout)
    case None => false
    case Some(p) => Nth(rs, p) == Code(OK)
  }

  lemma FinalCaptureFollowsScript<E>(r: Run<E>, timeout: nat)
    ensures var st := FinalCapture(r, timeout);
      st.Done? && st.value <==> FinalCaptureBy(r.sensor.replies, timeout)
  {
    var c := Capture(r, timeout, 2, None);
    CaptureBySpan(r, timeout, 2, None);
    if c.Done? && c.value {
      CapturedShape(r, timeout, 2, None);
      NthSuffix(r.sensor.replies, CaptureSpan(r.sensor.replies, timeout).value, 0);
    }
  }

  lemma SecondPlacementFollowsScript<E>(r: Run<E>, timeout: nat)
    ensures var st := SecondPlacement(r, timeout);
      st.Done? && st.value <==> SecondPlacementBy(r.sensor.replies, timeout)
  {
    AwaitBySpan(r, None);
    var w := AwaitRemoval(r, None);
    if w.Done? {
      FinalCaptureFollowsScript(w.run, timeout);
    }
  }

  /** The oldest `_enroll` succeeds exactly when the script says it does. */
  lemma EnrollFollowsScript<E>(r: Run<E>, timeout: nat)
    ensures var st := Enroll(r, timeout);
      st.Done? && st.value <==> EnrollsBy(r.sensor.replies, timeout)
  {
    var rs := r.sensor.replies;
    var c1 := Capture(r, timeout, 1, None);
    CaptureBySpan(r, timeout, 1, None);
    if c1.Done? && c1.value {
      CapturedShape(r, timeout, 1, None);
      var n := CaptureSpan(rs, timeout).value;
      SecondPlacementFollowsScript(c1.run, timeout);
    }
  }

  /** A failed first capture ends `_enroll` with false before any command touches buffer 2. */
  lemma EnrollStopsAfterFirstCapture<E>(r: Run<E>, timeout: nat)
    requires CaptureSpan(r.sensor.replies, timeout).None?
    ensures var st := Enroll(r, timeout);
      && (st.Done? ==> !st.value)
      && forall i :: |r.log| <= i < |st.run.log| ==> (st.run.log[i].cmd == GetImage || st.run.log[i].cmd == Image2Tz(1))
  {
    CaptureBySpan(r, timeout, 1, None);
    PollCommands(r, timeout, 0, 1, None);
    var st := Enroll(r, timeout);
    var c := Poll(r, timeout, 0, 1, None);
    assert st.run == c.run;
    forall i | |r.log| <= i < |st.run.log|
      ensures st.run.log[i].cmd == GetImage || st.run.log[i].cmd == Image2Tz(1)
    {
      assert c.run.log[i].cmd == GetImage || c.run.log[i].cmd == Image2Tz(1);
    }
  }

  /** What `get_raw()` returns: the model's bytes, or False. */
  datatype Raw = Template(data: seq<int>) | NoTemplate

  /** `get_raw()`: read buffer 1 out of the sensor only after a successful `_enroll`. */
  function GetRaw<E>(r: Run<E>, timeout: nat): (st: Step<Raw, E>)
    ensures Extends(r, st.run) && st.run.events == r.events
    ensures var e := Enroll(r, timeout);
      && (e.Threw? ==> st == Threw(e.exc, e.run))
      && (e.Done? && !e.value ==> st == Done(NoTemplate, e.run))
      && (e.Done? && e.value ==>
            && st.run.log == e.run.log + [Exchange(GetFpData(1), Nth(e.run.sensor.replies, 0))]
            && (st.Done? <==> Nth(e.run.sensor.replies, 0).Code?)
            && (st.Done? ==> st.value == Template(r.sensor.image)))
  {
    match Enroll(r, timeout)
    case Threw(e, r1) => Threw(e, r1)
    case Done(false, r1) => Done(NoTemplate, r1)
    case Done(true, r1) =>
      var a := Issue(r1, GetFpData(1));
      match a.reply
      case Raise(e) => Threw(e, a.run)
      case Code(_) => Done(Template(a.run.sensor.image), a.run)
  }
}
