/**
 * The base sensor service: the response builder, the image-to-template
 * conversion, the capture poll loop, library clearing and the info report.
 * Capture is generic in the event type because the older snapshots poll
 * the same way but announce nothing while they wait.
 */
module SensorService {
  import opened Wrappers
  import opened Driver
  import opened Status

  /** A value stored in a response dictionary. */
  datatype Value =
    | StatusV(status: SensorStatus)
    | Text(text: string)
    | Int(number: int)
    | Ints(ints: seq<int>)
    | NoneV

  type Response = map<string, Value>

  /**
   * `response(status=FAIL, **kwargs)`: `status` is the one positional
   * parameter, so further positional arguments raise TypeError; a keyword
   * named `status` always binds to the parameter and never reaches kwargs.
   */
  function Respond(status: Option<SensorStatus>, extra: seq<Value>, kwargs: Response): (res: Result<Response, Exc>)
    requires "status" !in kwargs
    ensures res.Err? <==> |extra| > 0
    ensures res.Err? ==> res.error == TypeError
    ensures res.Ok? ==>
      && res.value.Keys == kwargs.Keys + {"status", "message"}
      && res.value["status"] == StatusV(status.GetOr(Fail))
      && res.value["message"] == (if "message" in kwargs then kwargs["message"] else Text(Name(status.GetOr(Fail))))
      && (forall k :: k in kwargs && k != "message" ==> res.value[k] == kwargs[k])
  {
    if |extra| > 0 then Err(TypeError)
    else
      var s := status.GetOr(Fail);
      var message := if "message" in kwargs then kwargs["message"] else Text(Name(s));
      Ok(map["status" := StatusV(s), "message" := message] + (kwargs - {"message"}))
  }

  /** A workflow's returned response together with the run that produced it. */
  datatype Reported = Reported(response: Response, run: Run<SensorStatus>)

  /** `response.get("status")`. */
  function StatusOf(resp: Response): Value {
    if "status" in resp then resp["status"] else NoneV
  }

  /** A response with no message and no extra fields. */
  function Plain(s: SensorStatus): (resp: Response)
    ensures StatusOf(resp) == StatusV(s) && resp.Keys == {"status", "message"}
  {
    Respond(Some(s), [], map[]).value
  }

  /** The reply at position `i` of a script; past its end, a call raises. */
  function Nth(rs: seq<Reply>, i: nat): Reply {
    if i < |rs| then rs[i] else Raise(DriverError)
  }

  /** The number of leading no-finger replies in a script. */
  function Leading(rs: seq<Reply>): (k: nat)
    ensures k <= |rs|
    ensures forall i :: 0 <= i < k ==> rs[i] == Code(NOFINGER)
    ensures Nth(rs, k) != Code(NOFINGER)
  {
    if |rs| > 0 && rs[0] == Code(NOFINGER) then 1 + Leading(rs[1..]) else 0
  }

  /** `_template(buffer)`: convert the captured image into a feature template in `buffer`. */
  function Template<E>(r: Run<E>, buffer: int): (st: Step<bool, E>)
    ensures st.run.log == r.log + [Exchange(Image2Tz(buffer), Nth(r.sensor.replies, 0))]
    ensures st.run.events == r.events
    ensures st.Threw? <==> Nth(r.sensor.replies, 0).Raise?
    ensures st.Done? ==> (st.value <==> Nth(r.sensor.replies, 0) == Code(OK))
  {
    var a := Issue(r, Image2Tz(buffer));
    match a.reply
    case Raise(e) => Threw(e, a.run)
    case Code(c) => Done(c == OK, a.run)
  }

  /** Emit the waiting cue, if the poll loop has one. */
  function Cue<E>(r: Run<E>, cue: Option<E>): Run<E> {
    match cue
    case Some(e) => Emit(r, e)
    case None => r
  }

  /** The run `r'` extends `r`: its log and events keep `r`'s as a prefix. */
  ghost predicate Extends<E>(r: Run<E>, r': Run<E>) {
    r.log <= r'.log && r.events <= r'.events
  }

  /**
   * `capture(timeout, buffer)`: poll for a finger while `elapsed <= timeout`,
   * one time unit passing per no-finger poll; return true once an image is
   * captured and converted into `buffer`. A failed conversion, an imaging
   * error or an unknown code ends the loop at once with false.
   */
  function Capture<E>(r: Run<E>, timeout: nat, buffer: int, cue: Option<E>): Step<bool, E> {
    Poll(r, timeout, 0, buffer, cue)
  }

  function Poll<E>(r: Run<E>, timeout: nat, elapsed: nat, buffer: int, cue: Option<E>): (st: Step<bool, E>)
    ensures Extends(r, st.run)
    ensures st.run.sensor.library == r.sensor.library
    ensures st.run.sensor.templates == r.sensor.templates
    ensures st.run.sensor.librarySize == r.sensor.librarySize
    ensures st.run.sensor.image == r.sensor.image
    ensures st.Done? && st.value ==>
      && |st.run.log| >= |r.log| + 2
      && st.run.log[|st.run.log| - 2] == Exchange(GetImage, Code(OK))
      && st.run.log[|st.run.log| - 1] == Exchange(Image2Tz(buffer), Code(OK))
    decreases timeout - elapsed
  {
    if elapsed > timeout then Done(false, r)
    else
      var a := Issue(r, GetImage);
      match a.reply
      case Raise(e) => Threw(e, a.run)
      case Code(c) =>
        if c == OK then
          // a failed conversion falls through to the loop's final break
          Template(a.run, buffer)
        else if c == NOFINGER then
          Poll(Cue(a.run, cue), timeout, elapsed + 1, buffer, cue)
        else
          Done(false, a.run)
  }

  /** Every exchange in `log` from position `from` on is an image poll or a conversion into `buffer`. */
  ghost predicate CaptureCommandsFrom(log: seq<Exchange>, from: nat, buffer: int) {
    forall i :: from <= i < |log| ==> log[i].cmd == GetImage || log[i].cmd == Image2Tz(buffer)
  }

  /** Every event in `events` from position `from` on is the cue. */
  ghost predicate CuesFrom<E>(events: seq<E>, from: nat, cue: Option<E>) {
    forall i :: from <= i < |events| ==> cue == Some(events[i])
  }

  /** A poll loop issues nothing but image polls and conversions into its own buffer. */
  lemma {:induction false} PollCommands<E>(r: Run<E>, timeout: nat, elapsed: nat, buffer: int, cue: Option<E>)
    ensures CaptureCommandsFrom(Poll(r, timeout, elapsed, buffer, cue).run.log, |r.log|, buffer)
    decreases timeout - elapsed
  {
    if elapsed <= timeout {
      var st := Poll(r, timeout, elapsed, buffer, cue);
      var a := Issue(r, GetImage);
      var r1 := Cue(a.run, cue);
      assert r1.log == a.run.log == r.log + [Exchange(GetImage, a.reply)];
      if a.reply == Code(NOFINGER) {
        assert st == Poll(r1, timeout, elapsed + 1, buffer, cue);
        PollCommands(r1, timeout, elapsed + 1, buffer, cue);
      } else if a.reply == Code(OK) {
        assert st == Template(a.run, buffer);
      } else {
        assert st.run == a.run;
      }
      forall i | |r.log| <= i < |st.run.log|
        ensures st.run.log[i].cmd == GetImage || st.run.log[i].cmd == Image2Tz(buffer)
      {
        if i == |r.log| {
          assert st.run.log[..|a.run.log|] == a.run.log;
          assert st.run.log[i] == a.run.log[i] == Exchange(GetImage, a.reply);
        } else if a.reply == Code(NOFINGER) {
          assert |r1.log| <= i < |Poll(r1, timeout, elapsed + 1, buffer, cue).run.log|;
          assert Poll(r1, timeout, elapsed + 1, buffer, cue).run.log[i].cmd == GetImage
              || Poll(r1, timeout, elapsed + 1, buffer, cue).run.log[i].cmd == Image2Tz(buffer);
        } else {
          assert a.reply == Code(OK) && i == |a.run.log|;
          assert st.run.log[i] == Exchange(Image2Tz(buffer), Nth(a.run.sensor.replies, 0));
        }
      }
    }
  }

  /** A poll loop emits nothing but its cue. */
  lemma {:induction false} PollCuesOnly<E>(r: Run<E>, timeout: nat, elapsed: nat, buffer: int, cue: Option<E>)
    ensures CuesFrom(Poll(r, timeout, elapsed, buffer, cue).run.events, |r.events|, cue)
    decreases timeout - elapsed
  {
    if elapsed <= timeout {
      var st := Poll(r, timeout, elapsed, buffer, cue);
      var a := Issue(r, GetImage);
      var r1 := Cue(a.run, cue);
      if a.reply == Code(NOFINGER) {
        assert st == Poll(r1, timeout, elapsed + 1, buffer, cue);
        PollCuesOnly(r1, timeout, elapsed + 1, buffer, cue);
        assert r1.events == r.events + Cues(cue, 1);
        forall i | |r.events| <= i < |st.run.events|
          ensures cue == Some(st.run.events[i])
        {
          if i < |r1.events| {
            assert st.run.events[..|r1.events|] == r1.events;
            assert cue.Some? && st.run.events[i] == r1.events[i] == cue.value;
          } else {
            assert cue == Some(Poll(r1, timeout, elapsed + 1, buffer, cue).run.events[i]);
          }
        }
      }
    }
  }

  /** Reading a script from position `m` on is reading the whole script shifted by `m`. */
  lemma NthSuffix(rs: seq<Reply>, m: nat, i: nat)
    requires m <= |rs|
    ensures Nth(rs[m..], i) == Nth(rs, m + i)
  {
  }

  /** A poll loop leaves the sensor's last search result alone. */
  lemma {:induction false} PollKeepsMatch<E>(r: Run<E>, timeout: nat, elapsed: nat, buffer: int, cue: Option<E>)
    ensures var st := Poll(r, timeout, elapsed, buffer, cue);
      st.run.sensor.fingerId == r.sensor.fingerId && st.run.sensor.confidence == r.sensor.confidence
    decreases timeout - elapsed
  {
    if elapsed <= timeout {
      var a := Issue(r, GetImage);
      if a.reply == Code(NOFINGER) {
        PollKeepsMatch(Cue(a.run, cue), timeout, elapsed + 1, buffer, cue);
      }
    }
  }

  /** After one driver call the script reads on from its second reply; an exhausted script stays exhausted. */
  lemma NthAfterIssue<E>(r: Run<E>, c: Command, i: nat)
    ensures Nth(Issue(r, c).run.sensor.replies, i) == Nth(r.sensor.replies, i + 1)
  {
  }

  /** `n` copies of `x`. */
  function Repeat<T>(x: T, n: nat): (s: seq<T>)
    ensures |s| == n && forall i :: 0 <= i < n ==> s[i] == x
  {
    if n == 0 then [] else [x] + Repeat(x, n - 1)
  }

  /** The events `n` waiting polls emit. */
  function Cues<E>(cue: Option<E>, n: nat): seq<E> {
    match cue
    case Some(e) => Repeat(e, n)
    case None => []
  }

  /** One waiting poll: a no-finger reply within the budget is logged, cued, and the loop goes on. */
  lemma PollWaits<E>(r: Run<E>, timeout: nat, elapsed: nat, buffer: int, cue: Option<E>)
    requires elapsed <= timeout
    requires |r.sensor.replies| > 0 && r.sensor.replies[0] == Code(NOFINGER)
    ensures var r1 := Cue(Issue(r, GetImage).run, cue);
      && Poll(r, timeout, elapsed, buffer, cue) == Poll(r1, timeout, elapsed + 1, buffer, cue)
      && r1.sensor.replies == r.sensor.replies[1..]
      && r1.log == r.log + [Exchange(GetImage, Code(NOFINGER))]
      && r1.events == r.events + Cues(cue, 1)
  {
    var a := Issue(r, GetImage);
    assert a.reply == Code(NOFINGER);
    assert Repeat(Exchange(GetImage, Code(NOFINGER)), 1) == [Exchange(GetImage, Code(NOFINGER))];
  }

  /**
   * A finger that does not show within the budget: when the script opens
   * with more no-finger replies than polls remain, the loop polls exactly
   * `timeout - elapsed + 1` times, cueing after each poll, and ends in false.
   */
  lemma PollTimesOut<E>(r: Run<E>, timeout: nat, elapsed: nat, buffer: int, cue: Option<E>)
    requires elapsed <= timeout
    requires Leading(r.sensor.replies) > timeout - elapsed
    ensures var st := Poll(r, timeout, elapsed, buffer, cue);
      && st == Done(false, st.run)
      && st.run.log == r.log + Repeat(Exchange(GetImage, Code(NOFINGER)), timeout - elapsed + 1)
      && st.run.events == r.events + Cues(cue, timeout - elapsed + 1)
      && st.run.sensor.replies == r.sensor.replies[timeout - elapsed + 1..]
  {
    PollExpires(r, timeout, elapsed, buffer, cue);
    PollExpiresTrace(r, timeout, elapsed, buffer, cue);
  }

  /** The outcome half of `PollTimesOut`: false, with the waiting replies consumed. */
  lemma {:induction false} PollExpires<E>(r: Run<E>, timeout: nat, elapsed: nat, buffer: int, cue: Option<E>)
    requires elapsed <= timeout
    requires Leading(r.sensor.replies) > timeout - elapsed
    ensures var st := Poll(r, timeout, elapsed, buffer, cue);
      && st == Done(false, st.run)
      && st.run.sensor.replies == r.sensor.replies[timeout - elapsed + 1..]
    decreases timeout - elapsed
  {
    var rs := r.sensor.replies;
    assert rs[0] == Code(NOFINGER);
    PollWaits(r, timeout, elapsed, buffer, cue);
    var r1 := Cue(Issue(r, GetImage).run, cue);
    var n := timeout - elapsed;
    if elapsed < timeout {
      assert Leading(rs) == 1 + Leading(rs[1..]);
      PollExpires(r1, timeout, elapsed + 1, buffer, cue);
      assert r1.sensor.replies[n..] == rs[n + 1..];
    } else {
      assert Poll(r1, timeout, elapsed + 1, buffer, cue) == Done(false, r1);
    }
  }

  /** The trace half of `PollTimesOut`: one logged poll and one cue per time unit. */
  lemma {:induction false} PollExpiresTrace<E>(r: Run<E>, timeout: nat, elapsed: nat, buffer: int, cue: Option<E>)
    requires elapsed <= timeout
    requires Leading(r.sensor.replies) > timeout - elapsed
    ensures var st := Poll(r, timeout, elapsed, buffer, cue);
      && st.run.log == r.log + Repeat(Exchange(GetImage, Code(NOFINGER)), timeout - elapsed + 1)
      && st.run.events == r.events + Cues(cue, timeout - elapsed + 1)
    decreases timeout - elapsed
  {
    var rs := r.sensor.replies;
    assert rs[0] == Code(NOFINGER);
    PollWaits(r, timeout, elapsed, buffer, cue);
    var r1 := Cue(Issue(r, GetImage).run, cue);
    var n := timeout - elapsed;
    var x := Exchange(GetImage, Code(NOFINGER));
    if elapsed < timeout {
      assert Leading(rs) == 1 + Leading(rs[1..]);
      PollExpiresTrace(r1, timeout, elapsed + 1, buffer, cue);
      assert Repeat(x, n + 1) == [x] + Repeat(x, n);
      assert Cues(cue, n + 1) == Cues(cue, 1) + Cues(cue, n);
    } else {
      assert Poll(r1, timeout, elapsed + 1, buffer, cue) == Done(false, r1);
      assert Repeat(x, 1) == [x];
    }
  }

  /**
   * Within the budget, the loop is decided by the first reply that is not
   * NOFINGER (position `k`): it returns true exactly when that reply and
   * the conversion reply after it are both OK, raises exactly when one of
   * those two raised, and otherwise returns false.
   */
  lemma {:induction false} PollDecided<E>(r: Run<E>, timeout: nat, elapsed: nat, buffer: int, cue: Option<E>)
    requires elapsed <= timeout
    requires Leading(r.sensor.replies) <= timeout - elapsed
    ensures var st := Poll(r, timeout, elapsed, buffer, cue);
      var rs := r.sensor.replies;
      var k := Leading(rs);
      var d := Nth(rs, k);
      && (st.Done? && st.value <==> d == Code(OK) && Nth(rs, k + 1) == Code(OK))
      && (st.Threw? <==> d.Raise? || (d == Code(OK) && Nth(rs, k + 1).Raise?))
    decreases timeout - elapsed
  {
    var rs := r.sensor.replies;
    var a := Issue(r, GetImage);
    var k := Leading(rs);
    NthAfterIssue(r, GetImage, 0);
    if k > 0 {
      PollWaits(r, timeout, elapsed, buffer, cue);
      var r1 := Cue(a.run, cue);
      assert k == 1 + Leading(rs[1..]);
      PollDecided(r1, timeout, elapsed + 1, buffer, cue);
      NthSuffix(rs, 1, k - 1);
      NthSuffix(rs, 1, k);
    }
  }

  /**
   * Within the budget the loop logs its `k` empty polls and then only the
   * decisive image and, after an OK image, the one conversion: nothing
   * further is polled.
   */
  lemma {:induction false} PollDecidedLog<E>(r: Run<E>, timeout: nat, elapsed: nat, buffer: int, cue: Option<E>)
    requires elapsed <= timeout
    requires Leading(r.sensor.replies) <= timeout - elapsed
    ensures var st := Poll(r, timeout, elapsed, buffer, cue);
      var k := Leading(r.sensor.replies);
      && |st.run.log| == |r.log| + k + (if Nth(r.sensor.replies, k) == Code(OK) then 2 else 1)
      && st.run.log[..|r.log| + k] == r.log + Repeat(Exchange(GetImage, Code(NOFINGER)), k)
    decreases timeout - elapsed
  {
    var rs := r.sensor.replies;
    var st := Poll(r, timeout, elapsed, buffer, cue);
    var k := Leading(rs);
    if k > 0 {
      PollWaits(r, timeout, elapsed, buffer, cue);
      var r1 := Cue(Issue(r, GetImage).run, cue);
      assert k == 1 + Leading(rs[1..]);
      PollDecidedLog(r1, timeout, elapsed + 1, buffer, cue);
      NthSuffix(rs, 1, k - 1);
      var x := Exchange(GetImage, Code(NOFINGER));
      assert Repeat(x, k) == [x] + Repeat(x, k - 1);
      assert st.run.log[..|r.log| + k] == st.run.log[..|r1.log| + k - 1];
    }
  }

  /** Within the budget the loop emits one cue per empty poll before the decisive reply. */
  lemma {:induction false} PollDecidedCues<E>(r: Run<E>, timeout: nat, elapsed: nat, buffer: int, cue: Option<E>)
    requires elapsed <= timeout
    requires Leading(r.sensor.replies) <= timeout - elapsed
    ensures Poll(r, timeout, elapsed, buffer, cue).run.events == r.events + Cues(cue, Leading(r.sensor.replies))
    decreases timeout - elapsed
  {
    var rs := r.sensor.replies;
    var k := Leading(rs);
    if k > 0 {
      PollWaits(r, timeout, elapsed, buffer, cue);
      var r1 := Cue(Issue(r, GetImage).run, cue);
      assert k == 1 + Leading(rs[1..]);
      PollDecidedCues(r1, timeout, elapsed + 1, buffer, cue);
      assert Cues(cue, k) == Cues(cue, 1) + Cues(cue, k - 1);
    }
  }

  /**
   * The capture outcome read off the script alone: when the first reply that
   * is not NOFINGER comes within the budget and it and the conversion reply
   * after it are both OK, the number of replies a successful capture
   * consumes; otherwise None.
   */
  function CaptureSpan(rs: seq<Reply>, timeout: nat): (span: Option<nat>)
    ensures span.Some? ==> 2 <= span.value <= |rs|
  {
    var k := Leading(rs);
    if k <= timeout && Nth(rs, k) == Code(OK) && Nth(rs, k + 1) == Code(OK) then Some(k + 2) else None
  }

  /** The image replies a successful capture logs: `k` empty polls, an image, a conversion into `buffer`. */
  function CapturedLog(k: nat, buffer: int): seq<Exchange> {
    Repeat(Exchange(GetImage, Code(NOFINGER)), k)
      + [Exchange(GetImage, Code(OK)), Exchange(Image2Tz(buffer), Code(OK))]
  }

  /** Capture succeeds exactly when the script says it does. */
  lemma CaptureBySpan<E>(r: Run<E>, timeout: nat, buffer: int, cue: Option<E>)
    ensures var st := Capture(r, timeout, buffer, cue);
      st.Done? && st.value <==> CaptureSpan(r.sensor.replies, timeout).Some?
  {
    if Leading(r.sensor.replies) > timeout {
      PollTimesOut(r, timeout, 0, buffer, cue);
    } else {
      PollDecided(r, timeout, 0, buffer, cue);
    }
  }

  /**
   * A successful capture consumes exactly the replies its span counts, logs
   * the empty polls, the image and the conversion into `buffer`, and emits
   * one cue per empty poll.
   */
  lemma CapturedShape<E>(r: Run<E>, timeout: nat, buffer: int, cue: Option<E>)
    requires Capture(r, timeout, buffer, cue).Done? && Capture(r, timeout, buffer, cue).value
    ensures var st := Capture(r, timeout, buffer, cue);
      var k := Leading(r.sensor.replies);
      && CaptureSpan(r.sensor.replies, timeout) == Some(k + 2)
      && st.run.sensor.replies == r.sensor.replies[k + 2..]
      && st.run.log == r.log + CapturedLog(k, buffer)
      && st.run.events == r.events + Cues(cue, k)
  {
    var rs := r.sensor.replies;
    var st := Poll(r, timeout, 0, buffer, cue);
    var k := Leading(rs);
    CaptureBySpan(r, timeout, buffer, cue);
    PollDecidedLog(r, timeout, 0, buffer, cue);
    PollDecidedCues(r, timeout, 0, buffer, cue);
    var n := |r.log| + k;
    LastTwo(st.run.log, r.log + Repeat(Exchange(GetImage, Code(NOFINGER)), k),
      Exchange(GetImage, Code(OK)), Exchange(Image2Tz(buffer), Code(OK)));
    ConsumedReplies(r, timeout, 0, buffer, cue);
  }

  /** A sequence two longer than a prefix it starts with is that prefix and its last two elements. */
  lemma LastTwo<T>(s: seq<T>, p: seq<T>, x: T, y: T)
    requires |s| == |p| + 2 && s[..|p|] == p && s[|s| - 2] == x && s[|s| - 1] == y
    ensures s == p + [x, y]
  {
    assert s == s[..|p|] + [s[|p|], s[|p| + 1]];
  }

  /** Every exchange a poll loop logs took one reply off the script. */
  lemma {:induction false} ConsumedReplies<E>(r: Run<E>, timeout: nat, elapsed: nat, buffer: int, cue: Option<E>)
    ensures var st := Poll(r, timeout, elapsed, buffer, cue);
      var used := |st.run.log| - |r.log|;
      st.Done? && st.value ==> used <= |r.sensor.replies| && st.run.sensor.replies == r.sensor.replies[used..]
    decreases timeout - elapsed
  {
    if elapsed <= timeout {
      var a := Issue(r, GetImage);
      if a.reply == Code(NOFINGER) {
        ConsumedReplies(Cue(a.run, cue), timeout, elapsed + 1, buffer, cue);
      }
    }
  }

  /** `clear_library()`: true exactly when the driver empties the library with OK; an exception gives false. */
  function ClearLibrary<E>(r: Run<E>): (st: Step<bool, E>)
    ensures st.Done?
    ensures st.run.log == r.log + [Exchange(EmptyLibrary, Nth(r.sensor.replies, 0))]
    ensures st.value <==> Nth(r.sensor.replies, 0) == Code(OK)
    ensures st.value ==> st.run.sensor.library == {}
    ensures !st.value ==> st.run.sensor.library == r.sensor.library
  {
    var a := Issue(r, EmptyLibrary);
    match a.reply
    case Raise(_) => Done(false, a.run)
    case Code(c) => Done(c == OK, a.run)
  }

  /** What `get_sensor_info()` reports. */
  datatype Info = Info(templatesList: seq<int>, templatesCount: nat, librarySize: int)

  /**
   * The count is the length of the cached list, whatever it holds; for a
   * list fresh from `read_templates` that is the number of occupied slots.
   */
  function SensorInfo(s: Sensor): (info: Info)
    ensures info.templatesList == s.templates && info.librarySize == s.librarySize
    ensures info.templatesCount == |info.templatesList|
    ensures s.templates == Listing(s.library, s.librarySize) ==>
      info.templatesCount == |Occupied(s.library, s.librarySize)|
  {
    ListingCount(s.library, s.librarySize);
    Info(s.templates, |s.templates|, s.librarySize)
  }

  /** The occupied slots below `n`. */
  function Occupied(library: set<int>, n: int): set<int> {
    set x | 0 <= x < n && x in library
  }

  /** A fresh listing has one entry per occupied slot below the capacity. */
  lemma {:induction false} ListingCount(library: set<int>, n: int)
    ensures |Listing(library, n)| == |Occupied(library, n)|
    decreases if n < 0 then 0 else n
  {
    if n <= 0 {
      assert Occupied(library, n) == {};
    } else {
      ListingCount(library, n - 1);
      if n - 1 in library {
        assert Listing(library, n) == Listing(library, n - 1) + [n - 1];
        assert n - 1 !in Occupied(library, n - 1);
        assert Occupied(library, n) == Occupied(library, n - 1) + {n - 1};
      } else {
        assert Listing(library, n) == Listing(library, n - 1);
        assert Occupied(library, n) == Occupied(library, n - 1);
      }
    }
  }
}
