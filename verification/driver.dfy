/**
 * The abstract fingerprint sensor. Every driver call the workflows make is
 * answered from one scripted queue of replies, in call order; a call made
 * after the script is exhausted raises, as a disconnected sensor would.
 * Workflows thread a `Run`: the sensor, the status events emitted so far and
 * the log of every exchange (command issued, reply received).
 */
module Driver {

  /** Driver return codes the core names, spelled as the driver spells them; `Other` is any code it does not name. */
  datatype Code =
    | OK | NOFINGER | IMAGEFAIL | IMAGEMESS | FEATUREFAIL | INVALIDIMAGE
    | ENROLLMISMATCH | NOTFOUND | Other(raw: int)

  /** Exceptions that can cross a workflow boundary. */
  datatype Exc =
    | TypeError | KeyError | AttributeError | ValueError
    | InvalidTag | FileNotFound | DriverError

  /** What one driver call produced: a return code, or an exception. */
  datatype Reply = Code(code: Code) | Raise(exc: Exc)

  /** The driver operations the core issues. */
  datatype Command =
    | GetImage
    | Image2Tz(buffer: int)
    | CreateModel
    | GetFpData(slot: int)
    | SendFpData(data: seq<int>)
    | StoreModel(slot: int, buffer: int)
    | DeleteModel(slot: int)
    | ReadTemplates
    | ReadSysparam
    | CountTemplates
    | FingerSearch
    | EmptyLibrary

  datatype Exchange = Exchange(cmd: Command, reply: Reply)

  /**
   * The sensor: its library capacity, the slots that really hold a model,
   * the driver's cached `templates` list (refreshed only by a successful
   * ReadTemplates), the scripted replies still to come, the bytes its image
   * buffer hands out, and the match a successful search reports.
   */
  datatype Sensor = Sensor(
    librarySize: int,
    library: set<int>,
    templates: seq<int>,
    replies: seq<Reply>,
    image: seq<int>,
    fingerId: int,
    confidence: int)

  datatype Run<E> = Run(sensor: Sensor, events: seq<E>, log: seq<Exchange>)

  /** The result of one driver call. */
  datatype Answer<E> = Answer(reply: Reply, run: Run<E>)

  /** A step of a workflow: it returned a value, or it raised. */
  datatype Step<T, E> = Done(value: T, run: Run<E>) | Threw(exc: Exc, run: Run<E>)

  /** The slots below `n` that hold a model, in ascending order. */
  function Listing(library: set<int>, n: int): (l: seq<int>)
    ensures forall x :: x in l <==> 0 <= x < n && x in library
    ensures forall i, j :: 0 <= i < j < |l| ==> l[i] < l[j]
    decreases if n < 0 then 0 else n
  {
    if n <= 0 then []
    else
      var below := Listing(library, n - 1);
      assert forall i :: 0 <= i < |below| ==> below[i] in below;
      below + (if n - 1 in library then [n - 1] else [])
  }

  /** How a reply to command `c` changes what the sensor holds. */
  function Effect(s: Sensor, c: Command, reply: Reply): Sensor {
    if reply != Code(OK) then s
    else match c
      case StoreModel(slot, _) => s.(library := s.library + {slot})
      case DeleteModel(slot) => s.(library := s.library - {slot})
      case EmptyLibrary => s.(library := {})
      case ReadTemplates => s.(templates := Listing(s.library, s.librarySize))
      case _ => s
  }

  /** Issue command `c`: take the next scripted reply, log the exchange, apply its effect. */
  function Issue<E>(r: Run<E>, c: Command): (a: Answer<E>)
    ensures a.run.log == r.log + [Exchange(c, a.reply)]
    ensures a.run.events == r.events
    ensures |r.sensor.replies| == 0 ==> a.reply == Raise(DriverError) && a.run.sensor == r.sensor
    ensures |r.sensor.replies| > 0 ==>
      a.reply == r.sensor.replies[0] && a.run.sensor.replies == r.sensor.replies[1..]
    ensures a.run.sensor.librarySize == r.sensor.librarySize
    ensures a.run.sensor.image == r.sensor.image
    ensures a.run.sensor.fingerId == r.sensor.fingerId
    ensures a.run.sensor.confidence == r.sensor.confidence
  {
    if |r.sensor.replies| == 0 then
      Answer(Raise(DriverError), r.(log := r.log + [Exchange(c, Raise(DriverError))]))
    else
      var reply := r.sensor.replies[0];
      var s := Effect(r.sensor.(replies := r.sensor.replies[1..]), c, reply);
      Answer(reply, Run(s, r.events, r.log + [Exchange(c, reply)]))
  }

  /** Append one status event. */
  function Emit<E>(r: Run<E>, e: E): (r': Run<E>)
    ensures r'.events == r.events + [e] && r'.log == r.log && r'.sensor == r.sensor
  {
    r.(events := r.events + [e])
  }
}
