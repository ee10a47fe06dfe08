/**
 * Workflow statuses and the LED feedback table that the status channel
 * looks up for each of them.
 */
module Status {

  /** The statuses a workflow emits; the last five are failures. */
  datatype SensorStatus =
    | PlaceFinger | RemoveFinger | PlaceSameFinger | Processing | Success
    | EnrollMismatch | Fail | StorageFull | LocationOccupied | NotFound

  /**
   * A status value as the code's revisions know it: the older workflows
   * also announce `Start`, which the current enumeration no longer has.
   */
  datatype Notice = Start | Said(status: SensorStatus)

  /** Every member, in declaration order. */
  const Members: seq<SensorStatus> :=
    [PlaceFinger, RemoveFinger, PlaceSameFinger, Processing, Success,
     EnrollMismatch, Fail, StorageFull, LocationOccupied, NotFound]

  /** The member's name as the enumeration spells it. */
  function Name(s: SensorStatus): string {
    match s
    case PlaceFinger => "PLACE_FINGER"
    case RemoveFinger => "REMOVE_FINGER"
    case PlaceSameFinger => "PLACE_SAME_FINGER"
    case Processing => "PROCESSING"
    case Success => "SUCCESS"
    case EnrollMismatch => "ENROLLMISMATCH"
    case Fail => "FAIL"
    case StorageFull => "STORAGE_FULL"
    case LocationOccupied => "LOCATION_OCCUPIED"
    case NotFound => "NOT_FOUND"
  }

  /** An LED mode: a dictionary of `color`, `mode`, `cycle` and `speed` settings. */
  type LedMode = map<string, int>

  function Mode(color: int, mode: int, cycle: int, speed: int): LedMode {
    map["color" := color, "mode" := mode, "cycle" := cycle, "speed" := speed]
  }

  /** The configured LED table. It has no "error" entry. */
  const LedConfig: map<string, LedMode> := map[
    "start" := Mode(7, 1, 0, 250),
    "fail" := Mode(1, 2, 20, 128),
    "p_finger" := Mode(2, 3, 0, 128),
    "r_finger" := Mode(6, 2, 0, 128),
    "process" := Mode(3, 1, 0, 128),
    "off" := Mode(5, 4, 0, 128),
    "success" := Mode(4, 3, 20, 128)]

  /** `settings.LED.get(key, {})`. */
  function ConfigMode(key: string): LedMode {
    if key in LedConfig then LedConfig[key] else map[]
  }

  /** The status-to-LED table: the configuration key each status looks up. */
  const LedMap: map<SensorStatus, LedMode> := map[
    PlaceFinger := ConfigMode("p_finger"),
    RemoveFinger := ConfigMode("r_finger"),
    PlaceSameFinger := ConfigMode("p_finger"),
    Processing := ConfigMode("process"),
    Success := ConfigMode("success"),
    EnrollMismatch := ConfigMode("error"),
    Fail := ConfigMode("error"),
    StorageFull := ConfigMode("error"),
    LocationOccupied := ConfigMode("error"),
    NotFound := ConfigMode("error")]

  /** The LED mode for a status value; any value the table lacks gets the empty mode. */
  function GetLedMode(key: Notice): (m: LedMode)
    ensures key.Said? ==> key.status in LedMap && m == LedMap[key.status]
    ensures key == Start ==> m == map[]
  {
    match key
    case Said(s) =>
      LedMapTotal(s);
      LedMap[s]
    case Start => map[]
  }

  /** The enumeration has exactly ten members, all distinct, and every status is one of them. */
  lemma MembersComplete(s: SensorStatus)
    ensures s in Members
    ensures |Members| == 10
    ensures forall i, j :: 0 <= i < j < |Members| ==> Members[i] != Members[j]
  {
  }

  /** The table has an entry for every member, so the lookup never falls back for a status. */
  lemma LedMapTotal(s: SensorStatus)
    ensures s in LedMap
  {
    match s
    case PlaceFinger =>
    case RemoveFinger =>
    case PlaceSameFinger =>
    case Processing =>
    case Success =>
    case EnrollMismatch =>
    case Fail =>
    case StorageFull =>
    case LocationOccupied =>
    case NotFound =>
  }

  /** Names identify members: distinct statuses have distinct names. */
  lemma NamesDistinct(a: SensorStatus, b: SensorStatus)
    ensures Name(a) == Name(b) <==> a == b
  {
  }

  /** Both placement prompts light the `p_finger` mode. */
  lemma PlacePromptsShareMode()
    ensures GetLedMode(Said(PlaceFinger)) == GetLedMode(Said(PlaceSameFinger)) == LedConfig["p_finger"]
  {
  }

  /**
   * The five failure statuses look up "error", which the configuration
   * lacks, so each resolves to the empty mode.
   */
  lemma FailuresHaveNoMode(s: SensorStatus)
    requires s in {EnrollMismatch, Fail, StorageFull, LocationOccupied, NotFound}
    ensures GetLedMode(Said(s)) == map[]
  {
    assert "error" !in LedConfig;
  }

  /** The five other statuses each get a configured, non-empty mode. */
  lemma PromptsHaveMode(s: SensorStatus)
    requires s == PlaceFinger || s == RemoveFinger || s == PlaceSameFinger || s == Processing || s == Success
    ensures GetLedMode(Said(s)) != map[]
  {
    var key := if s == PlaceFinger || s == PlaceSameFinger then "p_finger"
      else if s == RemoveFinger then "r_finger"
      else if s == Processing then "process"
      else "success";
    assert GetLedMode(Said(s)) == ConfigMode(key);
    assert "color" in LedConfig[key];
  }
}
