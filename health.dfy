/** The health endpoint: four checks (database, transcription engine, audio
    input, LLM), each reported in `checks`, and an overall status that starts
    "healthy", falls to "unhealthy" when the database fails and to "degraded"
    when the engine is not installed or no input device answers. What each
    dependency answers is given as a `Probe`. */
module Health {
  import opened Wrappers
  import AppConfig
  import Capture

  /** A value inside one check's report. */
  datatype Field = Text(s: string) | Count(n: int) | Flag(b: bool)

  type Report = map<string, Field>

  /** The LLM settings the check reports. */
  datatype LlmSettings = LlmSettings(apiUrl: string, model: string)

  /** What each dependency answers: the database query succeeds or raises
      with a message; the `faster_whisper` import succeeds or not, with the
      loaded model's device (`actual_device`) and whether it is loaded; the
      device query gives the devices or raises with a message; the LLM client
      is available or not, with its settings. */
  datatype Probe = Probe(
    database: Option<string>,
    whisperInstalled: bool, config: Option<AppConfig.Config>,
    actualDevice: Option<string>, modelLoaded: bool,
    devices: Result<seq<Capture.DeviceInfo>, string>,
    llmAvailable: bool, llmConfig: Option<LlmSettings>)

  datatype HealthReply = HealthReply(status: string, service: string, checks: map<string, Report>)

  const Service := "openwhisper-backend"

  // ---------------------------------------------------------------------
  // The checks

  function DatabaseReport(p: Probe): Report {
    match p.database
    case None => map["status" := Text("ok")]
    case Some(message) => map["status" := Text("error"), "message" := Text(message)]
  }

  /** `actual_device or (configured device if config else "unknown")`: a
      missing or empty device falls back. */
  function ReportedDevice(p: Probe): string {
    if p.actualDevice.Some? && p.actualDevice.value != "" then p.actualDevice.value
    else if p.config.Some? then p.config.value.transcription.device
    else "unknown"
  }

  function TranscriptionReport(p: Probe): Report {
    if p.whisperInstalled then
      map["status" := Text("ok"), "engine" := Text("faster-whisper"),
          "model" := Text(if p.config.Some? then p.config.value.transcription.modelSize else "unknown"),
          "device" := Text(ReportedDevice(p)), "loaded" := Flag(p.modelLoaded)]
    else map["status" := Text("error"), "message" := Text("faster-whisper not installed")]
  }

  function AudioReport(p: Probe): Report {
    match p.devices
    case Failure(message) => map["status" := Text("error"), "message" := Text(message)]
    case Success(ds) =>
      var inputs := Capture.InputDevices(ds);
      if inputs != [] then map["status" := Text("ok"), "input_devices" := Count(|inputs|)]
      else map["status" := Text("error"), "message" := Text("No input devices found")]
  }

  function LlmReport(p: Probe): Report {
    if p.llmAvailable then
      map["status" := Text("ok"),
          "api_url" := Text(if p.llmConfig.Some? then p.llmConfig.value.apiUrl else "unknown"),
          "model" := Text(if p.llmConfig.Some? then p.llmConfig.value.model else "unknown")]
    else map["status" := Text("disabled")]
  }

  /** The check failed: its report's status is "error". */
  predicate Failed(r: Report) {
    "status" in r && r["status"] == Text("error")
  }

  // ---------------------------------------------------------------------
  // The overall status, as a severity

  /** 0 healthy, 1 degraded, 2 unhealthy. */
  function StatusName(severity: nat): string
    requires severity <= 2
  {
    if severity == 0 then "healthy" else if severity == 1 then "degraded" else "unhealthy"
  }

  function Max(a: nat, b: nat): nat {
    if a < b then b else a
  }

  /** The reference definition: the worst of what each failed check costs;
      the database counts as unhealthy, the engine and the audio input as
      degraded, the LLM not at all. */
  function Severity(p: Probe): (s: nat)
    ensures s <= 2
  {
    Max(if p.database.Some? then 2 else 0,
        Max(if p.whisperInstalled then 0 else 1, if Failed(AudioReport(p)) then 1 else 0))
  }

  /** `health_check()`, check by check. */
  method HealthCheck(p: Probe) returns (reply: HealthReply)
    ensures reply.status == StatusName(Severity(p))
    ensures reply.service == Service
    ensures reply.checks == map["database" := DatabaseReport(p), "transcription" := TranscriptionReport(p),
                                "audio" := AudioReport(p), "llm" := LlmReport(p)]
  {
    var checks: map<string, Report> := map[];
    var overall := "healthy";

    match p.database {
      case None =>
        checks := checks["database" := map["status" := Text("ok")]];
      case Some(message) =>
        checks := checks["database" := map["status" := Text("error"), "message" := Text(message)]];
        overall := "unhealthy";
    }

    checks := checks["transcription" := TranscriptionReport(p)];
    if !p.whisperInstalled {
      if overall == "healthy" {
        overall := "degraded";
      }
    }

    match p.devices {
      case Failure(message) =>
        checks := checks["audio" := map["status" := Text("error"), "message" := Text(message)]];
        if overall == "healthy" {
          overall := "degraded";
        }
      case Success(ds) =>
        var inputs := Capture.InputDevices(ds);
        if inputs != [] {
          checks := checks["audio" := map["status" := Text("ok"), "input_devices" := Count(|inputs|)]];
        } else {
          checks := checks["audio" := map["status" := Text("error"), "message" := Text("No input devices found")]];
          if overall == "healthy" {
            overall := "degraded";
          }
        }
    }

    checks := checks["llm" := LlmReport(p)];
    reply := HealthReply(overall, Service, checks);
  }

  // ---------------------------------------------------------------------
  // Properties of the reference definition

  /** The status is one of the three names. */
  lemma StatusIsOneOfThree(p: Probe)
    ensures StatusName(Severity(p)) in {"healthy", "degraded", "unhealthy"}
  {
  }

  /** A failed database check makes the service unhealthy, whatever the
      other checks say; only it does. */
  lemma DatabaseFailureIsUnhealthy(p: Probe)
    ensures StatusName(Severity(p)) == "unhealthy" <==> p.database.Some?
  {
  }

  /** "degraded" exactly when the database answers and the engine or the
      audio input fails: an unhealthy status is never raised to degraded. */
  lemma DegradedIffSecondaryFailure(p: Probe)
    ensures StatusName(Severity(p)) == "degraded"
            <==> p.database.None? && (!p.whisperInstalled || Failed(AudioReport(p)))
  {
  }

  /** The LLM check never changes the status. */
  lemma LlmIsIrrelevant(p: Probe, available: bool, settings: Option<LlmSettings>)
    ensures Severity(p.(llmAvailable := available, llmConfig := settings)) == Severity(p)
  {
  }

  /** The audio check fails exactly when the query raises or no device takes
      input; when it passes it counts exactly the devices `list_devices`
      lists. */
  lemma {:induction false} AudioCountsInputDevices(p: Probe)
    ensures Failed(AudioReport(p)) <==> p.devices.Failure? || Capture.InputDevices(p.devices.value) == []
    ensures !Failed(AudioReport(p)) ==>
              AudioReport(p)["input_devices"] == Count(|Capture.Listing(p.devices.value)|)
  {
    if p.devices.Success? {
      Capture.ListingCountsInputs(p.devices.value);
    }
  }
}
