/** The application configuration: its sections, their defaults and the
    range and choice constraints the validator enforces when `config.yaml` is
    loaded. The YAML document is given already parsed, as a partial
    configuration in which every key may be missing; a missing key (or a
    missing or empty document) takes the default. Each given value is assumed
    to have the declared type (the validator's type coercion is not
    modelled). */
module AppConfig {
  import opened Wrappers

  /** `SUPPORTED_LANGUAGES`, in order. */
  const SupportedLanguages: seq<string> := ["fr", "en", "es", "pt", "hi", "de", "nl", "it", "ar", "ru", "zh", "ja", "ko"]

  const Devices: set<string> := {"cuda", "cpu", "auto"}
  const ComputeTypes: set<string> := {"float16", "float32", "int8", "int8_float16", "auto"}
  const Positions: set<string> := {"top-left", "top-right", "bottom-left", "bottom-right"}
  const OverlaySizes: set<string> := {"small", "medium"}

  datatype Shortcuts = Shortcuts(toggleDictation: string, toggleTranscription: string)

  datatype TranscriptionModel = TranscriptionModel(
    modelSize: string, device: string, computeType: string,
    beamSize: int, vadFilter: bool, bufferDurationS: real)

  datatype Audio = Audio(sampleRate: int, channels: int, device: string, chunkDurationMs: int)

  datatype Overlay = Overlay(
    enabled: bool, position: string, opacity: real, size: string,
    showLanguage: bool, showMode: bool, showDuration: bool)

  datatype Backend = Backend(host: string, port: int)

  /** `AppConfig`: `models` holds only the transcription model. */
  datatype Config = Config(
    language: string, shortcuts: Shortcuts, transcription: TranscriptionModel,
    audio: Audio, overlay: Overlay, dbPath: string, backend: Backend)

  // ---------------------------------------------------------------------
  // Defaults

  const DefaultShortcuts := Shortcuts("Ctrl+Shift+D", "Ctrl+Shift+T")
  const DefaultTranscription := TranscriptionModel("small", "auto", "auto", 5, true, 3.0)
  const DefaultAudio := Audio(16000, 1, "default", 80)
  const DefaultOverlay := Overlay(true, "top-right", 0.85, "small", true, false, false)
  const DefaultBackend := Backend("127.0.0.1", 8001)
  const DefaultConfig := Config("fr", DefaultShortcuts, DefaultTranscription, DefaultAudio,
                                DefaultOverlay, "./data/sessions.db", DefaultBackend)

  // ---------------------------------------------------------------------
  // The constraints

  predicate TranscriptionOk(t: TranscriptionModel) {
    t.device in Devices && t.computeType in ComputeTypes
    && 1 <= t.beamSize <= 20 && 1.0 <= t.bufferDurationS <= 10.0
  }

  predicate AudioOk(a: Audio) {
    1 <= a.channels <= 2 && 20 <= a.chunkDurationMs <= 500
  }

  predicate OverlayOk(o: Overlay) {
    o.position in Positions && 0.1 <= o.opacity <= 1.0 && o.size in OverlaySizes
  }

  /** Every constrained field within its bounds or among its choices. */
  predicate InRange(c: Config) {
    TranscriptionOk(c.transcription) && AudioOk(c.audio) && OverlayOk(c.overlay)
    && 1 <= c.backend.port <= 65535
  }

  // ---------------------------------------------------------------------
  // The parsed document

  datatype PartialShortcuts = PartialShortcuts(toggleDictation: Option<string>, toggleTranscription: Option<string>)

  datatype PartialTranscription = PartialTranscription(
    modelSize: Option<string>, device: Option<string>, computeType: Option<string>,
    beamSize: Option<int>, vadFilter: Option<bool>, bufferDurationS: Option<real>)

  datatype PartialAudio = PartialAudio(
    sampleRate: Option<int>, channels: Option<int>, device: Option<string>, chunkDurationMs: Option<int>)

  datatype PartialOverlay = PartialOverlay(
    enabled: Option<bool>, position: Option<string>, opacity: Option<real>, size: Option<string>,
    showLanguage: Option<bool>, showMode: Option<bool>, showDuration: Option<bool>)

  datatype PartialBackend = PartialBackend(host: Option<string>, port: Option<int>)

  /** The YAML document; `models` is the `models` section, whose
      `transcription` key is the inner option. */
  datatype Document = Document(
    language: Option<string>, shortcuts: Option<PartialShortcuts>,
    models: Option<Option<PartialTranscription>>, audio: Option<PartialAudio>,
    overlay: Option<PartialOverlay>, dbPath: Option<string>, backend: Option<PartialBackend>)

  const EmptyDocument := Document(None, None, None, None, None, None, None)

  function FillShortcuts(p: PartialShortcuts): Shortcuts {
    Shortcuts(p.toggleDictation.GetOr(DefaultShortcuts.toggleDictation),
              p.toggleTranscription.GetOr(DefaultShortcuts.toggleTranscription))
  }

  function FillTranscription(p: PartialTranscription): TranscriptionModel {
    var d := DefaultTranscription;
    TranscriptionModel(p.modelSize.GetOr(d.modelSize), p.device.GetOr(d.device),
                       p.computeType.GetOr(d.computeType), p.beamSize.GetOr(d.beamSize),
                       p.vadFilter.GetOr(d.vadFilter), p.bufferDurationS.GetOr(d.bufferDurationS))
  }

  function FillAudio(p: PartialAudio): Audio {
    var d := DefaultAudio;
    Audio(p.sampleRate.GetOr(d.sampleRate), p.channels.GetOr(d.channels),
          p.device.GetOr(d.device), p.chunkDurationMs.GetOr(d.chunkDurationMs))
  }

  function FillOverlay(p: PartialOverlay): Overlay {
    var d := DefaultOverlay;
    Overlay(p.enabled.GetOr(d.enabled), p.position.GetOr(d.position), p.opacity.GetOr(d.opacity),
            p.size.GetOr(d.size), p.showLanguage.GetOr(d.showLanguage), p.showMode.GetOr(d.showMode),
            p.showDuration.GetOr(d.showDuration))
  }

  function FillBackend(p: PartialBackend): Backend {
    Backend(p.host.GetOr(DefaultBackend.host), p.port.GetOr(DefaultBackend.port))
  }

  /** Every key of the document over the defaults, before any check. */
  function Fill(doc: Document): Config {
    var models := doc.models.GetOr(None);
    Config(doc.language.GetOr(DefaultConfig.language),
           if doc.shortcuts.Some? then FillShortcuts(doc.shortcuts.value) else DefaultShortcuts,
           if models.Some? then FillTranscription(models.value) else DefaultTranscription,
           if doc.audio.Some? then FillAudio(doc.audio.value) else DefaultAudio,
           if doc.overlay.Some? then FillOverlay(doc.overlay.value) else DefaultOverlay,
           doc.dbPath.GetOr(DefaultConfig.dbPath),
           if doc.backend.Some? then FillBackend(doc.backend.value) else DefaultBackend)
  }

  /** The dotted locations of the constraint violations, as the validator
      reports them all at once. */
  function Violations(c: Config): set<string> {
    (if c.transcription.device in Devices then {} else {"models.transcription.device"})
    + (if c.transcription.computeType in ComputeTypes then {} else {"models.transcription.compute_type"})
    + (if 1 <= c.transcription.beamSize <= 20 then {} else {"models.transcription.beam_size"})
    + (if 1.0 <= c.transcription.bufferDurationS <= 10.0 then {} else {"models.transcription.buffer_duration_s"})
    + (if 1 <= c.audio.channels <= 2 then {} else {"audio.channels"})
    + (if 20 <= c.audio.chunkDurationMs <= 500 then {} else {"audio.chunk_duration_ms"})
    + (if c.overlay.position in Positions then {} else {"overlay.position"})
    + (if 0.1 <= c.overlay.opacity <= 1.0 then {} else {"overlay.opacity"})
    + (if c.overlay.size in OverlaySizes then {} else {"overlay.size"})
    + (if 1 <= c.backend.port <= 65535 then {} else {"backend.port"})
  }

  /** `load_config` after the file is read: a file holding no YAML document
      (`safe_load` gives `None`) counts as `{}`; the result is the filled configuration or the violations. */
  function LoadConfig(doc: Option<Document>): (r: Result<Config, set<string>>)
    ensures r.Success? ==> InRange(r.value)
    ensures r.Failure? ==> r.error != {}
  {
    var c := Fill(doc.GetOr(EmptyDocument));
    var errors := Violations(c);
    if errors == {} then Success(c) else Failure(errors)
  }

  // ---------------------------------------------------------------------
  // Properties

  /** The defaults satisfy every constraint, so a file with no YAML document
      and an empty document both load as the defaults: chunks of 80 ms, the backend on 127.0.0.1:8001 and
      the overlay in the top-right corner. */
  lemma EmptyDocumentGivesDefaults()
    ensures LoadConfig(None) == Success(DefaultConfig)
    ensures LoadConfig(Some(EmptyDocument)) == Success(DefaultConfig)
    ensures DefaultConfig.audio.chunkDurationMs == 80
    ensures DefaultConfig.backend == Backend("127.0.0.1", 8001)
    ensures DefaultConfig.overlay.position == "top-right"
  {
    assert Violations(DefaultConfig) == {};
  }

  /** A configuration loads iff every constrained field is within range. */
  lemma {:induction false} LoadsIffInRange(doc: Option<Document>)
    ensures LoadConfig(doc).Success? <==> InRange(Fill(doc.GetOr(EmptyDocument)))
  {
    var c := Fill(doc.GetOr(EmptyDocument));
    if !InRange(c) {
      ViolationsOfOutOfRange(c);
    }
  }

  lemma ViolationsOfOutOfRange(c: Config)
    requires !InRange(c)
    ensures Violations(c) != {}
  {
    if !(c.transcription.device in Devices) {
      assert "models.transcription.device" in Violations(c);
    } else if !(c.transcription.computeType in ComputeTypes) {
      assert "models.transcription.compute_type" in Violations(c);
    } else if !(1 <= c.transcription.beamSize <= 20) {
      assert "models.transcription.beam_size" in Violations(c);
    } else if !(1.0 <= c.transcription.bufferDurationS <= 10.0) {
      assert "models.transcription.buffer_duration_s" in Violations(c);
    } else if !(1 <= c.audio.channels <= 2) {
      assert "audio.channels" in Violations(c);
    } else if !(20 <= c.audio.chunkDurationMs <= 500) {
      assert "audio.chunk_duration_ms" in Violations(c);
    } else if !(c.overlay.position in Positions) {
      assert "overlay.position" in Violations(c);
    } else if !(0.1 <= c.overlay.opacity <= 1.0) {
      assert "overlay.opacity" in Violations(c);
    } else if !(c.overlay.size in OverlaySizes) {
      assert "overlay.size" in Violations(c);
    } else {
      assert "backend.port" in Violations(c);
    }
  }

  /** A given value is kept as given; a missing one takes the default. */
  lemma GivenValuesKept(doc: Document, a: PartialAudio)
    requires doc.audio == Some(a)
    requires LoadConfig(Some(doc)).Success?
    ensures var c := LoadConfig(Some(doc)).value;
            c.audio.chunkDurationMs == a.chunkDurationMs.GetOr(80)
            && c.audio.channels == a.channels.GetOr(1)
            && c.audio.sampleRate == a.sampleRate.GetOr(16000)
  {
  }

  /** Values outside the bounds are refused, and each bound itself is
      accepted. */
  lemma BoundsAreInclusive(doc: Document, a: PartialAudio, ms: int)
    requires doc == EmptyDocument.(audio := Some(a))
    requires a == PartialAudio(None, None, None, Some(ms))
    ensures LoadConfig(Some(doc)).Success? <==> 20 <= ms <= 500
    ensures LoadConfig(Some(doc)).Failure? ==> LoadConfig(Some(doc)).error == {"audio.chunk_duration_ms"}
  {
    var c := Fill(doc);
    assert c == DefaultConfig.(audio := DefaultAudio.(chunkDurationMs := ms));
  }
  /** `beam_size` must lie in [1, 20]: 0 and 25 are refused, 1 and 20 kept. */
  lemma BeamSizeBounds(doc: Document, t: PartialTranscription, beam: int)
    requires doc == EmptyDocument.(models := Some(Some(t)))
    requires t == PartialTranscription(None, None, None, Some(beam), None, None)
    ensures LoadConfig(Some(doc)).Success? <==> 1 <= beam <= 20
    ensures LoadConfig(Some(doc)).Failure? ==> LoadConfig(Some(doc)).error == {"models.transcription.beam_size"}
  {
    var c := Fill(doc);
    assert c == DefaultConfig.(transcription := DefaultTranscription.(beamSize := beam));
  }

  /** The thirteen supported language codes, French first. */
  lemma SupportedLanguagesFixed()
    ensures |SupportedLanguages| == 13 && SupportedLanguages[0] == "fr"
    ensures "en" in SupportedLanguages && "ko" in SupportedLanguages && "xx" !in SupportedLanguages
  {
  }
}
