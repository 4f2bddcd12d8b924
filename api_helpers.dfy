/** The helpers the API routes share: opening the session repository, which
    fails with HTTP 503 while the database is not initialised, and turning a
    session row into its JSON dictionary, with the optional search-result
    keys added only when given. */
module ApiHelpers {
  import opened Wrappers

  /** An `HTTPException`: its status code and detail. */
  datatype HttpError = HttpError(status: int, detail: string)

  const DatabaseUnavailable := HttpError(503, "Database not available")

  /** An open database connection, and the repository over it. */
  datatype Connection = Connection(handle: nat)
  datatype Repository = Repository(db: Connection)

  /** `_get_repo()`: `get_db()` gives the connection, or raises
      `RuntimeError` when none is open (`None` here). */
  function GetRepo(db: Option<Connection>): (r: Result<Repository, HttpError>)
    ensures r.Success? <==> db.Some?
    ensures r.Success? ==> r.value.db == db.value
    ensures r.Failure? ==> r.error.status == 503 && r.error == DatabaseUnavailable
  {
    match db
    case None => Failure(DatabaseUnavailable)
    case Some(c) => Success(Repository(c))
  }

  // ---------------------------------------------------------------------
  // Session dictionaries

  /** A JSON value of the reply. */
  datatype Value = Null | Int(i: int) | Str(s: string) | Real(x: real) | Bool(b: bool)

  type Dict = map<string, Value>

  /** A session as the routes read it. */
  datatype SessionRow = SessionRow(
    id: int, mode: string, language: string, startedAt: string, endedAt: Option<string>,
    durationS: Option<real>, summary: Option<string>, createdAt: string, filename: Option<string>)

  function OptStr(o: Option<string>): Value {
    match o
    case None => Null
    case Some(s) => Str(s)
  }

  function OptReal(o: Option<real>): Value {
    match o
    case None => Null
    case Some(x) => Real(x)
  }

  const BaseKeys: set<string> :=
    {"id", "mode", "language", "started_at", "ended_at", "duration_s", "summary", "created_at", "filename"}

  /** The nine columns every reply carries. */
  function BaseDict(s: SessionRow): Dict {
    map[
      "id" := Int(s.id), "mode" := Str(s.mode), "language" := Str(s.language),
      "started_at" := Str(s.startedAt), "ended_at" := OptStr(s.endedAt),
      "duration_s" := OptReal(s.durationS), "summary" := OptStr(s.summary),
      "created_at" := Str(s.createdAt), "filename" := OptStr(s.filename)]
  }

  /** `_session_to_dict(s, preview, relevance, exact_match)`. */
  function SessionToDict(s: SessionRow, preview: Option<string>, relevance: Option<real>,
                         exactMatch: Option<bool>): Dict
  {
    var base := BaseDict(s);
    var withPreview := if preview.Some? then base["preview" := Str(preview.value)] else base;
    var withRelevance := if relevance.Some? then withPreview["relevance" := Real(relevance.value)] else withPreview;
    if exactMatch.Some? then withRelevance["exact_match" := Bool(exactMatch.value)] else withRelevance
  }

  // ---------------------------------------------------------------------
  // Reading a dictionary back

  function ReadInt(d: Dict, k: string): Option<int> {
    if k in d && d[k].Int? then Some(d[k].i) else None
  }

  function ReadStr(d: Dict, k: string): Option<string> {
    if k in d && d[k].Str? then Some(d[k].s) else None
  }

  /** A nullable string column: `Null` is `None`, a string is that string. */
  function ReadOptStr(d: Dict, k: string): Option<Option<string>> {
    if k !in d then None
    else match d[k]
      case Null => Some(None)
      case Str(s) => Some(Some(s))
      case _ => None
  }

  function ReadOptReal(d: Dict, k: string): Option<Option<real>> {
    if k !in d then None
    else match d[k]
      case Null => Some(None)
      case Real(x) => Some(Some(x))
      case _ => None
  }

  /** The session a client rebuilds from a reply, when every base key is
      there with a value of its column's type. */
  function ParseRow(d: Dict): Option<SessionRow> {
    var id := ReadInt(d, "id");
    var mode := ReadStr(d, "mode");
    var language := ReadStr(d, "language");
    var startedAt := ReadStr(d, "started_at");
    var endedAt := ReadOptStr(d, "ended_at");
    var duration := ReadOptReal(d, "duration_s");
    var summary := ReadOptStr(d, "summary");
    var createdAt := ReadStr(d, "created_at");
    var filename := ReadOptStr(d, "filename");
    if id.Some? && mode.Some? && language.Some? && startedAt.Some? && endedAt.Some?
       && duration.Some? && summary.Some? && createdAt.Some? && filename.Some?
    then Some(SessionRow(id.value, mode.value, language.value, startedAt.value, endedAt.value,
                         duration.value, summary.value, createdAt.value, filename.value))
    else None
  }

  /** The optional search-result fields of a reply: a missing key is `None`. */
  function ParsePreview(d: Dict): Option<string> {
    if "preview" in d && d["preview"].Str? then Some(d["preview"].s) else None
  }

  function ParseRelevance(d: Dict): Option<real> {
    if "relevance" in d && d["relevance"].Real? then Some(d["relevance"].x) else None
  }

  function ParseExactMatch(d: Dict): Option<bool> {
    if "exact_match" in d && d["exact_match"].Bool? then Some(d["exact_match"].b) else None
  }

  function OptionalKeys(preview: Option<string>, relevance: Option<real>, exactMatch: Option<bool>): set<string> {
    (if preview.Some? then {"preview"} else {})
    + (if relevance.Some? then {"relevance"} else {})
    + (if exactMatch.Some? then {"exact_match"} else {})
  }

  // ---------------------------------------------------------------------
  // Properties

  /** The nine base columns are always there, copied unchanged: the row reads
      back from the reply whatever optional keys were added. */
  lemma BaseColumnsCopied(s: SessionRow, preview: Option<string>, relevance: Option<real>, exactMatch: Option<bool>)
    ensures BaseKeys <= SessionToDict(s, preview, relevance, exactMatch).Keys
    ensures ParseRow(SessionToDict(s, preview, relevance, exactMatch)) == Some(s)
  {
    var d := SessionToDict(s, preview, relevance, exactMatch);
    forall k | k in BaseKeys
      ensures k in d && d[k] == BaseDict(s)[k]
    {
      ExtraKeysAreNew(k);
    }
    assert SameBase(d, BaseDict(s));
    ParseRowReadsBase(d, BaseDict(s));
    BaseDictParses(s);
  }

  /** `d` and `e` agree at key `k`. */
  predicate SameAt(d: Dict, e: Dict, k: string) {
    (k in d <==> k in e) && (k in d ==> d[k] == e[k])
  }

  predicate SameBase(d: Dict, e: Dict) {
    SameAt(d, e, "id") && SameAt(d, e, "mode") && SameAt(d, e, "language")
    && SameAt(d, e, "started_at") && SameAt(d, e, "ended_at") && SameAt(d, e, "duration_s")
    && SameAt(d, e, "summary") && SameAt(d, e, "created_at") && SameAt(d, e, "filename")
  }

  /** The parse looks at the nine base keys only. */
  lemma ParseRowReadsBase(d: Dict, e: Dict)
    requires SameBase(d, e)
    ensures ParseRow(d) == ParseRow(e)
  {
    assert ReadInt(d, "id") == ReadInt(e, "id");
    assert ReadStr(d, "mode") == ReadStr(e, "mode");
    assert ReadStr(d, "language") == ReadStr(e, "language");
    assert ReadStr(d, "started_at") == ReadStr(e, "started_at");
    assert ReadOptStr(d, "ended_at") == ReadOptStr(e, "ended_at");
    assert ReadOptReal(d, "duration_s") == ReadOptReal(e, "duration_s");
    assert ReadOptStr(d, "summary") == ReadOptStr(e, "summary");
    assert ReadStr(d, "created_at") == ReadStr(e, "created_at");
    assert ReadOptStr(d, "filename") == ReadOptStr(e, "filename");
  }

  lemma ExtraKeysAreNew(k: string)
    requires k in BaseKeys
    ensures k != "preview" && k != "relevance" && k != "exact_match"
  {
  }

  lemma BaseDictParses(s: SessionRow)
    ensures ParseRow(BaseDict(s)) == Some(s)
  {
  }

  /** Each optional key is present exactly when its argument is not `None`,
      and then holds that argument, so `False` and `""` are kept. */
  lemma OptionalKeysIffGiven(s: SessionRow, preview: Option<string>, relevance: Option<real>, exactMatch: Option<bool>)
    ensures var d := SessionToDict(s, preview, relevance, exactMatch);
            ("preview" in d <==> preview.Some?) && ("relevance" in d <==> relevance.Some?)
            && ("exact_match" in d <==> exactMatch.Some?)
    ensures var d := SessionToDict(s, preview, relevance, exactMatch);
            ParsePreview(d) == preview && ParseRelevance(d) == relevance && ParseExactMatch(d) == exactMatch
  {
  }

  /** The keys are the base keys and the given optional ones; with no
      optional argument, exactly the nine base keys. */
  lemma KeysOfDict(s: SessionRow, preview: Option<string>, relevance: Option<real>, exactMatch: Option<bool>)
    ensures SessionToDict(s, preview, relevance, exactMatch).Keys == BaseKeys + OptionalKeys(preview, relevance, exactMatch)
    ensures SessionToDict(s, None, None, None).Keys == BaseKeys
  {
  }

  lemma NineBaseKeys()
    ensures |BaseKeys| == 9
  {
  }
}
