/** The session search helpers (`backend/src/api/routes/search.py`): the
    exact-match test on a query and a document, the ranking that puts exact
    matches first, the metadata `where` clause for the vector store, the
    choice of which filters go to the SQL query, and the `exact_match` flag
    attached to each result. The vector store's search is an input: the hits it
    returned, or `None` when it raised. */
module Search {
  import opened Wrappers
  import opened TextUtil
  import AppConfig

  /** Accent stripping (NFKD, then dropping combining characters): a parameter,
      as Unicode normalisation is not modelled. */
  type AccentStripper = string -> string

  /** `_strip_accents(text).lower()`, with ASCII lower-casing. */
  function Normalize(strip: AccentStripper, text: string): string {
    AsciiLower(strip(text))
  }

  // ---------------------------------------------------------------------
  // Stopwords

  /** The lazily loaded stopword set. An empty set counts as "not loaded", so
      a missing or broken file is tried again on the next call. */
  class StopwordCache {
    var words: set<string>

    constructor ()
      ensures words == {}
    {
      words := {};
    }

    /** `_get_stopwords`: the cached set when it is not empty, otherwise the
        words of the file (`None` when it is missing or not valid JSON, which
        gives the empty set). */
    method Get(file: Option<set<string>>) returns (r: set<string>)
      modifies this
      ensures old(words) != {} ==> r == old(words) && words == old(words)
      ensures old(words) == {} ==> r == file.GetOr({}) && words == r
    {
      if words != {} {
        return words;
      }
      words := file.GetOr({});
      r := words;
    }
  }

  // ---------------------------------------------------------------------
  // _is_exact_match

  /** The query words that are not stopwords, in order. */
  function ContentWords(words: seq<string>, stopwords: set<string>): (r: seq<string>)
    ensures |r| <= |words|
  {
    if words == [] then []
    else (if words[0] in stopwords then [] else [words[0]]) + ContentWords(words[1..], stopwords)
  }

  /** Every word occurs in the document. */
  function AllOccur(words: seq<string>, doc: string): bool {
    words == [] || (Contains(doc, words[0]) && AllOccur(words[1..], doc))
  }

  /** `_is_exact_match(query, document)`. */
  function IsExactMatch(strip: AccentStripper, stopwords: set<string>, query: string, document: string): bool {
    var content := ContentWords(Split(Normalize(strip, query)), stopwords);
    if content == [] then false else AllOccur(content, Normalize(strip, document))
  }

  lemma {:induction false} ContentWordsMembers(words: seq<string>, stopwords: set<string>, w: string)
    ensures w in ContentWords(words, stopwords) <==> w in words && w !in stopwords
    decreases |words|
  {
    if words != [] {
      ContentWordsMembers(words[1..], stopwords, w);
      assert words == [words[0]] + words[1..];
    }
  }

  lemma {:induction false} AllOccurIff(words: seq<string>, doc: string)
    ensures AllOccur(words, doc) <==> forall w :: w in words ==> Contains(doc, w)
    decreases |words|
  {
    if words != [] {
      AllOccurIff(words[1..], doc);
      assert words == [words[0]] + words[1..];
    }
  }

  /** A document matches exactly iff the query has at least one non-stopword
      word and every non-stopword word of the normalised query occurs in the
      normalised document. */
  lemma ExactMatchIff(strip: AccentStripper, stopwords: set<string>, query: string, document: string)
    ensures var words := Split(Normalize(strip, query));
            IsExactMatch(strip, stopwords, query, document)
            <==> (exists w :: w in words && w !in stopwords)
                 && forall w :: w in words && w !in stopwords ==> Contains(Normalize(strip, document), w)
  {
    var words := Split(Normalize(strip, query));
    var content := ContentWords(words, stopwords);
    forall w ensures w in content <==> w in words && w !in stopwords {
      ContentWordsMembers(words, stopwords, w);
    }
    AllOccurIff(content, Normalize(strip, document));
    if content != [] {
      assert content[0] in content;
    }
  }

  /** A query made only of stopwords (or of nothing) matches no document. */
  lemma StopwordQueryNeverMatches(strip: AccentStripper, stopwords: set<string>, query: string, document: string)
    requires forall w :: w in Split(Normalize(strip, query)) ==> w in stopwords
    ensures !IsExactMatch(strip, stopwords, query, document)
  {
    ExactMatchIff(strip, stopwords, query, document);
  }

  // ---------------------------------------------------------------------
  // Ranking

  /** One vector-store hit: session id, distance, document. */
  datatype Hit = Hit(sid: int, distance: real, doc: string)

  /** The hits whose session is (`keep`) or is not (`!keep`) an exact match,
      in their original order. */
  function Partition(hits: seq<Hit>, exact: set<int>, keep: bool): (r: seq<Hit>)
    ensures |r| <= |hits|
  {
    if hits == [] then []
    else (if (hits[0].sid in exact) == keep then [hits[0]] else []) + Partition(hits[1..], exact, keep)
  }

  /** `ranked = exact + non_exact`. */
  function Rank(hits: seq<Hit>, exact: set<int>): seq<Hit> {
    Partition(hits, exact, true) + Partition(hits, exact, false)
  }

  lemma {:induction false} PartitionMembers(hits: seq<Hit>, exact: set<int>, keep: bool)
    ensures forall i :: 0 <= i < |Partition(hits, exact, keep)|
              ==> (Partition(hits, exact, keep)[i].sid in exact) == keep
    decreases |hits|
  {
    if hits != [] {
      PartitionMembers(hits[1..], exact, keep);
      var head: seq<Hit> := if (hits[0].sid in exact) == keep then [hits[0]] else [];
      var tail := Partition(hits[1..], exact, keep);
      assert Partition(hits, exact, keep) == head + tail;
      forall i | 0 <= i < |head + tail| ensures ((head + tail)[i].sid in exact) == keep {
        if i >= |head| {
          assert (head + tail)[i] == tail[i - |head|];
        }
      }
    }
  }

  lemma {:induction false} PartitionPermutation(hits: seq<Hit>, exact: set<int>)
    ensures multiset(Partition(hits, exact, true)) + multiset(Partition(hits, exact, false)) == multiset(hits)
    decreases |hits|
  {
    if hits != [] {
      PartitionPermutation(hits[1..], exact);
      assert hits == [hits[0]] + hits[1..];
    }
  }

  /** The ranking is a permutation of the hits in which every exact match comes
      before every other hit. */
  lemma RankIsPartition(hits: seq<Hit>, exact: set<int>)
    ensures multiset(Rank(hits, exact)) == multiset(hits)
    ensures var k := |Partition(hits, exact, true)|;
            (forall i :: 0 <= i < k ==> Rank(hits, exact)[i].sid in exact)
            && (forall i :: k <= i < |Rank(hits, exact)| ==> Rank(hits, exact)[i].sid !in exact)
  {
    PartitionPermutation(hits, exact);
    PartitionMembers(hits, exact, true);
    PartitionMembers(hits, exact, false);
    var a: seq<Hit> := Partition(hits, exact, true);
    var b: seq<Hit> := Partition(hits, exact, false);
    forall i | |a| <= i < |a + b| ensures (a + b)[i].sid !in exact {
      assert (a + b)[i] == b[i - |a|];
    }
  }

  /** Each group keeps the original order: picking the exact (or the other)
      hits out of the ranking gives the same list as picking them out of the
      hits. */
  lemma RankIsStable(hits: seq<Hit>, exact: set<int>, keep: bool)
    ensures Partition(Rank(hits, exact), exact, keep) == Partition(hits, exact, keep)
  {
    var a := Partition(hits, exact, true);
    var b := Partition(hits, exact, false);
    PartitionMembers(hits, exact, true);
    PartitionMembers(hits, exact, false);
    PartitionAppend(a, b, exact, keep);
    PartitionIdentity(a, exact, true);
    PartitionIdentity(b, exact, false);
    PartitionPartition(hits, exact, keep);
  }

  lemma {:induction false} PartitionAppend(a: seq<Hit>, b: seq<Hit>, exact: set<int>, keep: bool)
    ensures Partition(a + b, exact, keep) == Partition(a, exact, keep) + Partition(b, exact, keep)
    decreases |a|
  {
    if a == [] {
      assert a + b == b;
    } else {
      var head: seq<Hit> := if (a[0].sid in exact) == keep then [a[0]] else [];
      var rest: seq<Hit> := Partition(a[1..], exact, keep);
      var pb: seq<Hit> := Partition(b, exact, keep);
      assert (a + b)[0] == a[0];
      assert (a + b)[1..] == a[1..] + b;
      PartitionAppend(a[1..], b, exact, keep);
      assert Partition(a + b, exact, keep) == head + (rest + pb);
      assert head + (rest + pb) == (head + rest) + pb;
    }
  }

  /** A list all of one kind is its own partition of that kind and has none of
      the other. */
  lemma {:induction false} PartitionIdentity(xs: seq<Hit>, exact: set<int>, kind: bool)
    requires forall i :: 0 <= i < |xs| ==> (xs[i].sid in exact) == kind
    ensures Partition(xs, exact, kind) == xs
    ensures Partition(xs, exact, !kind) == []
    decreases |xs|
  {
    if xs != [] {
      PartitionIdentity(xs[1..], exact, kind);
    }
  }

  /** Partitioning one group again by the same test: the group itself, or
      nothing. */
  lemma {:induction false} PartitionPartition(hits: seq<Hit>, exact: set<int>, keep: bool)
    ensures Partition(Partition(hits, exact, keep), exact, keep) == Partition(hits, exact, keep)
    ensures Partition(Partition(hits, exact, keep), exact, !keep) == []
  {
    PartitionMembers(hits, exact, keep);
    PartitionIdentity(Partition(hits, exact, keep), exact, keep);
  }

  // ---------------------------------------------------------------------
  // The endpoint's steps

  /** A `where` clause of the vector store. */
  datatype Where = Equals(key: string, value: string) | And(clauses: seq<Where>)

  /** Python truthiness of an optional string. */
  predicate Given(s: Option<string>) {
    s.Some? && s.value != ""
  }

  /** The `where` clause sent to the vector store: none without filters, the
      single equality with one, and their `$and` with both. */
  function WhereOf(language: Option<string>, mode: Option<string>): (w: Option<Where>)
    ensures w.None? <==> !Given(language) && !Given(mode)
    ensures w.Some? && w.value.Equals? ==> Given(language) != Given(mode)
    ensures w.Some? && w.value.And? ==> Given(language) && Given(mode)
  {
    if Given(language) && Given(mode) then Some(And([Equals("language", language.value), Equals("mode", mode.value)]))
    else if Given(language) then Some(Equals("language", language.value))
    else if Given(mode) then Some(Equals("mode", mode.value))
    else None
  }

  /** The loop building `where_clauses` and the choice of `chroma_where`. */
  method BuildWhere(language: Option<string>, mode: Option<string>) returns (w: Option<Where>)
    ensures w == WhereOf(language, mode)
    ensures !Given(language) && !Given(mode) ==> w == None
    ensures Given(language) && !Given(mode) ==> w == Some(Equals("language", language.value))
    ensures !Given(language) && Given(mode) ==> w == Some(Equals("mode", mode.value))
    ensures Given(language) && Given(mode)
            ==> w == Some(And([Equals("language", language.value), Equals("mode", mode.value)]))
  {
    var clauses: seq<Where> := [];
    if Given(language) {
      clauses := clauses + [Equals("language", language.value)];
    }
    if Given(mode) {
      clauses := clauses + [Equals("mode", mode.value)];
    }
    assert Given(language) && Given(mode) ==> clauses == [Equals("language", language.value), Equals("mode", mode.value)];
    w := None;
    if |clauses| == 1 {
      w := Some(clauses[0]);
    } else if |clauses| > 1 {
      w := Some(And(clauses));
    }
  }

  /** The exact-match test for one query, as a test on documents. */
  function Matcher(strip: AccentStripper, stopwords: set<string>, query: string): string -> bool {
    doc => IsExactMatch(strip, stopwords, query, doc)
  }

  /** The session ids of the hits whose document passes `matches`. */
  function MatchingIds(hits: seq<Hit>, matches: string -> bool): set<int>
    decreases |hits|
  {
    if hits == [] then {}
    else
      var last := hits[|hits| - 1];
      MatchingIds(hits[..|hits| - 1], matches) + (if matches(last.doc) then {last.sid} else {})
  }

  /** A session id is collected iff one of its hits passes. */
  lemma {:induction false} MatchingIdsIff(hits: seq<Hit>, matches: string -> bool, sid: int)
    ensures sid in MatchingIds(hits, matches)
            <==> exists i :: 0 <= i < |hits| && hits[i].sid == sid && matches(hits[i].doc)
    decreases |hits|
  {
    if hits != [] {
      var init := hits[..|hits| - 1];
      MatchingIdsIff(init, matches, sid);
      if exists i :: 0 <= i < |init| && init[i].sid == sid && matches(init[i].doc) {
        var i :| 0 <= i < |init| && init[i].sid == sid && matches(init[i].doc);
        assert hits[i] == init[i];
      }
      if exists i :: 0 <= i < |hits| && hits[i].sid == sid && matches(hits[i].doc) {
        var i :| 0 <= i < |hits| && hits[i].sid == sid && matches(hits[i].doc);
        if i < |init| {
          assert init[i] == hits[i];
        }
      }
    }
  }

  /** The loop that collects `exact_matches`: the ids of the hits whose
      document matches the query exactly (see `MatchingIdsIff`). */
  method ExactMatches(strip: AccentStripper, stopwords: set<string>, query: string, hits: seq<Hit>)
    returns (exact: set<int>)
    ensures exact == MatchingIds(hits, Matcher(strip, stopwords, query))
  {
    var matches := Matcher(strip, stopwords, query);
    exact := {};
    for i := 0 to |hits|
      invariant exact == MatchingIds(hits[..i], matches)
    {
      assert hits[..i + 1][..i] == hits[..i];
      if matches(hits[i].doc) {
        exact := exact + {hits[i].sid};
      }
    }
    assert hits[..|hits|] == hits;
  }

  function SessionIds(ranked: seq<Hit>): (ids: seq<int>)
    ensures |ids| == |ranked|
    ensures forall i :: 0 <= i < |ranked| ==> ids[i] == ranked[i].sid
  {
    if ranked == [] then [] else [ranked[0].sid] + SessionIds(ranked[1..])
  }

  /** The arguments `filter_sessions` receives from the search step. */
  datatype SqlFilter = SqlFilter(sessionIds: Option<seq<int>>, language: Option<string>, mode: Option<string>)

  /** What the search step produces: the SQL filter, the exact matches, and what
      the vector store was asked (`None` when it was not). */
  datatype SearchPlan = SearchPlan(filter: SqlFilter, exact: set<int>, asked: Option<(string, Option<Where>, real)>)

  /** The distance threshold the route evidently means to use: the configured
      `search.distance_threshold`, or 0.75 without a configuration. */
  function SearchThreshold(configThreshold: Option<real>): (t: real)
    ensures configThreshold.None? ==> t == 0.75
    ensures configThreshold.Some? ==> t == configThreshold.value
  {
    configThreshold.GetOr(0.75)
  }

  /** The threshold as the route reads it, outside its `try`:
      `app_config.search.distance_threshold` on a loaded configuration, which
      has no `search` field, so the lookup raises `AttributeError`. */
  function SearchThresholdAsWritten(config: Option<AppConfig.Config>): Result<real, string> {
    if config.Some? then Failure("'AppConfig' object has no attribute 'search'")
    else Success(0.75)
  }

  /** Once the configuration is loaded, every search with a non-blank query
      fails before the vector store is asked, and no fallback to SQL happens;
      only an unloaded configuration gives the 0.75 threshold. */
  lemma LoadedConfigBreaksSearch(config: AppConfig.Config)
    ensures SearchThresholdAsWritten(Some(config)).Failure?
    ensures SearchThresholdAsWritten(None) == Success(SearchThreshold(None))
  {
  }

  /** The search step of `search_sessions_endpoint`. `searched` is what the
      vector store returned, `None` when it raised; `configThreshold` is the
      configured distance threshold, `None` without a configuration. A blank
      query or a failed search leaves the session ids unset, and then the
      language and mode go to the SQL filter; otherwise the ranked ids do and
      those two filters (already applied by the vector store) do not. */
  method PlanSearch(strip: AccentStripper, stopwords: set<string>, q: string,
                    language: Option<string>, mode: Option<string>,
                    configThreshold: Option<real>, searched: Option<seq<Hit>>)
    returns (plan: SearchPlan)
    ensures plan.filter.sessionIds.None? <==> Strip(q) == "" || searched.None?
    ensures plan.filter.sessionIds.None? ==> plan.filter.language == language && plan.filter.mode == mode
    ensures plan.filter.sessionIds.Some? ==> plan.filter.language == None && plan.filter.mode == None
    ensures plan.filter.sessionIds.Some? ==>
              var exact := plan.exact;
              plan.filter.sessionIds.value == SessionIds(Rank(searched.value, exact))
    ensures Strip(q) == "" ==> plan.exact == {} && plan.asked == None
    ensures Strip(q) != "" ==> plan.asked == Some((Strip(q), WhereOf(language, mode), SearchThreshold(configThreshold)))
    ensures Strip(q) != "" && searched.Some? ==> plan.exact == MatchingIds(searched.value, Matcher(strip, stopwords, Strip(q)))
    ensures searched.None? ==> plan.exact == {}
  {
    var sessionIds: Option<seq<int>> := None;
    var exact: set<int> := {};
    var asked: Option<(string, Option<Where>, real)> := None;
    if Strip(q) != "" {
      var chromaWhere := BuildWhere(language, mode);
      var threshold := SearchThreshold(configThreshold);
      asked := Some((Strip(q), chromaWhere, threshold));
      if searched.Some? {
        exact := ExactMatches(strip, stopwords, Strip(q), searched.value);
        var ranked := Rank(searched.value, exact);
        sessionIds := Some(SessionIds(ranked));
      }
    }
    var filter := SqlFilter(sessionIds,
                            if sessionIds.None? then language else None,
                            if sessionIds.None? then mode else None);
    plan := SearchPlan(filter, exact, asked);
  }

  /** `s.id in exact_matches if exact_matches else None`. */
  function ExactMatchFlag(sid: int, exact: set<int>): (flag: Option<bool>)
    ensures flag.None? <==> exact == {}
    ensures flag.Some? ==> (flag.value <==> sid in exact)
  {
    if exact == {} then None else Some(sid in exact)
  }
}
