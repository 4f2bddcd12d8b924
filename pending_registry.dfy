/** The registry of uploaded files waiting for their transcription: the upload
    route registers an entry under the new session id, and the file
    transcription socket looks it up and removes it. Entries older than ten
    minutes are evicted (and their temporary file deleted) whenever an entry
    is registered or looked up. The monotonic clock is a parameter `now` of
    every operation that reads it. */
module PendingRegistry {
  import opened Wrappers

  /** `_TTL_SECONDS`. */
  const TtlSeconds: real := 600.0

  /** One upload waiting for its transcription. `startedAt` is the session's
      wall-clock start, kept as an opaque number; `createdAt` is the monotonic
      time of registration. */
  datatype PendingTranscription = PendingTranscription(
    sessionId: int,
    filePath: string,
    language: string,
    startedAt: int,
    filename: string,
    createdAt: real)

  /** Older than the TTL, strictly. */
  predicate IsStale(p: PendingTranscription, now: real) {
    now - p.createdAt > TtlSeconds
  }

  /** The ids `_cleanup_stale` collects. */
  function StaleIds(pending: map<int, PendingTranscription>, now: real): (r: set<int>)
    ensures forall sid :: sid in r <==> sid in pending && IsStale(pending[sid], now)
  {
    set sid | sid in pending && IsStale(pending[sid], now)
  }

  /** The registry after eviction: exactly the entries that are not stale,
      each unchanged. */
  function Evict(pending: map<int, PendingTranscription>, now: real): (r: map<int, PendingTranscription>)
    ensures forall sid :: sid in r <==> sid in pending && !IsStale(pending[sid], now)
    ensures forall sid :: sid in r ==> r[sid] == pending[sid]
  {
    pending - StaleIds(pending, now)
  }

  /** The registry after `register_pending_transcription`: evicted, then the
      entry inserted or overwritten under its own id. */
  function AfterRegister(pending: map<int, PendingTranscription>, entry: PendingTranscription, now: real)
    : map<int, PendingTranscription>
  {
    Evict(pending, now)[entry.sessionId := entry]
  }

  /** What `get_pending_transcription` answers, on the evicted registry. */
  function Lookup(pending: map<int, PendingTranscription>, sessionId: int, now: real): (r: Option<PendingTranscription>)
    ensures r.Some? <==> sessionId in pending && !IsStale(pending[sessionId], now)
    ensures r.Some? ==> r.value == pending[sessionId]
  {
    var live := Evict(pending, now);
    if sessionId in live then Some(live[sessionId]) else None
  }

  /** The registry after `remove_pending_transcription`: the id is gone, a
      missing id changes nothing, and nothing is evicted. */
  function AfterRemove(pending: map<int, PendingTranscription>, sessionId: int): (r: map<int, PendingTranscription>)
    ensures sessionId !in r
    ensures forall sid :: sid != sessionId ==> (sid in r <==> sid in pending)
    ensures forall sid :: sid in r ==> r[sid] == pending[sid]
  {
    pending - {sessionId}
  }

  // ---------------------------------------------------------------------
  // The dictionary's insertion order

  predicate Distinct(ids: seq<int>) {
    forall i, j :: 0 <= i < j < |ids| ==> ids[i] != ids[j]
  }

  /** `ids` without the members of `gone`, in order. */
  function FilterOut(ids: seq<int>, gone: set<int>): seq<int> {
    if ids == [] then []
    else (if ids[0] in gone then [] else [ids[0]]) + FilterOut(ids[1..], gone)
  }

  lemma {:induction false} FilterOutMembers(ids: seq<int>, gone: set<int>)
    ensures forall x :: x in FilterOut(ids, gone) <==> x in ids && x !in gone
    ensures Distinct(ids) ==> Distinct(FilterOut(ids, gone))
    decreases |ids|
  {
    if ids != [] {
      FilterOutMembers(ids[1..], gone);
      var r := FilterOut(ids, gone);
      var tail := FilterOut(ids[1..], gone);
      if Distinct(ids) {
        assert Distinct(ids[1..]) by {
          forall i, j | 0 <= i < j < |ids[1..]| ensures ids[1..][i] != ids[1..][j] {
            assert ids[1..][i] == ids[i + 1] && ids[1..][j] == ids[j + 1];
          }
        }
        if ids[0] !in gone {
          assert ids[0] !in tail;
          forall i, j | 0 <= i < j < |r| ensures r[i] != r[j] {
            if i == 0 {
              assert r[j] == tail[j - 1];
            } else {
              assert r[i] == tail[i - 1] && r[j] == tail[j - 1];
            }
          }
        }
      }
    }
  }

  /** Filtering twice is filtering once by both. */
  lemma {:induction false} FilterOutTwice(ids: seq<int>, gone: set<int>, more: set<int>)
    ensures FilterOut(FilterOut(ids, gone), more) == FilterOut(ids, gone + more)
    decreases |ids|
  {
    if ids != [] {
      FilterOutTwice(ids[1..], gone, more);
      var head: seq<int> := if ids[0] in gone then [] else [ids[0]];
      FilterOutAppend(head, FilterOut(ids[1..], gone), more);
    }
  }

  lemma {:induction false} FilterOutAppend(a: seq<int>, b: seq<int>, gone: set<int>)
    ensures FilterOut(a + b, gone) == FilterOut(a, gone) + FilterOut(b, gone)
    decreases |a|
  {
    if a == [] {
      assert a + b == b;
    } else {
      assert (a + b)[0] == a[0];
      assert (a + b)[1..] == a[1..] + b;
      FilterOutAppend(a[1..], b, gone);
    }
  }

  /** The list comprehension in `_cleanup_stale`: the stale ids, in the
      dictionary's order. */
  function StaleOrder(ids: seq<int>, pending: map<int, PendingTranscription>, now: real): seq<int> {
    if ids == [] then []
    else
      (if ids[0] in pending && IsStale(pending[ids[0]], now) then [ids[0]] else [])
      + StaleOrder(ids[1..], pending, now)
  }

  lemma {:induction false} StaleOrderMembers(ids: seq<int>, pending: map<int, PendingTranscription>, now: real)
    ensures forall x :: x in StaleOrder(ids, pending, now) <==> x in ids && x in StaleIds(pending, now)
    ensures Distinct(ids) ==> Distinct(StaleOrder(ids, pending, now))
    decreases |ids|
  {
    if ids != [] {
      StaleOrderMembers(ids[1..], pending, now);
      var r := StaleOrder(ids, pending, now);
      var tail := StaleOrder(ids[1..], pending, now);
      if Distinct(ids) {
        assert Distinct(ids[1..]) by {
          forall i, j | 0 <= i < j < |ids[1..]| ensures ids[1..][i] != ids[1..][j] {
            assert ids[1..][i] == ids[i + 1] && ids[1..][j] == ids[j + 1];
          }
        }
        if |r| > |tail| {
          assert ids[0] !in tail;
          forall i, j | 0 <= i < j < |r| ensures r[i] != r[j] {
            if i == 0 {
              assert r[j] == tail[j - 1];
            } else {
              assert r[i] == tail[i - 1] && r[j] == tail[j - 1];
            }
          }
        }
      }
    }
  }

  /** The ids listed. */
  function Members(ids: seq<int>): set<int> {
    set x | x in ids
  }

  /** The temporary files of the entries `ids`, in order. */
  function PathsOf(pending: map<int, PendingTranscription>, ids: seq<int>): seq<string> {
    if ids == [] then []
    else
      var last := ids[|ids| - 1];
      PathsOf(pending, ids[..|ids| - 1]) + (if last in pending then [pending[last].filePath] else [])
  }

  /** `order` lists each key of `pending` once. */
  predicate Listed(order: seq<int>, pending: map<int, PendingTranscription>) {
    Distinct(order)
    && (forall i :: 0 <= i < |order| ==> order[i] in pending)
    && (forall k :: k in pending ==> k in order)
  }

  /** Removing the same ids from the map and from its order keeps them in
      step. */
  lemma FilterOutListed(order: seq<int>, pending: map<int, PendingTranscription>, gone: set<int>)
    requires Listed(order, pending)
    ensures Listed(FilterOut(order, gone), pending - gone)
  {
    FilterOutMembers(order, gone);
    var r := FilterOut(order, gone);
    forall i | 0 <= i < |r| ensures r[i] in pending - gone {
      assert r[i] in r;
    }
  }

  /** The whole effect of `register_pending_transcription` on the registry's
      state: eviction, then the entry stored; a new id goes to the end of the
      order, an existing one keeps its place. */
  predicate RegisterEffect(pending: map<int, PendingTranscription>, order: seq<int>, unlinked: seq<string>,
                           pending': map<int, PendingTranscription>, order': seq<int>, unlinked': seq<string>,
                           entry: PendingTranscription, now: real)
  {
    var kept := FilterOut(order, StaleIds(pending, now));
    pending' == AfterRegister(pending, entry, now)
    && order' == (if entry.sessionId in Evict(pending, now) then kept else kept + [entry.sessionId])
    && unlinked' == unlinked + PathsOf(pending, StaleOrder(order, pending, now))
  }

  /** The registry: the dictionary as a map together with its keys in
      insertion order (re-assigning a key keeps its place). `unlinked` lists
      the temporary files deleted by eviction, in order; a failed deletion is
      only logged, so every stale file is attempted. */
  class Registry {
    var pending: map<int, PendingTranscription>
    var order: seq<int>
    var unlinked: seq<string>

    predicate Valid()
      reads this
    {
      Listed(order, pending)
    }

    constructor ()
      ensures Valid()
      ensures pending == map[] && order == [] && unlinked == []
    {
      pending := map[];
      order := [];
      unlinked := [];
    }

    /** `_cleanup_stale`: collect the stale ids in order, then pop each and
        delete its file. */
    method CleanupStale(now: real)
      requires Valid()
      modifies this
      ensures Valid()
      ensures pending == Evict(old(pending), now)
      ensures order == FilterOut(old(order), StaleIds(old(pending), now))
      ensures unlinked == old(unlinked) + PathsOf(old(pending), StaleOrder(old(order), old(pending), now))
    {
      ghost var before := pending;
      ghost var beforeOrder := order;
      ghost var beforeUnlinked := unlinked;
      var stale := StaleOrder(order, pending, now);
      StaleOrderMembers(order, pending, now);
      FilterOutNothing(order);
      assert Members(stale[..0]) == {};
      for j := 0 to |stale|
        invariant CleanedSoFar(before, beforeOrder, beforeUnlinked, stale, j, pending, order, unlinked)
      {
        var id := stale[j];
        CleanupAdvance(before, beforeOrder, beforeUnlinked, stale, j, pending, order, unlinked);
        var entry := pending[id];
        pending := pending - {id};
        order := FilterOut(order, {id});
        unlinked := unlinked + [entry.filePath];
      }
      assert stale[..|stale|] == stale;
      StaleOrderCovers(beforeOrder, before, now);
      FilterOutListed(beforeOrder, before, Members(stale));
    }

    /** `register_pending_transcription`: evict, then store an entry stamped
        with the current time, inserted at the end or overwriting in place. */
    method Register(sessionId: int, filePath: string, language: string, startedAt: int, filename: string, now: real)
      returns (entry: PendingTranscription)
      requires Valid()
      modifies this
      ensures Valid()
      ensures entry == PendingTranscription(sessionId, filePath, language, startedAt, filename, now)
      ensures RegisterEffect(old(pending), old(order), old(unlinked), pending, order, unlinked, entry, now)
    {
      CleanupStale(now);
      entry := PendingTranscription(sessionId, filePath, language, startedAt, filename, now);
      if sessionId !in pending {
        order := order + [sessionId];
      }
      pending := pending[sessionId := entry];
    }

    /** `get_pending_transcription`: evict, then look the id up. */
    method Get(sessionId: int, now: real) returns (r: Option<PendingTranscription>)
      requires Valid()
      modifies this
      ensures Valid()
      ensures r == Lookup(old(pending), sessionId, now)
      ensures pending == Evict(old(pending), now)
      ensures order == FilterOut(old(order), StaleIds(old(pending), now))
      ensures unlinked == old(unlinked) + PathsOf(old(pending), StaleOrder(old(order), old(pending), now))
    {
      CleanupStale(now);
      if sessionId in pending {
        r := Some(pending[sessionId]);
      } else {
        r := None;
      }
    }

    /** `remove_pending_transcription`: pop the id if present; no eviction. */
    method Remove(sessionId: int)
      requires Valid()
      modifies this
      ensures Valid()
      ensures pending == AfterRemove(old(pending), sessionId)
      ensures order == FilterOut(old(order), {sessionId})
      ensures unlinked == old(unlinked)
    {
      FilterOutListed(order, pending, {sessionId});
      pending := pending - {sessionId};
      order := FilterOut(order, {sessionId});
    }
  }

  /** Over a complete listing, the stale ids in order are exactly the stale
      ids. */
  lemma StaleOrderCovers(order: seq<int>, pending: map<int, PendingTranscription>, now: real)
    requires Listed(order, pending)
    ensures Members(StaleOrder(order, pending, now)) == StaleIds(pending, now)
  {
    StaleOrderMembers(order, pending, now);
    var listed := StaleOrder(order, pending, now);
    forall x | x in StaleIds(pending, now) ensures x in Members(listed) {
      assert x in order;
      assert x in listed;
    }
  }

  /** The eviction loop has popped the first `j` stale ids. */
  predicate CleanedSoFar(before: map<int, PendingTranscription>, beforeOrder: seq<int>, beforeUnlinked: seq<string>,
                         stale: seq<int>, j: int,
                         pending: map<int, PendingTranscription>, order: seq<int>, unlinked: seq<string>)
  {
    0 <= j <= |stale|
    && pending == before - Members(stale[..j])
    && order == FilterOut(beforeOrder, Members(stale[..j]))
    && unlinked == beforeUnlinked + PathsOf(before, stale[..j])
  }

  lemma CleanupAdvance(before: map<int, PendingTranscription>, beforeOrder: seq<int>, beforeUnlinked: seq<string>,
                       stale: seq<int>, j: int,
                       pending: map<int, PendingTranscription>, order: seq<int>, unlinked: seq<string>)
    requires CleanedSoFar(before, beforeOrder, beforeUnlinked, stale, j, pending, order, unlinked)
    requires j < |stale|
    requires Distinct(stale)
    requires forall x :: x in stale ==> x in before
    ensures stale[j] in pending
    ensures CleanedSoFar(before, beforeOrder, beforeUnlinked, stale, j + 1,
                         pending - {stale[j]}, FilterOut(order, {stale[j]}), unlinked + [pending[stale[j]].filePath])
  {
    var id := stale[j];
    CleanupStep(stale, j, before);
    FilterOutTwice(beforeOrder, Members(stale[..j]), {id});
    assert pending[id] == before[id];
    var paths := PathsOf(before, stale[..j]);
    assert beforeUnlinked + paths + [before[id].filePath] == beforeUnlinked + (paths + [before[id].filePath]);
  }

  /** One turn of the eviction loop: the next stale id is still present, and
      the ids done so far grow by it. */
  lemma CleanupStep(stale: seq<int>, j: int, before: map<int, PendingTranscription>)
    requires 0 <= j < |stale|
    requires Distinct(stale)
    requires forall x :: x in stale ==> x in before
    ensures stale[j] in before - Members(stale[..j])
    ensures Members(stale[..j + 1]) == Members(stale[..j]) + {stale[j]}
    ensures before - Members(stale[..j + 1]) == (before - Members(stale[..j])) - {stale[j]}
    ensures PathsOf(before, stale[..j + 1]) == PathsOf(before, stale[..j]) + [before[stale[j]].filePath]
  {
    assert stale[..j + 1][..j] == stale[..j];
    assert stale[j] in stale;
    assert stale[..j + 1] == stale[..j] + [stale[j]];
    forall x | x in stale[..j] ensures x != stale[j] {
      var i :| 0 <= i < j && stale[i] == x;
    }
  }

  lemma {:induction false} FilterOutNothing(ids: seq<int>)
    ensures FilterOut(ids, {}) == ids
    decreases |ids|
  {
    if ids != [] {
      FilterOutNothing(ids[1..]);
      assert ids == [ids[0]] + ids[1..];
    }
  }

  // ---------------------------------------------------------------------
  // Properties

  /** The TTL boundary is strict: an entry is still there exactly ten minutes
      after registration and gone any time later. */
  lemma EvictionBoundary(pending: map<int, PendingTranscription>, sid: int, now: real)
    requires sid in pending
    ensures now <= pending[sid].createdAt + TtlSeconds ==> sid in Evict(pending, now)
    ensures now > pending[sid].createdAt + TtlSeconds ==> sid !in Evict(pending, now)
  {
  }

  /** An entry registered at `t` and read back at `later`, no more than ten
      minutes on, is the entry with the given fields. */
  lemma RegisterThenGet(pending: map<int, PendingTranscription>, entry: PendingTranscription, t: real, later: real)
    requires entry.createdAt == t
    requires t <= later <= t + TtlSeconds
    ensures Lookup(AfterRegister(pending, entry, t), entry.sessionId, later) == Some(entry)
  {
  }

  /** An id never registered reads as `None`. */
  lemma GetUnknown(pending: map<int, PendingTranscription>, sessionId: int, now: real)
    requires sessionId !in pending
    ensures Lookup(pending, sessionId, now) == None
  {
  }

  /** Registering an id again replaces the earlier entry. */
  lemma RegisterOverwrites(pending: map<int, PendingTranscription>, first: PendingTranscription,
                           second: PendingTranscription, t: real)
    requires first.sessionId == second.sessionId
    requires first.createdAt == t && second.createdAt == t
    ensures Lookup(AfterRegister(AfterRegister(pending, first, t), second, t), second.sessionId, t) == Some(second)
  {
  }

  /** After a removal the id reads as `None`, whatever was there. */
  lemma RemoveThenGet(pending: map<int, PendingTranscription>, sessionId: int, now: real)
    ensures Lookup(AfterRemove(pending, sessionId), sessionId, now) == None
  {
  }

  /** Registering or removing one id leaves every other id's entry as eviction
      alone would leave it. */
  lemma OtherIdsUntouched(pending: map<int, PendingTranscription>, entry: PendingTranscription,
                          sid: int, now: real)
    requires sid != entry.sessionId
    ensures Lookup(AfterRegister(pending, entry, now), sid, now) == Lookup(pending, sid, now)
    ensures Lookup(AfterRemove(pending, entry.sessionId), sid, now) == Lookup(pending, sid, now)
  {
  }

  /** Eviction at a later time subsumes an earlier one, and repeating it
      changes nothing. */
  lemma EvictLater(pending: map<int, PendingTranscription>, t1: real, t2: real)
    requires t1 <= t2
    ensures Evict(Evict(pending, t1), t2) == Evict(pending, t2)
  {
    var a := Evict(Evict(pending, t1), t2);
    var b := Evict(pending, t2);
    assert a.Keys == b.Keys;
  }

  /** The registry's own test scenarios: register then get; get of an unknown
      id; register then remove then get; and a second register overwriting the
      first. */
  method Scenarios(now: real) returns (got: Option<PendingTranscription>, unknown: Option<PendingTranscription>,
                                         removed: Option<PendingTranscription>, overwritten: Option<PendingTranscription>)
    ensures got.Some? && got.value.sessionId == 1 && got.value.language == "fr"
    ensures unknown == None && removed == None
    ensures overwritten.Some? && overwritten.value.language == "en" && overwritten.value.filename == "test2.wav"
  {
    var r := new Registry();
    var e := r.Register(1, "test.wav", "fr", 0, "test.wav", now);
    got := r.Get(1, now);
    unknown := r.Get(999, now);
    r.Remove(1);
    removed := r.Get(1, now);
    r.Remove(999);
    var e1 := r.Register(1, "test1.wav", "fr", 0, "test1.wav", now);
    var e2 := r.Register(1, "test2.wav", "en", 0, "test2.wav", now);
    overwritten := r.Get(1, now);
  }
}
