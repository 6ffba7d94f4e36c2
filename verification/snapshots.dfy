/** The clan snapshot store: every refresh of a clan saves a new snapshot,
    and a snapshot's id records when it was created (a BSON ObjectId begins
    with its creation time in whole seconds, big-endian, followed by eight
    more bytes). Time windows over the history are therefore comparisons of
    ids against the smallest id of a given second. Clan tags are normalised
    to begin with `#` before they are used. */
module Snapshots {
  import opened Results
  import opened Values

  // ---------------------------------------------------------------------------
  // Object ids and time
  // ---------------------------------------------------------------------------

  /** One more than the largest creation time a 4-byte timestamp holds */
  const SecondsBound: nat := 0x1_0000_0000

  /** The span of the eight bytes that follow the timestamp */
  const CounterSpan: nat := 0x1_0000_0000_0000_0000

  /** A 12-byte ObjectId read as a big-endian number */
  type ObjectId = n: nat | n < SecondsBound * CounterSpan

  /** `ObjectId.generation_time`, in whole seconds since the epoch */
  function CreationSeconds(id: ObjectId): (s: nat)
    ensures s < SecondsBound
    ensures s * CounterSpan <= id < (s + 1) * CounterSpan
  {
    id / CounterSpan
  }

  /** `ObjectId.from_datetime`: the timestamp followed by eight zero bytes */
  function FromSeconds(s: nat): (id: ObjectId)
    requires s < SecondsBound
    ensures CreationSeconds(id) == s
    ensures id % CounterSpan == 0
  {
    s * CounterSpan
  }

  /** `FromSeconds(s)` is the smallest id created in second `s`: an id lies at
      or after it exactly when it was created at or after `s`. */
  lemma ThresholdOrder(s: nat, id: ObjectId)
    requires s < SecondsBound
    ensures id >= FromSeconds(s) <==> CreationSeconds(id) >= s
  {
    var q := CreationSeconds(id);
    if q < s {
      assert (q + 1) * CounterSpan <= s * CounterSpan;
    } else {
      assert s * CounterSpan <= q * CounterSpan;
    }
  }

  datatype QueryError = TimestampOutOfRange

  /** `object_id_from_now`: the smallest id of second `now - lookback`, where
      `now` is the current time in seconds and `lookback` the window length.
      The timestamp must fit in four unsigned bytes. */
  function ObjectIdFromNow(now: int, lookback: int): (r: Result<ObjectId, QueryError>)
    ensures r.Ok? <==> 0 <= now - lookback < SecondsBound
    ensures r.Ok? ==> CreationSeconds(r.value) == now - lookback && r.value % CounterSpan == 0
  {
    var threshold := now - lookback;
    if 0 <= threshold < SecondsBound then Ok(FromSeconds(threshold)) else Err(TimestampOutOfRange)
  }

  /** A longer look back gives an earlier (or the same) threshold. */
  lemma LongerLookbackEarlierThreshold(now: int, shorter: int, longer: int)
    requires shorter <= longer
    requires ObjectIdFromNow(now, shorter).Ok? && ObjectIdFromNow(now, longer).Ok?
    ensures ObjectIdFromNow(now, longer).value <= ObjectIdFromNow(now, shorter).value
  {
    var s := now - shorter;
    var l := now - longer;
    assert l * CounterSpan <= s * CounterSpan;
  }

  // ---------------------------------------------------------------------------
  // Tags
  // ---------------------------------------------------------------------------

  predicate StartsWithHash(tag: string) {
    |tag| > 0 && tag[0] == '#'
  }

  /** A tag without its leading `#` gets one; a tag with one is kept. */
  function NormalizeTag(tag: string): (r: string)
    ensures StartsWithHash(r)
    ensures r == tag <==> StartsWithHash(tag)
    ensures |tag| <= |r| <= |tag| + 1 && r[|r| - |tag|..] == tag
  {
    if StartsWithHash(tag) then tag else "#" + tag
  }

  /** Normalising twice is normalising once. */
  lemma NormalizeTagIdempotent(tag: string)
    ensures NormalizeTag(NormalizeTag(tag)) == NormalizeTag(tag)
  {
  }

  /** A tag written with or without its `#` names the same clan. */
  lemma NormalizeTagIgnoresHash(tag: string)
    requires !StartsWithHash(tag)
    ensures NormalizeTag("#" + tag) == NormalizeTag(tag)
  {
  }

  // ---------------------------------------------------------------------------
  // Snapshots and windows over them
  // ---------------------------------------------------------------------------

  /** A saved clan document and the id it was stored under */
  datatype Snapshot = Snapshot(id: ObjectId, doc: Record)

  /** The document's `tag` field is `tag`. */
  predicate HasTag(s: Snapshot, tag: string) {
    Get(s.doc, "tag") == Str(tag)
  }

  /** The store holds snapshots in creation order: ids strictly increase. */
  predicate Ordered(store: seq<Snapshot>) {
    forall i, j :: 0 <= i < j < |store| ==> store[i].id < store[j].id
  }

  /** `id__gte`: the snapshots with an id at or after `t`, in store order */
  function AtOrAfter(store: seq<Snapshot>, t: ObjectId): (r: seq<Snapshot>)
    ensures forall s :: s in r <==> s in store && s.id >= t
    decreases |store|
  {
    if store == [] then []
    else (if store[0].id >= t then [store[0]] else []) + AtOrAfter(store[1..], t)
  }

  /** `id__lt`: the snapshots with an id before `t`, in store order */
  function Before(store: seq<Snapshot>, t: ObjectId): (r: seq<Snapshot>)
    ensures forall s :: s in r <==> s in store && s.id < t
    decreases |store|
  {
    if store == [] then []
    else (if store[0].id < t then [store[0]] else []) + Before(store[1..], t)
  }

  /** The snapshots carrying tag `tag`, in store order */
  function WithTag(store: seq<Snapshot>, tag: string): (r: seq<Snapshot>)
    ensures forall s :: s in r <==> s in store && HasTag(s, tag)
    decreases |store|
  {
    if store == [] then []
    else (if HasTag(store[0], tag) then [store[0]] else []) + WithTag(store[1..], tag)
  }

  /** `id__gte` and `tag` together, in store order */
  function AtOrAfterWithTag(store: seq<Snapshot>, t: ObjectId, tag: string): (r: seq<Snapshot>)
    ensures forall s :: s in r <==> s in store && s.id >= t && HasTag(s, tag)
    decreases |store|
  {
    if store == [] then []
    else (if store[0].id >= t && HasTag(store[0], tag) then [store[0]] else [])
         + AtOrAfterWithTag(store[1..], t, tag)
  }

  /** The two windows split the store: every snapshot, with its
      multiplicity, falls in exactly one of them. */
  lemma {:induction false} WindowsPartition(store: seq<Snapshot>, t: ObjectId)
    ensures multiset(AtOrAfter(store, t)) + multiset(Before(store, t)) == multiset(store)
    decreases |store|
  {
    if store != [] {
      WindowsPartition(store[1..], t);
      assert store == [store[0]] + store[1..];
    }
  }

  /** When every snapshot lies at or after `t`, the recent window is the
      whole store and the older one is empty. */
  lemma {:induction false} AllAtOrAfter(store: seq<Snapshot>, t: ObjectId)
    requires forall i :: 0 <= i < |store| ==> store[i].id >= t
    ensures AtOrAfter(store, t) == store
    ensures Before(store, t) == []
    decreases |store|
  {
    if store != [] {
      AllAtOrAfter(store[1..], t);
      assert store == [store[0]] + store[1..];
    }
  }

  /** In an ordered store the older window is a prefix and the recent window
      the rest. */
  lemma {:induction false} OrderedWindowsSplit(store: seq<Snapshot>, t: ObjectId)
    requires Ordered(store)
    ensures Before(store, t) + AtOrAfter(store, t) == store
    decreases |store|
  {
    if store != [] {
      assert store == [store[0]] + store[1..];
      if store[0].id >= t {
        AllAtOrAfter(store, t);
      } else {
        OrderedWindowsSplit(store[1..], t);
      }
    }
  }

  /** An earlier threshold keeps every snapshot a later one keeps. */
  lemma {:induction false} AtOrAfterMonotone(store: seq<Snapshot>, earlier: ObjectId, later: ObjectId)
    requires earlier <= later
    ensures multiset(AtOrAfter(store, later)) <= multiset(AtOrAfter(store, earlier))
    decreases |store|
  {
    if store != [] {
      AtOrAfterMonotone(store[1..], earlier, later);
    }
  }

  /** Filtering by id and tag at once is filtering the recent window by tag. */
  lemma {:induction false} AtOrAfterWithTagFilters(store: seq<Snapshot>, t: ObjectId, tag: string)
    ensures AtOrAfterWithTag(store, t, tag) == WithTag(AtOrAfter(store, t), tag)
    decreases |store|
  {
    if store != [] {
      AtOrAfterWithTagFilters(store[1..], t, tag);
      var head := if store[0].id >= t then [store[0]] else [];
      WithTagAppend(head, AtOrAfter(store[1..], t), tag);
    }
  }

  /** Filtering by tag distributes over concatenation. */
  lemma {:induction false} WithTagAppend(a: seq<Snapshot>, b: seq<Snapshot>, tag: string)
    ensures WithTag(a + b, tag) == WithTag(a, tag) + WithTag(b, tag)
    decreases |a|
  {
    if a != [] {
      assert (a + b)[0] == a[0];
      assert (a + b)[1..] == a[1..] + b;
      WithTagAppend(a[1..], b, tag);
    } else {
      assert a + b == b;
    }
  }

  /** A snapshot appended at or after `t` joins the end of the recent window. */
  lemma {:induction false} AtOrAfterAppend(store: seq<Snapshot>, s: Snapshot, t: ObjectId)
    requires s.id >= t
    ensures AtOrAfter(store + [s], t) == AtOrAfter(store, t) + [s]
    decreases |store|
  {
    if store == [] {
      assert AtOrAfter([s], t) == [s] + AtOrAfter([], t);
    } else {
      assert (store + [s])[1..] == store[1..] + [s];
      AtOrAfterAppend(store[1..], s, t);
    }
  }

  // ---------------------------------------------------------------------------
  // The clan queries
  // ---------------------------------------------------------------------------

  /** `Clan.from_now`: the snapshots created at or after `now - lookback` */
  function FromNow(store: seq<Snapshot>, now: int, lookback: int): (r: Result<seq<Snapshot>, QueryError>)
    ensures r.Ok? <==> 0 <= now - lookback < SecondsBound
    ensures r.Ok? ==> forall s :: s in r.value <==>
      s in store && CreationSeconds(s.id) >= now - lookback
  {
    var t :- ObjectIdFromNow(now, lookback);
    forall id: ObjectId ensures id >= t <==> CreationSeconds(id) >= now - lookback {
      ThresholdOrder(now - lookback, id);
    }
    Ok(AtOrAfter(store, t))
  }

  /** `Clan.older_than`: the snapshots created before `now - lookback` */
  function OlderThan(store: seq<Snapshot>, now: int, lookback: int): (r: Result<seq<Snapshot>, QueryError>)
    ensures r.Ok? <==> 0 <= now - lookback < SecondsBound
    ensures r.Ok? ==> forall s :: s in r.value <==>
      s in store && CreationSeconds(s.id) < now - lookback
  {
    var t :- ObjectIdFromNow(now, lookback);
    forall id: ObjectId ensures id >= t <==> CreationSeconds(id) >= now - lookback {
      ThresholdOrder(now - lookback, id);
    }
    Ok(Before(store, t))
  }

  /** `Clan.from_now_with_tag`: the snapshots of clan `tag` (normalised)
      created at or after `now - lookback` */
  function FromNowWithTag(store: seq<Snapshot>, tag: string, now: int, lookback: int)
    : (r: Result<seq<Snapshot>, QueryError>)
    ensures r.Ok? <==> 0 <= now - lookback < SecondsBound
    ensures r.Ok? ==> forall s :: s in r.value <==>
      s in store && CreationSeconds(s.id) >= now - lookback && HasTag(s, NormalizeTag(tag))
  {
    var t :- ObjectIdFromNow(now, lookback);
    forall id: ObjectId ensures id >= t <==> CreationSeconds(id) >= now - lookback {
      ThresholdOrder(now - lookback, id);
    }
    Ok(AtOrAfterWithTag(store, t, NormalizeTag(tag)))
  }

  /** For the same window, the recent and the older snapshots together are
      the whole store, each snapshot in exactly one. */
  lemma FromNowOlderThanPartition(store: seq<Snapshot>, now: int, lookback: int)
    requires 0 <= now - lookback < SecondsBound
    ensures multiset(FromNow(store, now, lookback).value) + multiset(OlderThan(store, now, lookback).value)
         == multiset(store)
  {
    WindowsPartition(store, ObjectIdFromNow(now, lookback).value);
  }

  /** In an ordered store, the older snapshots followed by the recent ones
      are the store itself. */
  lemma OrderedHistorySplit(store: seq<Snapshot>, now: int, lookback: int)
    requires Ordered(store)
    requires 0 <= now - lookback < SecondsBound
    ensures OlderThan(store, now, lookback).value + FromNow(store, now, lookback).value == store
  {
    OrderedWindowsSplit(store, ObjectIdFromNow(now, lookback).value);
  }

  /** Looking further back returns every snapshot a shorter look back
      returns, and possibly more. */
  lemma LongerLookbackSuperset(store: seq<Snapshot>, now: int, shorter: int, longer: int)
    requires shorter <= longer
    requires 0 <= now - shorter < SecondsBound && 0 <= now - longer < SecondsBound
    ensures multiset(FromNow(store, now, shorter).value) <= multiset(FromNow(store, now, longer).value)
  {
    LongerLookbackEarlierThreshold(now, shorter, longer);
    AtOrAfterMonotone(store, ObjectIdFromNow(now, longer).value, ObjectIdFromNow(now, shorter).value);
  }

  /** The tagged query is the recent window filtered by the normalised tag. */
  lemma FromNowWithTagFilters(store: seq<Snapshot>, tag: string, now: int, lookback: int)
    requires 0 <= now - lookback < SecondsBound
    ensures FromNowWithTag(store, tag, now, lookback).value
         == WithTag(FromNow(store, now, lookback).value, NormalizeTag(tag))
  {
    AtOrAfterWithTagFilters(store, ObjectIdFromNow(now, lookback).value, NormalizeTag(tag));
  }

  // ---------------------------------------------------------------------------
  // Fetching and saving a clan
  // ---------------------------------------------------------------------------

  datatype FetchError =
    | ClanNotFound        // the clan lookup did not answer 200
    | MissingMemberList   // the clan record has no `memberList` (KeyError)
    | PlayersUnavailable  // fetching the members' player records failed

  /** The saved record: `players` set to the fetched players and the
      `memberList` the players were fetched from removed */
  function Reshape(clan: Record, players: seq<Value>): (r: Result<Record, FetchError>)
    ensures r.Ok? <==> "memberList" in clan
    ensures r.Ok? ==> r.value.Keys == clan.Keys - {"memberList"} + {"players"}
    ensures r.Ok? ==> r.value["players"] == List(players)
    ensures r.Ok? ==> forall k :: k in clan && k != "memberList" && k != "players" ==> r.value[k] == clan[k]
  {
    if "memberList" !in clan then Err(MissingMemberList)
    else Ok(clan["players" := List(players)] - {"memberList"})
  }

  /** `Clan.fetch_and_save`: look the clan up under its normalised tag, fetch
      its members' player records, and append the reshaped record to the
      store under the id the save assigns. Either request may fail (`None`),
      and a clan record without `memberList` fails too. */
  function FetchAndSave(
    store: seq<Snapshot>,
    tag: string,
    findClan: string -> Option<Record>,
    fetchAllPlayers: Record -> Option<seq<Value>>,
    newId: ObjectId
  ): (r: Result<seq<Snapshot>, FetchError>)
    ensures r.Ok? <==>
      && findClan(NormalizeTag(tag)).Some?
      && fetchAllPlayers(findClan(NormalizeTag(tag)).value).Some?
      && "memberList" in findClan(NormalizeTag(tag)).value
    ensures r.Ok? ==> |r.value| == |store| + 1 && r.value[..|store|] == store
    ensures r.Ok? ==> r.value[|store|].id == newId
    ensures r.Ok? ==>
      var clan := findClan(NormalizeTag(tag)).value;
      var doc := r.value[|store|].doc;
      && doc.Keys == clan.Keys - {"memberList"} + {"players"}
      && doc["players"] == List(fetchAllPlayers(clan).value)
      && forall k :: k in clan && k != "memberList" && k != "players" ==> doc[k] == clan[k]
  {
    var clan :- match findClan(NormalizeTag(tag)) {
      case None => Err(ClanNotFound)
      case Some(c) => Ok(c)
    };
    var players :- match fetchAllPlayers(clan) {
      case None => Err(PlayersUnavailable)
      case Some(p) => Ok(p)
    };
    var doc :- Reshape(clan, players);
    Ok(store + [Snapshot(newId, doc)])
  }

  /** Saving under `#TAG` or `TAG` is the same. */
  lemma FetchAndSaveIgnoresHash(
    store: seq<Snapshot>,
    tag: string,
    findClan: string -> Option<Record>,
    fetchAllPlayers: Record -> Option<seq<Value>>,
    newId: ObjectId
  )
    requires !StartsWithHash(tag)
    ensures FetchAndSave(store, "#" + tag, findClan, fetchAllPlayers, newId)
         == FetchAndSave(store, tag, findClan, fetchAllPlayers, newId)
  {
    NormalizeTagIgnoresHash(tag);
  }

  /** A save whose id is newer than every stored one keeps the store
      ordered, and the new snapshot ends every window it falls in. */
  lemma FetchAndSaveKeepsOrder(
    store: seq<Snapshot>,
    tag: string,
    findClan: string -> Option<Record>,
    fetchAllPlayers: Record -> Option<seq<Value>>,
    newId: ObjectId,
    t: ObjectId
  )
    requires Ordered(store)
    requires forall i :: 0 <= i < |store| ==> store[i].id < newId
    requires FetchAndSave(store, tag, findClan, fetchAllPlayers, newId).Ok?
    requires t <= newId
    ensures Ordered(FetchAndSave(store, tag, findClan, fetchAllPlayers, newId).value)
    ensures var saved := FetchAndSave(store, tag, findClan, fetchAllPlayers, newId).value;
            AtOrAfter(saved, t) == AtOrAfter(store, t) + [saved[|store|]]
  {
    var saved := FetchAndSave(store, tag, findClan, fetchAllPlayers, newId).value;
    assert saved == store + [saved[|store|]];
    AtOrAfterAppend(store, saved[|store|], t);
  }
}
