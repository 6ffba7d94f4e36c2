/** The player document's storage codec: before a player is written its heavy
    nested fields are moved into one compressed blob and a flat lab-level
    index is built from its hero, troop and spell lists; after it is read (or
    saved) the heavy fields are restored from the blob. */
module PlayerCodec {
  import opened Results
  import opened Values

  /** The heavy fields that live only inside `binary_bytes` (Player.COMPRESSED_FIELDS) */
  const Compressed: set<string> :=
    {"achievements", "clan", "heroes", "league", "legendStatistics", "spells", "troops"}

  /** The leveled-item lists scanned for the lab-level index */
  const LabListNames: set<string> := {"heroes", "troops", "spells"}

  /** Fields the codec writes itself; every other non-heavy field passes through */
  const Derived: set<string> := {"lab_levels", "binary_bytes", "slug"}

  /** The field-name facts the proofs below lean on: the lab lists are
      heavy, and the fields the codec writes itself are neither heavy nor
      lab lists nor private. */
  lemma FieldNames()
    ensures "heroes" in LabListNames && "troops" in LabListNames && "spells" in LabListNames
    ensures LabListNames <= Compressed
    ensures "lab_levels" !in Compressed && "binary_bytes" !in Compressed && "slug" !in Compressed
    ensures "tag" !in Compressed && "name" !in Compressed
    ensures "lab_levels" !in LabListNames && "tag" !in LabListNames && "name" !in LabListNames
  {
  }

  datatype CodecError =
    | NotAList(field: string)   // a lab list that cannot be concatenated with a list
    | MalformedLabItem          // an item without a string village, a string name or a level
    | LabLevelsNotAMap          // `lab_levels` cannot take item assignment
    | CorruptPayload            // `binary_bytes` does not decode

  /** The serialise-and-compress pair (JSON text, then zlib). Decoding bytes
      that are not a valid payload gives `None`. */
  datatype Codec = Codec(encode: Record -> seq<bv8>, decode: seq<bv8> -> Option<Record>)

  /** What the store relies on from the codec: every payload decodes back to
      itself, and its encoding is never the empty (falsy) byte string, which
      zlib output, with its header, never is. */
  ghost predicate LosslessCodec(c: Codec) {
    forall m: Record :: |c.encode(m)| > 0 && c.decode(c.encode(m)) == Some(m)
  }

  // ---------------------------------------------------------------------------
  // The lab-level index
  // ---------------------------------------------------------------------------

  /** `name.replace('.', '')` */
  function RemoveDots(s: string): (r: string)
    ensures forall i :: 0 <= i < |r| ==> r[i] != '.'
    ensures multiset(r) == multiset(s)['.' := 0]
  {
    if |s| == 0 then ""
    else
      assert s == [s[0]] + s[1..];
      if s[0] == '.' then RemoveDots(s[1..]) else [s[0]] + RemoveDots(s[1..])
  }

  /** Dot removal works character by character, so it keeps the order of
      everything it does not remove. */
  lemma {:induction false} RemoveDotsAppend(a: string, b: string)
    ensures RemoveDots(a + b) == RemoveDots(a) + RemoveDots(b)
  {
    if |a| == 0 {
      assert a + b == b;
    } else {
      assert (a + b)[0] == a[0];
      assert (a + b)[1..] == a[1..] + b;
      RemoveDotsAppend(a[1..], b);
    }
  }

  /** A name without dots is its own index segment. */
  lemma {:induction false} RemoveDotsKeepsDotlessName(s: string)
    requires forall i :: 0 <= i < |s| ==> s[i] != '.'
    ensures RemoveDots(s) == s
  {
    if |s| > 0 {
      RemoveDotsKeepsDotlessName(s[1..]);
    }
  }

  /** The index key of an item: `<village>_<name without dots>` */
  function LabKey(village: string, name: string): string {
    village + "_" + RemoveDots(name)
  }

  /** An item the index loop can read: a map with a string `village`, a
      string `name` and some `level` */
  predicate WellFormedLabItem(item: Value) {
    && item.Object?
    && "village" in item.fields && item.fields["village"].Str?
    && "name" in item.fields && item.fields["name"].Str?
    && "level" in item.fields
  }

  predicate AllWellFormed(items: seq<Value>) {
    forall i :: 0 <= i < |items| ==> WellFormedLabItem(items[i])
  }

  function KeyOf(item: Value): string
    requires WellFormedLabItem(item)
  {
    LabKey(item.fields["village"].s, item.fields["name"].s)
  }

  function LevelOf(item: Value): Value
    requires WellFormedLabItem(item)
  {
    item.fields["level"]
  }

  /** The index loop: items in order, each writing its level under its key.
      No old key is dropped, and the last item's level is the one kept
      under its key. */
  function ApplyLevels(levels: Record, items: seq<Value>): (r: Record)
    requires AllWellFormed(items)
    ensures levels.Keys <= r.Keys
    ensures |items| > 0 ==> KeyOf(items[|items| - 1]) in r && r[KeyOf(items[|items| - 1])] == LevelOf(items[|items| - 1])
    decreases |items|
  {
    if |items| == 0 then levels
    else ApplyLevels(levels[KeyOf(items[0]) := LevelOf(items[0])], items[1..])
  }

  lemma TailWellFormed(items: seq<Value>)
    requires |items| > 0 && AllWellFormed(items)
    ensures AllWellFormed(items[1..])
  {
    forall i | 0 <= i < |items| - 1 ensures WellFormedLabItem(items[1..][i]) {
      assert items[1..][i] == items[i + 1];
    }
  }

  /** The index holds exactly the keys it had and the keys of the items. */
  lemma {:induction false} ApplyLevelsKeys(levels: Record, items: seq<Value>)
    requires AllWellFormed(items)
    ensures forall k :: k in ApplyLevels(levels, items) <==>
      k in levels || exists j :: 0 <= j < |items| && KeyOf(items[j]) == k
    decreases |items|
  {
    if |items| > 0 {
      var rest := items[1..];
      var levels' := levels[KeyOf(items[0]) := LevelOf(items[0])];
      TailWellFormed(items);
      ApplyLevelsKeys(levels', rest);
      forall k
        ensures k in ApplyLevels(levels, items) <==> k in levels || exists j :: 0 <= j < |items| && KeyOf(items[j]) == k
      {
        if exists j :: 0 <= j < |rest| && KeyOf(rest[j]) == k {
          var j :| 0 <= j < |rest| && KeyOf(rest[j]) == k;
          assert items[j + 1] == rest[j];
        }
        if exists j :: 0 <= j < |items| && KeyOf(items[j]) == k {
          var j :| 0 <= j < |items| && KeyOf(items[j]) == k;
          if j > 0 {
            assert rest[j - 1] == items[j];
          }
        }
      }
    }
  }

  /** Last write wins: an item key maps to the level of the LAST item that
      has that key, whatever earlier items or the old index said. */
  lemma {:induction false} ApplyLevelsLastWriteWins(levels: Record, items: seq<Value>, j: int)
    requires AllWellFormed(items)
    requires 0 <= j < |items|
    requires forall i :: j < i < |items| ==> KeyOf(items[i]) != KeyOf(items[j])
    ensures KeyOf(items[j]) in ApplyLevels(levels, items)
    ensures ApplyLevels(levels, items)[KeyOf(items[j])] == LevelOf(items[j])
    decreases |items|
  {
    var rest := items[1..];
    var levels' := levels[KeyOf(items[0]) := LevelOf(items[0])];
    TailWellFormed(items);
    if j == 0 {
      forall i | 0 <= i < |rest| ensures KeyOf(rest[i]) != KeyOf(items[0]) {
        assert rest[i] == items[i + 1];
      }
      ApplyLevelsKeepsOthers(levels', rest, KeyOf(items[0]));
    } else {
      assert items[j] == rest[j - 1];
      forall i | j - 1 < i < |rest| ensures KeyOf(rest[i]) != KeyOf(rest[j - 1]) {
        assert rest[i] == items[i + 1];
      }
      ApplyLevelsLastWriteWins(levels', rest, j - 1);
    }
  }

  /** An old index entry that no item rewrites is kept, never cleared. */
  lemma {:induction false} ApplyLevelsKeepsOthers(levels: Record, items: seq<Value>, k: string)
    requires AllWellFormed(items)
    requires k in levels
    requires forall i :: 0 <= i < |items| ==> KeyOf(items[i]) != k
    ensures k in ApplyLevels(levels, items) && ApplyLevels(levels, items)[k] == levels[k]
    decreases |items|
  {
    if |items| > 0 {
      var rest := items[1..];
      TailWellFormed(items);
      forall i | 0 <= i < |rest| ensures KeyOf(rest[i]) != k {
        assert rest[i] == items[i + 1];
      }
      ApplyLevelsKeepsOthers(levels[KeyOf(items[0]) := LevelOf(items[0])], rest, k);
    }
  }

  /** One pass of the index loop over `items`, writing into `levels`.
      The first item is read before `lab_levels` is indexed, so a malformed
      first item is reported ahead of a `lab_levels` that is not a map. */
  function IndexLevels(levels: Value, items: seq<Value>): (r: Result<Value, CodecError>)
    ensures r.Ok? <==> |items| == 0 || (levels.Object? && AllWellFormed(items))
    ensures r.Ok? && |items| > 0 ==> r.value == Object(ApplyLevels(levels.fields, items))
    ensures |items| == 0 ==> r == Ok(levels)
  {
    if |items| == 0 then Ok(levels)
    else if !WellFormedLabItem(items[0]) then Err(MalformedLabItem)
    else if !levels.Object? then Err(LabLevelsNotAMap)
    else if !AllWellFormed(items) then Err(MalformedLabItem)
    else Ok(Object(ApplyLevels(levels.fields, items)))
  }

  // ---------------------------------------------------------------------------
  // Moving the heavy fields out and back in
  // ---------------------------------------------------------------------------

  /** The loop over COMPRESSED_FIELDS: each heavy field present in the
      document, collected into the payload */
  function Payload(doc: Record): (p: Record)
    ensures p.Keys == Compressed * doc.Keys
  {
    map f | f in Compressed && f in doc :: doc[f]
  }

  /** The end of `pre_save` and `compressed_fields`: heavy fields deleted,
      the payload encoded into `binary_bytes`, the slug set */
  function Seal(codec: Codec, doc: Record, slug: string): (r: Record)
    ensures r.Keys == (doc.Keys - Compressed) + {"binary_bytes", "slug"}
    ensures Compressed !! r.Keys
    ensures forall k :: k in doc && k !in Compressed && k != "binary_bytes" && k != "slug" ==> r[k] == doc[k]
    ensures r["binary_bytes"] == Bytes(codec.encode(Payload(doc)))
    ensures r["slug"] == Str(slug)
  {
    assert "binary_bytes" !in Compressed && "slug" !in Compressed;
    (doc - Compressed)["binary_bytes" := Bytes(codec.encode(Payload(doc)))]["slug" := Str(slug)]
  }

  /** The loop of `post_init`: each heavy field present in the payload is set
      on the document. */
  function Restore(doc: Record, payload: Record): (r: Record)
    ensures r.Keys == doc.Keys + (Compressed * payload.Keys)
    ensures forall f :: f in Compressed && f in payload ==> r[f] == payload[f]
    ensures forall k :: k in doc && !(k in Compressed && k in payload) ==> r[k] == doc[k]
  {
    doc + map f | f in Compressed && f in payload :: payload[f]
  }

  // ---------------------------------------------------------------------------
  // pre_save
  // ---------------------------------------------------------------------------

  /** `document.<f> = document.<f> or []` */
  function OrEmptyList(doc: Record, f: string): Record {
    doc[f := if f in doc && Truthy(doc[f]) then doc[f] else List([])]
  }

  /** The three lab lists replaced by `[]` when missing or falsy */
  function DefaultLabLists(doc: Record): (r: Record)
    ensures r.Keys == doc.Keys + LabListNames
    ensures forall f :: f in LabListNames ==> r[f] == (if f in doc && Truthy(doc[f]) then doc[f] else List([]))
    ensures forall k :: k in doc && k !in LabListNames ==> r[k] == doc[k]
  {
    OrEmptyList(OrEmptyList(OrEmptyList(doc, "heroes"), "troops"), "spells")
  }

  /** The items of one list field, for the `+` concatenation */
  function ListItems(v: Value, field: string): Result<seq<Value>, CodecError> {
    if v.List? then Ok(v.items) else Err(NotAList(field))
  }

  /** `heroes + troops + spells`, with an absent list read as `default`.
      Three strings (or three byte strings) also concatenate; iterating the
      result yields characters (or integers), which the loop cannot index by
      `'village'`, so only an empty concatenation gets through. */
  function LabItems(doc: Record, default: Value): (r: Result<seq<Value>, CodecError>)
    requires default == Null || default == List([])
    ensures r.Ok? ==> ListsPresentAreLists(doc) || EmptyTextLists(doc)
    ensures r.Ok? ==> r.value == ScanItems(doc)
  {
    var h := if "heroes" in doc then doc["heroes"] else default;
    var t := if "troops" in doc then doc["troops"] else default;
    var s := if "spells" in doc then doc["spells"] else default;
    if h.Str? && t.Str? && s.Str? then
      if |h.s + t.s + s.s| == 0 then Ok([]) else Err(MalformedLabItem)
    else if h.Bytes? && t.Bytes? && s.Bytes? then
      if |h.data + t.data + s.data| == 0 then Ok([]) else Err(MalformedLabItem)
    else
      var heroes :- ListItems(h, "heroes");
      var troops :- ListItems(t, "troops");
      var spells :- ListItems(s, "spells");
      Ok(heroes + troops + spells)
  }

  /** The items of one lab list, `[]` when it is not a list */
  function ListedItems(doc: Record, f: string): seq<Value> {
    if f in doc && doc[f].List? then doc[f].items else []
  }

  /** Every item the index loop scans, in scan order: heroes, then troops,
      then spells */
  function ScanItems(doc: Record): seq<Value> {
    ListedItems(doc, "heroes") + ListedItems(doc, "troops") + ListedItems(doc, "spells")
  }

  /** Every present lab list is a list */
  ghost predicate ListsPresentAreLists(doc: Record) {
    forall f :: f in LabListNames && f in doc ==> doc[f].List?
  }

  /** All three lab lists are empty strings, or all three are empty byte
      strings: their concatenation is empty and leaves nothing to scan. */
  predicate EmptyTextLists(doc: Record) {
    && "heroes" in doc && "troops" in doc && "spells" in doc
    && ((doc["heroes"] == Str("") && doc["troops"] == Str("") && doc["spells"] == Str(""))
        || (doc["heroes"] == Bytes([]) && doc["troops"] == Bytes([]) && doc["spells"] == Bytes([])))
  }

  /** The concatenation succeeds exactly when every lab list it reads is a
      list, or when all three are empty text, and then it yields the
      scanned items. */
  lemma LabItemsSucceed(doc: Record, default: Value)
    requires default == List([]) || (default == Null && LabListNames <= doc.Keys)
    ensures LabItems(doc, default).Ok? <==> ListsPresentAreLists(doc) || EmptyTextLists(doc)
    ensures LabItems(doc, default).Ok? ==> LabItems(doc, default).value == ScanItems(doc)
  {
    assert "heroes" in LabListNames && "troops" in LabListNames && "spells" in LabListNames;
  }

  /** Defaulting leaves nothing new to scan: falsy lists are empty. */
  lemma DefaultingKeepsScan(doc: Record)
    ensures ListsPresentAreLists(DefaultLabLists(doc)) <==>
      forall f :: f in LabListNames && f in doc && Truthy(doc[f]) ==> doc[f].List?
    ensures ScanItems(DefaultLabLists(doc)) == ScanItems(doc)
    ensures !EmptyTextLists(DefaultLabLists(doc))
  {
    var d := DefaultLabLists(doc);
    assert "heroes" in LabListNames && "troops" in LabListNames && "spells" in LabListNames;
    assert d["heroes"] != Str("") && d["heroes"] != Bytes([]);
    assert forall f :: f in LabListNames ==> ListedItems(d, f) == ListedItems(doc, f);
  }

  /** The current `lab_levels` (a DictField, so `{}` when never set) */
  function CurrentLevels(doc: Record): Value {
    if "lab_levels" in doc then doc["lab_levels"] else Object(map[])
  }

  /** The documents `pre_save` accepts without raising: each lab list is
      falsy or a list, every item in them is readable, and `lab_levels` is a
      map whenever there is an item to index. */
  ghost predicate ReadyToSave(doc: Record) {
    && (forall f :: f in LabListNames && f in doc && Truthy(doc[f]) ==> doc[f].List?)
    && AllWellFormed(ScanItems(doc))
    && (|ScanItems(doc)| == 0 || CurrentLevels(doc).Object?)
  }

  /** The heavy payload `pre_save` is expected to encode for field `f`: the
      document's value, except that a missing or falsy lab list is `[]`. */
  function ExpectedPayloadValue(doc: Record, f: string): Value
    requires f in doc || f in LabListNames
  {
    if f in LabListNames && !(f in doc && Truthy(doc[f])) then List([]) else doc[f]
  }

  /** The level index after the scan: untouched when there is nothing to scan */
  function IndexedLevels(doc: Record): Value
    requires AllWellFormed(ScanItems(doc))
    requires |ScanItems(doc)| == 0 || CurrentLevels(doc).Object?
  {
    if |ScanItems(doc)| == 0 then CurrentLevels(doc)
    else Object(ApplyLevels(CurrentLevels(doc).fields, ScanItems(doc)))
  }

  /** The scan and the index loop together: the concatenated lab lists,
      each item's level written into the current `lab_levels` */
  function IndexLabLists(doc: Record, default: Value): (r: Result<Value, CodecError>)
    requires default == List([]) || (default == Null && LabListNames <= doc.Keys)
    ensures r.Ok? <==>
      && (ListsPresentAreLists(doc) || EmptyTextLists(doc))
      && AllWellFormed(ScanItems(doc))
      && (|ScanItems(doc)| == 0 || CurrentLevels(doc).Object?)
    ensures r.Ok? ==> r.value == IndexedLevels(doc)
  {
    LabItemsSucceed(doc, default);
    var items :- LabItems(doc, default);
    IndexLevels(CurrentLevels(doc), items)
  }

  /** The defaulted document scans and indexes like the original, and
      `pre_save` can index it exactly when the original is ready to save. */
  lemma DefaultedIndexesAlike(doc: Record)
    ensures var d := DefaultLabLists(doc);
      && (ReadyToSave(doc) <==>
            && (ListsPresentAreLists(d) || EmptyTextLists(d))
            && AllWellFormed(ScanItems(d))
            && (|ScanItems(d)| == 0 || CurrentLevels(d).Object?))
      && (ReadyToSave(doc) ==> IndexedLevels(d) == IndexedLevels(doc))
      && (IndexLabLists(d, Null).Ok? <==> ReadyToSave(doc))
      && (ReadyToSave(doc) ==> IndexLabLists(d, Null).value == IndexedLevels(doc))
  {
    var d := DefaultLabLists(doc);
    assert LabListNames <= d.Keys;
    DefaultingKeepsScan(doc);
    assert CurrentLevels(d) == CurrentLevels(doc);
  }

  /** The document with its lab lists defaulted and `lab_levels` set */
  function Defaulted(doc: Record, levels: Value): (r: Record)
    ensures r.Keys == doc.Keys + LabListNames + {"lab_levels"}
    ensures forall f :: f in LabListNames ==> r[f] == ExpectedPayloadValue(doc, f)
    ensures forall k :: k in doc && k !in LabListNames && k != "lab_levels" ==> r[k] == doc[k]
    ensures r["lab_levels"] == levels
  {
    DefaultLabLists(doc)["lab_levels" := levels]
  }

  /** The first half of `pre_save`: lab lists defaulted and indexed into
      `lab_levels`, nothing moved yet. */
  function PrepareForSave(doc: Record): (r: Result<Record, CodecError>)
    ensures r.Ok? <==> ReadyToSave(doc)
    ensures r.Ok? ==> r.value.Keys == doc.Keys + LabListNames + {"lab_levels"}
    ensures r.Ok? ==> forall f :: f in LabListNames ==> r.value[f] == ExpectedPayloadValue(doc, f)
    ensures r.Ok? ==> forall k :: k in doc && k !in LabListNames && k != "lab_levels" ==> r.value[k] == doc[k]
    ensures r.Ok? ==> r.value["lab_levels"] == IndexedLevels(doc)
  {
    DefaultedIndexesAlike(doc);
    var levels :- IndexLabLists(DefaultLabLists(doc), Null);
    Ok(Defaulted(doc, levels))
  }

  /** `Player.pre_save`: default the lab lists, index them into `lab_levels`,
      move the heavy fields into the encoded `binary_bytes`, set the slug.
      `slugify` receives the document's name and tag. */
  function PreSave(codec: Codec, slugify: (Value, Value) -> string, doc: Record): (r: Result<Record, CodecError>)
    ensures r.Ok? <==> ReadyToSave(doc)
    ensures r.Ok? ==> Compressed !! r.value.Keys
  {
    var d :- PrepareForSave(doc);
    Ok(Seal(codec, d, slugify(Get(d, "name"), Get(d, "tag"))))
  }

  /** `pre_save` leaves every field it does not own as it was, stores the
      payload as bytes and the slug of the document's name and tag. */
  lemma PreSaveKeepsOtherFields(codec: Codec, slugify: (Value, Value) -> string, doc: Record)
    requires ReadyToSave(doc)
    ensures var saved := PreSave(codec, slugify, doc).value;
      && (forall k :: k !in Compressed && k !in Derived ==>
            (k in saved <==> k in doc) && (k in doc ==> saved[k] == doc[k]))
      && "binary_bytes" in saved && saved["binary_bytes"].Bytes?
      && "slug" in saved && saved["slug"] == Str(slugify(Get(doc, "name"), Get(doc, "tag")))
  {
    var d := PrepareForSave(doc).value;
    FieldNames();
    assert Get(d, "name") == Get(doc, "name") && Get(d, "tag") == Get(doc, "tag");
  }

  /** After `pre_save`, `lab_levels` is the old index with every scanned
      item's level written under its key, heroes then troops then spells. */
  lemma PreSaveIndexesLabLists(codec: Codec, slugify: (Value, Value) -> string, doc: Record)
    requires ReadyToSave(doc)
    ensures "lab_levels" in PreSave(codec, slugify, doc).value
    ensures PreSave(codec, slugify, doc).value["lab_levels"] == IndexedLevels(doc)
  {
    FieldNames();
  }

  /** The encoded payload holds exactly the heavy fields that were present
      (and the three lab lists always), with their pre-save values. */
  lemma PreSavePayload(codec: Codec, slugify: (Value, Value) -> string, doc: Record)
    requires LosslessCodec(codec)
    requires ReadyToSave(doc)
    ensures var saved := PreSave(codec, slugify, doc).value;
      && codec.decode(saved["binary_bytes"].data).Some?
      && var payload := codec.decode(saved["binary_bytes"].data).value;
      && payload.Keys == (Compressed * doc.Keys) + LabListNames
      && forall f :: f in payload ==> payload[f] == ExpectedPayloadValue(doc, f)
  {
    var d := PrepareForSave(doc).value;
    var data := Payload(d);
    PreparedPayload(doc);
    var saved := Seal(codec, d, slugify(Get(d, "name"), Get(d, "tag")));
    assert PreSave(codec, slugify, doc).value == saved;
    assert saved["binary_bytes"].data == codec.encode(data);
    assert codec.decode(codec.encode(data)) == Some(data);
  }

  /** The heavy fields of the prepared document are those of the original,
      with the lab lists defaulted. */
  lemma PreparedPayload(doc: Record)
    requires ReadyToSave(doc)
    ensures var data := Payload(PrepareForSave(doc).value);
      && data.Keys == (Compressed * doc.Keys) + LabListNames
      && forall f :: f in data ==> data[f] == ExpectedPayloadValue(doc, f)
  {
    var d := PrepareForSave(doc).value;
    FieldNames();
    var data := Payload(d);
    forall f | f in data ensures data[f] == ExpectedPayloadValue(doc, f) {
      assert data[f] == d[f];
    }
  }

  // ---------------------------------------------------------------------------
  // post_init
  // ---------------------------------------------------------------------------

  /** `Player.post_init`: when `binary_bytes` is truthy, decode it and set
      every heavy field the payload holds. Other keys of the payload are
      ignored; a payload that does not decode is an error. */
  function PostInit(codec: Codec, doc: Record): (r: Result<Record, CodecError>)
    ensures !Truthy(Get(doc, "binary_bytes")) ==> r == Ok(doc)
    ensures Truthy(Get(doc, "binary_bytes")) ==>
      (r.Ok? <==> doc["binary_bytes"].Bytes? && codec.decode(doc["binary_bytes"].data).Some?)
    ensures r.Ok? && Truthy(Get(doc, "binary_bytes")) ==>
      var payload := codec.decode(doc["binary_bytes"].data).value;
      && r.value.Keys == doc.Keys + (Compressed * payload.Keys)
      && (forall f :: f in Compressed && f in payload ==> r.value[f] == payload[f])
      && (forall k :: k in doc && !(k in Compressed && k in payload) ==> r.value[k] == doc[k])
  {
    if !Truthy(Get(doc, "binary_bytes")) then Ok(doc)
    else match doc["binary_bytes"]
      case Bytes(b) => (
        match codec.decode(b)
        case Some(payload) => Ok(Restore(doc, payload))
        case None => Err(CorruptPayload))
      case _ => Err(CorruptPayload)
  }

  /** Round trip (the document as it stands after `save`, which runs
      `post_init` again): every heavy field comes back with its pre-save
      value, the three lab lists come back as lists, and every other field
      is what `pre_save` left. */
  lemma SaveThenLoadRestores(codec: Codec, slugify: (Value, Value) -> string, doc: Record)
    requires LosslessCodec(codec)
    requires ReadyToSave(doc)
    ensures var saved := PreSave(codec, slugify, doc).value;
      && PostInit(codec, saved).Ok?
      && var loaded := PostInit(codec, saved).value;
      && (forall f :: f in Compressed ==>
            (f in loaded <==> f in doc || f in LabListNames)
            && (f in loaded ==> loaded[f] == ExpectedPayloadValue(doc, f)))
      && (forall k :: k !in Compressed ==> (k in loaded <==> k in saved) && (k in saved ==> loaded[k] == saved[k]))
  {
    var saved := PreSave(codec, slugify, doc).value;
    PreSavePayload(codec, slugify, doc);
    assert Truthy(Get(saved, "binary_bytes"));
  }

  // ---------------------------------------------------------------------------
  // compressed_fields (the upsert path)
  // ---------------------------------------------------------------------------

  /** Attribute names Python keeps for the object's own machinery */
  predicate IsPrivate(key: string) {
    |key| > 0 && key[0] == '_'
  }

  /** The attributes `compressed_fields` accepts without raising: each lab
      list is absent or a list (or all three are empty text), every item is
      readable, and `lab_levels` is a map whenever there is an item to
      index. */
  ghost predicate ReadyToUpsert(attrs: Record) {
    && (ListsPresentAreLists(attrs) || EmptyTextLists(attrs))
    && AllWellFormed(ScanItems(attrs))
    && (|ScanItems(attrs)| == 0 || CurrentLevels(attrs).Object?)
  }

  /** Two records that agree on the lab lists and on `lab_levels` scan and
      index alike. */
  lemma SameLabLists(a: Record, b: Record)
    requires forall f :: f in LabListNames || f == "lab_levels" ==>
      (f in a <==> f in b) && (f in a ==> a[f] == b[f])
    ensures ScanItems(a) == ScanItems(b) && CurrentLevels(a) == CurrentLevels(b)
    ensures ListsPresentAreLists(a) <==> ListsPresentAreLists(b)
    ensures EmptyTextLists(a) <==> EmptyTextLists(b)
    ensures ReadyToUpsert(a) <==> ReadyToUpsert(b)
    ensures ReadyToUpsert(a) ==> IndexedLevels(a) == IndexedLevels(b)
  {
    assert "heroes" in LabListNames && "troops" in LabListNames && "spells" in LabListNames;
  }

  /** `vars(self)` without its private attributes, with `tag` set */
  function PublicFields(attrs: Record, tag: Value): (r: Record)
    ensures forall k :: k in r <==> (k in attrs && !IsPrivate(k)) || k == "tag"
    ensures r["tag"] == tag
    ensures forall k :: k in attrs && !IsPrivate(k) && k != "tag" ==> r[k] == attrs[k]
    ensures forall f :: f in LabListNames || f == "lab_levels" ==>
      (f in r <==> f in attrs) && (f in r ==> r[f] == attrs[f])
  {
    assert forall f :: f in LabListNames || f == "lab_levels" ==> !IsPrivate(f) && f != "tag";
    (map k | k in attrs && !IsPrivate(k) :: attrs[k])["tag" := tag]
  }

  /** The public attributes with `tag` and `lab_levels` set */
  function WithLevels(attrs: Record, tag: Value, levels: Value): (r: Record)
    ensures forall k :: k in r <==> (k in attrs && !IsPrivate(k)) || k == "tag" || k == "lab_levels"
    ensures r["tag"] == tag
    ensures forall k :: k in attrs && !IsPrivate(k) && k != "tag" && k != "lab_levels" ==> r[k] == attrs[k]
    ensures r["lab_levels"] == levels
  {
    PublicFields(attrs, tag)["lab_levels" := levels]
  }

  /** The first half of `compressed_fields`: private attributes dropped,
      `tag` set, lab lists indexed into `lab_levels`, nothing moved yet. */
  function PrepareForUpsert(attrs: Record, tag: Value): (r: Result<Record, CodecError>)
    ensures r.Ok? <==> ReadyToUpsert(attrs)
    ensures r.Ok? ==> forall k :: k in r.value <==> (k in attrs && !IsPrivate(k)) || k == "tag" || k == "lab_levels"
    ensures r.Ok? ==> r.value["tag"] == tag
    ensures r.Ok? ==> forall k :: k in attrs && !IsPrivate(k) && k != "tag" && k != "lab_levels" ==> r.value[k] == attrs[k]
    ensures r.Ok? ==> r.value["lab_levels"] == IndexedLevels(attrs)
  {
    var fields := PublicFields(attrs, tag);
    SameLabLists(fields, attrs);
    var levels :- IndexLabLists(fields, List([]));
    Ok(WithLevels(attrs, tag, levels))
  }

  /** `Player.compressed_fields`: the replacement document written by an
      upsert. `attrs` is the object's attribute dictionary, `tag` and `name`
      its `tag` and `name` attributes. Unlike `pre_save`, absent lab lists
      are read as `[]` without being added, and `lab_levels` is always set. */
  function CompressedFields(codec: Codec, slugify: (Value, Value) -> string,
                            attrs: Record, tag: Value, name: Value): (r: Result<Record, CodecError>)
    ensures r.Ok? <==> ReadyToUpsert(attrs)
    ensures r.Ok? ==> forall k :: k in r.value ==> !IsPrivate(k)
    ensures r.Ok? ==> Compressed !! r.value.Keys
  {
    var fields :- PrepareForUpsert(attrs, tag);
    Ok(Seal(codec, fields, slugify(name, tag)))
  }

  /** The upsert document carries the object's tag, every public non-heavy
      attribute unchanged, the index, the payload as bytes and the slug. */
  lemma CompressedFieldsKeepsOtherFields(codec: Codec, slugify: (Value, Value) -> string,
                                         attrs: Record, tag: Value, name: Value)
    requires ReadyToUpsert(attrs)
    ensures var stored := CompressedFields(codec, slugify, attrs, tag, name).value;
      && "tag" in stored && stored["tag"] == tag
      && (forall k :: k !in Compressed && k !in Derived && k != "tag" ==>
            (k in stored <==> k in attrs && !IsPrivate(k)) && (k in stored ==> stored[k] == attrs[k]))
      && "lab_levels" in stored && stored["lab_levels"] == IndexedLevels(attrs)
      && "binary_bytes" in stored && stored["binary_bytes"].Bytes?
      && "slug" in stored && stored["slug"] == Str(slugify(name, tag))
  {
    var fields := PrepareForUpsert(attrs, tag).value;
    assert CompressedFields(codec, slugify, attrs, tag, name).value == Seal(codec, fields, slugify(name, tag));
    FieldNames();
  }

  /** Dropping private attributes and setting `tag` and `lab_levels` does
      not touch a heavy field. */
  lemma PreparedUpsertKeepsPayload(attrs: Record, tag: Value)
    requires ReadyToUpsert(attrs)
    ensures Payload(PrepareForUpsert(attrs, tag).value) == Payload(attrs)
  {
    var fields := PrepareForUpsert(attrs, tag).value;
    forall f | f in Compressed
      ensures f in fields <==> f in attrs
      ensures f in fields ==> fields[f] == attrs[f]
    {
      assert !IsPrivate(f) && f != "tag" && f != "lab_levels";
    }
  }

  /** The upsert payload holds exactly the heavy attributes the object had,
      with their values. */
  lemma UpsertPayload(codec: Codec, slugify: (Value, Value) -> string,
                      attrs: Record, tag: Value, name: Value)
    requires LosslessCodec(codec)
    requires ReadyToUpsert(attrs)
    ensures var stored := CompressedFields(codec, slugify, attrs, tag, name).value;
      && codec.decode(stored["binary_bytes"].data).Some?
      && var payload := codec.decode(stored["binary_bytes"].data).value;
      && payload.Keys == Compressed * attrs.Keys
      && forall f :: f in payload ==> payload[f] == attrs[f]
  {
    var fields := PrepareForUpsert(attrs, tag).value;
    PreparedUpsertKeepsPayload(attrs, tag);
    assert CompressedFields(codec, slugify, attrs, tag, name).value["binary_bytes"] == Bytes(codec.encode(Payload(attrs)));
    assert codec.decode(codec.encode(Payload(attrs))) == Some(Payload(attrs));
  }

  /** Reading back an upserted document restores exactly the heavy fields
      the object had, with their values; no lab list is invented. */
  lemma UpsertThenLoadRestores(codec: Codec, slugify: (Value, Value) -> string,
                               attrs: Record, tag: Value, name: Value)
    requires LosslessCodec(codec)
    requires ReadyToUpsert(attrs)
    ensures var stored := CompressedFields(codec, slugify, attrs, tag, name).value;
      && PostInit(codec, stored).Ok?
      && var loaded := PostInit(codec, stored).value;
      && (forall f :: f in Compressed ==> (f in loaded <==> f in attrs) && (f in loaded ==> loaded[f] == attrs[f]))
  {
    var stored := CompressedFields(codec, slugify, attrs, tag, name).value;
    UpsertPayload(codec, slugify, attrs, tag, name);
    assert Truthy(Get(stored, "binary_bytes"));
  }

  /** Three empty strings concatenate to an empty one, so the upsert goes
      through with nothing indexed: whatever `lab_levels` held is stored as
      it was, and `{}` when it was unset. */
  lemma EmptyTextUpsert(codec: Codec, slugify: (Value, Value) -> string,
                        attrs: Record, tag: Value, name: Value)
    requires "heroes" in attrs && "troops" in attrs && "spells" in attrs
    requires attrs["heroes"] == Str("") && attrs["troops"] == Str("") && attrs["spells"] == Str("")
    ensures CompressedFields(codec, slugify, attrs, tag, name).Ok?
    ensures "lab_levels" in CompressedFields(codec, slugify, attrs, tag, name).value
    ensures CompressedFields(codec, slugify, attrs, tag, name).value["lab_levels"]
         == if "lab_levels" in attrs then attrs["lab_levels"] else Object(map[])
  {
    assert ScanItems(attrs) == [];
    CompressedFieldsKeepsOtherFields(codec, slugify, attrs, tag, name);
  }
}
