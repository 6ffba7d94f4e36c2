# clashstats core, modelled in Dafny

clashstats tracks Clash of Clans clans and players over time. Each refresh of
a clan stores a new snapshot, player documents are stored in a compact form,
and the site shows per-clan statistics together with how they moved over the
last week and the last day. This project models the three pieces of pure
logic under the database and web plumbing.

- **The player storage codec** (`PlayerCodec`, `player_codec.dfy`). Before a
  player document is written, `pre_save` does four things:
  - it replaces missing or falsy `heroes`, `troops` and `spells` with `[]`;
  - it writes every item's level into the flat `lab_levels` index under the
    key `<village>_<name without dots>`;
  - it moves the heavy fields (`COMPRESSED_FIELDS`) into one map and stores
    that map serialised and compressed in `binary_bytes`;
  - it sets the slug.

  `post_init` puts back the heavy fields found in the decoded map.
  `compressed_fields` builds the same kind of document for a bulk upsert.
  The serialise-and-compress pair is a parameter, `Codec`. The round trip is
  assumed through the predicate `LosslessCodec`: every map decodes back to
  itself, and its encoding is never empty.
- **Pandas reductions** (`Aggregation`, `aggregation.dfy`), over exact reals:
  - a column is a map from row label to an optional cell,
    where `None` stands for NaN;
  - `sum` and `mean` skip missing cells;
  - subtracting two columns aligns rows by label over the union of both
    indexes.
- **Clan statistics** (`ClanCalculation`, `clan_calculation.dfy`):
  - `calculate_data`: 14 metrics over one roster;
  - `calculate_delta`: 16 metrics over the row-by-row change between
    two rosters;
  - `update_calculations`: stores the current figures and the weekly and
    daily deltas.

  A table ties every metric to the column it reads, with the names exactly as
  the code spells them. They are not uniform:
  - `calculate_data` reads `Donations`, but `calculate_delta` reads
    `Total Donations`;
  - the data's `avg_versus_wins` reads `Builder Hall Trophies`, while its
    `total_versus_wins` reads `Versus Battle Wins`.
- **The clan snapshot store** (`Snapshots`, `snapshots.dfy`):
  - ObjectIds are 96-bit numbers whose top 32 bits are the creation second;
  - `object_id_from_now` picks the smallest id of the second `now - lookback`;
  - `from_now`, `older_than` and `from_now_with_tag` are filters over the
    stored snapshots;
  - tags are normalised to start with `#`;
  - `fetch_and_save` replaces `memberList` with the fetched `players` and
    appends the record.

`Results` (`results.dfy`) holds `Option` and `Result`. `Values`
(`values.dfy`) holds the JSON-like `Value`, Python truthiness and `Get`, which
reads a field and gives `Null` when it is absent.

`update_calculations` reads each delta from `clan_delta`, which lives in a
file this model does not include. The model takes it to be `calculate_delta`
over the two snapshots' rosters.

## Model

| member | source | states |
|---|---|---|
| PlayerCodec.RemoveDots | clashleaders/model/player.py:92 | No `.` is left in a name. Every other character is kept with its multiplicity. |
| PlayerCodec.RemoveDotsAppend | clashleaders/model/player.py:92 | Dot removal works character by character, so the order of the kept characters is preserved. |
| PlayerCodec.RemoveDotsKeepsDotlessName | clashleaders/model/player.py:92 | A name without dots is its own index segment. |
| PlayerCodec.ApplyLevels | clashleaders/model/player.py:46-48 | The index loop never drops an old key, and the last item's level is the one stored under its key. |
| PlayerCodec.ApplyLevelsKeys | clashleaders/model/player.py:91-93 | After the index loop, the keys are exactly the old keys plus each scanned item's `<village>_<name without dots>`. |
| PlayerCodec.ApplyLevelsLastWriteWins | clashleaders/model/player.py:91-93 | An item's key maps to that item's level whenever no later item has the same key: the last write wins over earlier items and over the old index. |
| PlayerCodec.ApplyLevelsKeepsOthers | clashleaders/model/player.py:91-93 | An old index entry that no item rewrites is kept, never cleared. |
| PlayerCodec.IndexLevels | clashleaders/model/player.py:91-93 | The loop succeeds exactly when there is nothing to scan, or when `lab_levels` is a map and every item is readable. An empty scan leaves the index untouched. |
| PlayerCodec.Payload | clashleaders/model/player.py:95-99 | The collected map has exactly the heavy fields that are present. |
| PlayerCodec.Seal | clashleaders/model/player.py:95-102 | Heavy fields are removed, `binary_bytes` holds the encoded payload and `slug` is set. Every other field is unchanged. |
| PlayerCodec.DefaultLabLists | clashleaders/model/player.py:87-89 | Each of the three lab lists is kept when truthy and becomes `[]` otherwise. Nothing else changes. |
| PlayerCodec.LabItems | clashleaders/model/player.py:46 | Success means every present lab list is a list, or all three are empty text. The items are then the scanned items, heroes then troops then spells. |
| PlayerCodec.LabItemsSucceed | clashleaders/model/player.py:46 | `heroes + troops + spells` gets through the loop exactly when each list it reads is a list, or when all three are empty strings or all three empty byte strings. It then yields the items in that order. |
| PlayerCodec.IndexLabLists | clashleaders/model/player.py:45-48 | The scan and the index loop succeed exactly when the lists concatenate, every item is readable and `lab_levels` is a map whenever there is an item. The result is the old index updated by every scanned item. |
| PlayerCodec.DefaultingKeepsScan | clashleaders/model/player.py:87-91 | Defaulting adds no item to the scan: a falsy list is an empty one. |
| PlayerCodec.Defaulted | clashleaders/model/player.py:87-93 | The lab lists take their `x or []` values and `lab_levels` the given index. Every other field is unchanged. |
| PlayerCodec.PrepareForSave | clashleaders/model/player.py:86-93 | Succeeds exactly when the document can be indexed. Sets the lab lists to their defaulted values and `lab_levels` to the indexed levels, and passes every other field through. |
| PlayerCodec.PreSave | clashleaders/model/player.py:86-102 | Succeeds exactly when the document can be indexed. No heavy field remains on the saved document. |
| PlayerCodec.PreSaveKeepsOtherFields | clashleaders/model/player.py:95-102 | Every field outside the heavy and derived ones keeps its presence and value. `binary_bytes` holds bytes, and the slug is built from the name and tag. |
| PlayerCodec.PreSaveIndexesLabLists | clashleaders/model/player.py:91-93 | The saved `lab_levels` is the old index updated with every scanned item, heroes then troops then spells. |
| PlayerCodec.PreSavePayload | clashleaders/model/player.py:95-101 | The encoded map holds exactly the heavy fields that were present, plus the three lab lists always, each with its pre-save (defaulted) value. |
| PlayerCodec.Restore | clashleaders/model/player.py:81-83 | The keys become the document's plus the heavy fields in the payload. Each such field takes the payload's value, and every other field keeps its own. |
| PlayerCodec.PostInit | clashleaders/model/player.py:77-83 | Falsy `binary_bytes` leaves the document untouched. Otherwise exactly the heavy fields found in the decoded map are set. Every other field stays as it was, and undecodable bytes are an error. |
| PlayerCodec.SaveThenLoadRestores | clashleaders/model/player.py:77-107 | `post_init` after `pre_save` restores every heavy field to its pre-save value (lab lists defaulted). Every other field is what `pre_save` left. |
| PlayerCodec.PublicFields | clashleaders/model/player.py:38-44 | Exactly the attributes not starting with `_`, plus `tag`. `tag` is the object's tag, and every other kept attribute keeps its value. |
| PlayerCodec.WithLevels | clashleaders/model/player.py:38-45 | The public attributes with `tag` and `lab_levels` set to the given values. Every other public attribute keeps its value. |
| PlayerCodec.PrepareForUpsert | clashleaders/model/player.py:37-48 | Succeeds exactly when the lab lists can be indexed. Drops every key starting with `_`, sets `tag`, and passes other public keys through. `lab_levels` is the old index (or `{}`) with each scanned item's level written under its key, the last write winning. |
| PlayerCodec.CompressedFields | clashleaders/model/player.py:37-60 | Succeeds exactly when the attributes can be indexed. No private key and no heavy field remains. |
| PlayerCodec.CompressedFieldsKeepsOtherFields | clashleaders/model/player.py:37-60 | `tag` is the object's tag. Every public non-heavy attribute passes through unchanged. `lab_levels` is the old index updated by every scanned item. `binary_bytes` holds bytes, and `slug` is the slug of the name and tag. |
| PlayerCodec.PreparedUpsertKeepsPayload | clashleaders/model/player.py:38-54 | Dropping private keys and setting `tag` and `lab_levels` leaves every heavy field as it was. |
| PlayerCodec.UpsertPayload | clashleaders/model/player.py:50-56 | The upsert payload holds exactly the heavy attributes the object had, with their values. No lab list is added. |
| PlayerCodec.EmptyTextUpsert | clashleaders/model/player.py:45-56 | When the three lab lists are all empty strings, the upsert succeeds with nothing indexed. `lab_levels` is stored as it was, or `{}` when it was unset. |
| PlayerCodec.UpsertThenLoadRestores | clashleaders/model/player.py:37-83 | Loading an upserted document restores exactly the object's heavy attributes and their values. |
| Aggregation.SeriesMean | clashleaders/clash/clan_calculation.py:86 | The mean is NaN exactly when no cell is present. Otherwise mean × count equals the sum. |
| Aggregation.SumSingleColumn | clashleaders/clash/clan_calculation.py:80-82 | The sum of the present cells, and 0 when none is present. |
| Aggregation.MeanSingleColumn | clashleaders/clash/clan_calculation.py:85-87 | 0 when no cell is present. Otherwise mean × count equals the column's sum. |
| Aggregation.MeanWithinBounds | clashleaders/clash/clan_calculation.py:85-87 | The mean lies between any lower and upper bound of the present values. |
| Aggregation.Difference | clashleaders/clash/clan_calculation.py:71 | The rows of `now - start` are the union of both indexes. |
| Aggregation.DifferencePresent | clashleaders/clash/clan_calculation.py:70-77 | Only rows present on both sides survive the subtraction, each holding `now - start`. |
| Aggregation.AvgColumn | clashleaders/clash/clan_calculation.py:70-72 | 0 when no row is present in both rosters. |
| Aggregation.SumColumn | clashleaders/clash/clan_calculation.py:75-77 | 0 when no row is present in both rosters. |
| Aggregation.DifferenceOfSelfIsZero | clashleaders/clash/clan_calculation.py:70-77 | A roster compared with itself gives 0 for both the averaged and the summed change. |
| Aggregation.OppositeDifferences | clashleaders/clash/clan_calculation.py:70-77 | `a - b` and `b - a` keep the same rows, and their sums are opposite. |
| Aggregation.AvgColumnAntisymmetric | clashleaders/clash/clan_calculation.py:70-72 | `avg_column(c, a, b) == -avg_column(c, b, a)`. |
| Aggregation.SumColumnAntisymmetric | clashleaders/clash/clan_calculation.py:75-77 | `sum_column(c, a, b) == -sum_column(c, b, a)`. |
| Aggregation.SumColumnOfSameRows | clashleaders/clash/clan_calculation.py:75-77 | When the same row labels have values on both sides, the summed change is the difference of the two sums. |
| ClanCalculation.DataSource | clashleaders/clash/clan_calculation.py:30-46 | `calculate_data` fills exactly the fourteen metrics other than the two trophy totals. |
| ClanCalculation.DeltaSource | clashleaders/clash/clan_calculation.py:51-66 | `calculate_delta` reads the same column as `calculate_data` for every metric except three. The donations average and total read `Total Donations`, and the versus-wins average reads `Versus Battle Wins`. |
| ClanCalculation.DataValue | clashleaders/clash/clan_calculation.py:30-46 | A filled metric is 0 when its column has no value. A total is the column's sum. An average times the count is the column's sum. |
| ClanCalculation.CalculateData | clashleaders/clash/clan_calculation.py:30-46 | The record assigns exactly the fourteen data metrics, each the reduction of its own column. |
| ClanCalculation.DeltaValue | clashleaders/clash/clan_calculation.py:49-67 | A delta metric is 0 when no row label has a value in both rosters. |
| ClanCalculation.CalculateDelta | clashleaders/clash/clan_calculation.py:49-67 | The record assigns all sixteen metrics, each the reduction of its own column's change. |
| ClanCalculation.DataTotalIsCountTimesAverage | clashleaders/clash/clan_calculation.py:30-46 | For a pair that reads one column (donations, gold, elixir, dark elixir, attack wins), the total is count × average. |
| ClanCalculation.DeltaTotalIsCountTimesAverage | clashleaders/clash/clan_calculation.py:49-77 | Every delta total has an average metric that reads the same column. The total is the number of rows present in both rosters × that average delta. |
| ClanCalculation.DeltaValueOfSelfIsZero | clashleaders/clash/clan_calculation.py:49-77 | A roster compared with itself gives 0 for any one metric. |
| ClanCalculation.DeltaOfSelfIsZero | clashleaders/clash/clan_calculation.py:49-77 | `calculate_delta(df, df)` assigns 0 to every metric. |
| ClanCalculation.DeltaValueAntisymmetric | clashleaders/clash/clan_calculation.py:49-77 | Swapping the two rosters negates any one metric. |
| ClanCalculation.DeltaAntisymmetric | clashleaders/clash/clan_calculation.py:49-77 | Swapping the two rosters negates every metric. |
| ClanCalculation.DeltaTotalOfSameRows | clashleaders/clash/clan_calculation.py:49-77 | With the same row labels on both sides, a summed delta is the difference of the two rosters' sums. |
| ClanCalculation.UpdateCalculations | clashleaders/clash/clan_calculation.py:8-27 | The computed record is the default exactly when the current roster is empty, and an empty roster leaves both deltas at their defaults. Otherwise `computed` holds each of the fourteen data metrics of the current roster. `week_delta` holds each of the sixteen metrics of the change since the week-old roster, and `day_delta` each of the change since the day-old roster. |
| ClanCalculation.UnchangedWeekIsZero | clashleaders/clash/clan_calculation.py:8-21 | An unchanged roster shows no weekly movement, while `computed` is `calculate_data` of it. |
| ClanCalculation.TwoMembersMean | clashleaders/clash/clan_calculation.py:85-87 | Two members' average is half their sum. |
| ClanCalculation.TwoMembersDifference | clashleaders/clash/clan_calculation.py:71 | Subtracting two rosters of the same two members keeps both, each with its own change. |
| ClanCalculation.TwoMembersDelta | clashleaders/clash/clan_calculation.py:70-72 | Two members' averaged change is half the sum of their changes. |
| ClanCalculation.DonationScenario | clashleaders/clash/clan_calculation.py:70-87 | Donations 10 and 20, then 15 and 25: the averages are 15 and 20, and the averaged change is +5. |
| Snapshots.CreationSeconds | app/model/__init__.py:158-161 | An id's creation second fits in four bytes, and the id lies within that second's block of ids. |
| Snapshots.FromSeconds | app/model/__init__.py:161 | `from_datetime` gives an id created in that second, with all eight trailing bytes zero. |
| Snapshots.ThresholdOrder | app/model/__init__.py:158-161 | An id is at or above `from_datetime(s)` exactly when it was created at or after second `s`. |
| Snapshots.ObjectIdFromNow | app/model/__init__.py:158-161 | Succeeds exactly when `now - lookback` fits the 4-byte timestamp, and then its creation second is `now - lookback`. |
| Snapshots.LongerLookbackEarlierThreshold | app/model/__init__.py:158-161 | A longer look back gives an earlier or equal threshold id. |
| Snapshots.NormalizeTag | app/model/__init__.py:41-42 | The result starts with `#`. It equals the input exactly when the input already started with `#`, and otherwise the input follows the added `#`. |
| Snapshots.NormalizeTagIdempotent | app/model/__init__.py:41-42 | Normalising twice is normalising once. |
| Snapshots.NormalizeTagIgnoresHash | app/model/__init__.py:49-50 | `#TAG` and `TAG` normalise to the same tag. |
| Snapshots.AtOrAfter | app/model/__init__.py:30-32 | Exactly the stored snapshots with id ≥ the threshold. |
| Snapshots.Before | app/model/__init__.py:35-37 | Exactly the stored snapshots with id < the threshold. |
| Snapshots.WithTag | app/model/__init__.py:45 | Exactly the stored snapshots whose `tag` field is the given tag. |
| Snapshots.AtOrAfterWithTag | app/model/__init__.py:40-45 | Exactly the stored snapshots with id ≥ the threshold and the given tag. |
| Snapshots.WindowsPartition | app/model/__init__.py:29-37 | For one threshold, the two windows together hold every snapshot exactly as often as the store does. |
| Snapshots.AllAtOrAfter | app/model/__init__.py:29-37 | When every id is at or after the threshold, the recent window is the whole store and the older one is empty. |
| Snapshots.OrderedWindowsSplit | app/model/__init__.py:29-37 | In a store ordered by id, the older window followed by the recent one is the store. |
| Snapshots.AtOrAfterMonotone | app/model/__init__.py:30-32 | An earlier threshold keeps every snapshot a later one keeps. |
| Snapshots.AtOrAfterWithTagFilters | app/model/__init__.py:40-45 | Filtering by id and tag together is filtering the recent window by tag. |
| Snapshots.AtOrAfterAppend | app/model/__init__.py:29-32 | A snapshot appended at or after the threshold joins the end of the recent window. |
| Snapshots.FromNow | app/model/__init__.py:29-32 | Succeeds exactly when the threshold fits four bytes. Then it returns exactly the snapshots created at or after `now - lookback`. |
| Snapshots.OlderThan | app/model/__init__.py:34-37 | Succeeds exactly when the threshold fits four bytes. Then it returns exactly the snapshots created before `now - lookback`. |
| Snapshots.FromNowWithTag | app/model/__init__.py:39-45 | Exactly the snapshots created at or after `now - lookback` whose tag is the normalised tag. |
| Snapshots.FromNowOlderThanPartition | app/model/__init__.py:29-37 | `from_now` and `older_than` with the same arguments split the store: disjoint, and together all of it. |
| Snapshots.OrderedHistorySplit | app/model/__init__.py:29-37 | In an ordered store, `older_than` followed by `from_now` is the store. |
| Snapshots.LongerLookbackSuperset | app/model/__init__.py:29-32 | A longer look back returns every snapshot a shorter one returns. |
| Snapshots.FromNowWithTagFilters | app/model/__init__.py:39-45 | `from_now_with_tag` is `from_now` filtered by the normalised tag. |
| Snapshots.Reshape | app/model/__init__.py:52-54 | Succeeds exactly when `memberList` is present. Then `players` is the fetched list, `memberList` is gone, and every other field is unchanged. |
| Snapshots.FetchAndSave | app/model/__init__.py:47-56 | Succeeds exactly when the lookup under the normalised tag finds a clan, the player fetch answers, and the clan has a member list. Then exactly one snapshot is appended under the new id and the old history is unchanged. The new document holds `players`, loses `memberList`, and keeps every other upstream field with its value. |
| Snapshots.FetchAndSaveIgnoresHash | app/model/__init__.py:47-51 | Fetching `#TAG` or `TAG` gives the same result. |
| Snapshots.FetchAndSaveKeepsOrder | app/model/__init__.py:47-56 | A save under an id newer than all stored ones keeps the store ordered. The new snapshot ends every recent window it falls in. |

## Left out

- I/O is not modelled. The Mongo queries, HTTP calls to the game API, `save()`, signals wiring and logging become function parameters or are dropped:
  - the clan lookup and the player fetch are parameters of `FetchAndSave`, and either may fail;
  - the id a save assigns is a parameter;
  - the rosters of the snapshots nearest to now, a week ago and a day ago are parameters of `UpdateCalculations`.
- `datetime.now()` is left out: the current time is the parameter `now`, in whole seconds. Two effects of the clock are therefore outside the model:
  - `from_datetime` truncates sub-second parts;
  - `from_datetime` reads a naive local time as UTC.
- `Snapshots.ObjectIdFromNow`: `timedelta(**kwargs)` is taken as a whole number of seconds, `lookback`.
- zlib and JSON are not modelled. `encode_data`/`decode_data` is the `Codec` parameter, assumed lossless through `LosslessCodec`. Which records JSON cannot represent is therefore outside the model.
- `slugify` is a parameter. It receives the name and tag values; the `f"{name}-{tag}"` formatting and lower-casing happen inside it.
- Floating point is modelled with exact reals. NaN appears only as a missing cell, and any NaN result becomes 0. Overflow and rounding are not modelled.
- A pandas `KeyError` for a column absent from a roster is not modelled. `HasDataColumns`/`HasDeltaColumns` are preconditions of the calculations instead.
- The `.empty` check is modelled as "every column has no rows". The ordering of the union index in pandas subtraction is not modelled, because the reductions ignore order.
- `ClanCalculation.UpdateCalculations`: the default values inside `ClanDelta()` are not modelled; `clashleaders/model/clan_delta.py` is not part of this model. A record lists only the metrics a calculation assigned, and `Default` assigns none.
- `to_df` is not part of this model. Its rows are assumed to carry one unique label each, so that subtraction pairs the two rosters' rows by label. A frame whose index repeats a label (pandas pairs every duplicate with every other) is not modelled, because a column is a map from label to cell.
- `Clan.clan_delta` is not part of this model. It is taken to be `calculate_delta` of the two snapshots' rosters.
- `historical_near_days_ago` and `historical_near_now` are not part of this model.
- `PlayerCodec.PrepareForSave`: a lab list that was never set is treated as empty. What mongoengine's attribute lookup does for a dynamic field that was never set is not modelled.
- Several index-loop cases are treated as errors (`MalformedLabItem`):
  - an item whose `village` or `name` is not a string (an f-string would format any value);
  - an item that is not a map;
  - an item without a `level`;
  - a character or byte of a non-empty concatenation of three strings or byte strings (Python raises `TypeError` when it indexes one).
- Some effects of an exception are not modelled:
  - index entries written before an exception are not kept; the error result replaces the document;
  - when `attrs` already holds a `lab_levels` dictionary, `compressed_fields` updates that same dictionary, so entries written before an exception stay on the object.
- `compressed_fields` receives `vars(self)` as `attrs`. Which attributes mongoengine keeps in `vars` of a document is not modelled.
- `PlayerCodec.CompressedFields`: three empty byte strings as lab lists get through the index loop and the move (player.py:45-54), but `encode_data` raises `TypeError` at player.py:56 because JSON has no bytes type. The `Codec` parameter is total, so the model reports success there.
- `delattr` on a dynamic field sets it to `None` until the document is saved. The model removes the key.
- Which snapshot a Mongo query returns first is not modelled. Queries return snapshots in store order.
- These parts of the repository are outside the core:
  - `upsert_player` and `as_replace_one` (database upserts);
  - `clashleaders/model/status.py` (database counts);
  - the API module's own tag normalisation (`find_clan_by_tag` adds `#` the same way as `NormalizeTag`, and normalising is idempotent);
  - the Flask views, the sitemap, and the front end.
