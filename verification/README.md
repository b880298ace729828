# Musicus catalog in Dafny

A model of the in-memory music catalog of the Musicus Android app, with proofs about it. The model has two parts:

- the newer revision: `MusicRepo` in utils/Repositories.kt and the entities in utils/SupportData.kt;
- the older revision, where `GlobalViewModel` in the root package's SupportData.kt held the same state.

The catalog has a master track list and three name-keyed collection maps: playlists, albums and artists. Kotlin shares one `Track` object between the master list and every collection that holds it. Yet `remove`, `indexOf` and `lastIndexOf` compare tracks by value, because `Track` is a data class. The model keeps both facts:

- every track object is an id;
- `table` maps each id to the object's current value;
- lists hold ids;
- list operations compare values through the table (module `Lists`).

A fresh object gets the id `nextId`, which stands for allocation.

Modules:

- `Durations`: `Duration` with 32-bit `Int` fields, `toMs`, `breakDownMs`, `decrement` and `increment`. Kotlin's truncating `/` and `%` and its wrap-around are written out.
- `Entities`: lyrics, tracks, their skeletons, the `toSkeleton`/`toTrack` conversions and `LangList`.
- `Collections`: playlists (albums are playlists too) and artists, with their skeleton conversions. Also `sortArtists`, `inferPrimaryArtist`, `addToArtists` and `sumDuration`. A playlist's artist-count map is an insertion-ordered association list keyed by artist name.
- `Text`: `trim`, `toBoolean` and the `split` tokenizer. `split` is the loop as written, checked against a step function and against a reference splitter.
- `Store`: the catalog as a value, plus the removals of `Track.delete`, `cleanEmptyCollections` and the append-or-create rule.
- `Arrange`, `Maintenance` and `Editing`: functions on the catalog value.
  - `Arrange` covers `arrangeTracks`.
  - `Maintenance` covers `cleanInvalidPaths` and `deduplicate`.
  - `Editing` covers `Track.importFromMap`, phase by phase.
- `Repo`: `MusicRepo` as a class whose fields the methods update loop by loop, as the source does. Each method is proved to leave the state that the functions above describe. `Track.delete()` and `Track.importFromMap()` act on the global `musicRepo`, so here they are methods of the repository that take the track's id.
- `Legacy`: the older revision. Its records lack some of the newer fields: a track has no description, a playlist no artist counts, an artist no album set, and nothing has a description. An old record is represented by its upgrade, the newer record with those fields empty.
  - Upgrading is proved lossless, and it commutes with the skeleton conversions.
  - `GlobalViewModel` is a class whose `arrangeTracks`, `cleanEmptyCollections` and `cleanInvalid` follow the old loops, in the old order.
  - The old `arrangeTracks` computes no artist counts and registers no albums.

File existence, which the source asks of the file system, is a parameter: `existing`, the set of paths whose file exists.

## Model

| member | source | states |
|---|---|---|
| `Durations.Wrap` | app/src/main/java/jehr/projects/musicus/utils/SupportData.kt:22-26 | the result is an `Int`, and it is the exact value whenever that value is an `Int`: the 32-bit wrap-around of the `Int` fields |
| `Durations.Duration.ToMs` | app/src/main/java/jehr/projects/musicus/utils/SupportData.kt:32-33 | `toMs()` as written, wrapping to an `Int`; hours weigh 360000 ms |
| `Durations.BreakDownMs` | app/src/main/java/jehr/projects/musicus/utils/SupportData.kt:38-46 | `breakDownMs(ms)` yields exactly four parts: hours, minutes, seconds, millis |
| `Durations.QuotRem` | app/src/main/java/jehr/projects/musicus/utils/SupportData.kt:39-43 | Kotlin's truncating `/` and `%` by 1000 and by 60 rebuild the dividend, share its sign and stay below the divisor in magnitude |
| `Durations.BreakDownMsSpec` | app/src/main/java/jehr/projects/musicus/utils/SupportData.kt:38-46 | the parts weighted 3600000, 60000, 1000 and 1 add up to ms; for ms >= 0 millis lie in [0,1000) and seconds and minutes in [0,60); for ms <= 0 the mirror image |
| `Durations.BreakDownMsParts` | app/src/main/java/jehr/projects/musicus/utils/SupportData.kt:38-46 | the parts are three truncating divisions in a row (by 1000, 60, 60) and their sign-following remainders |
| `Durations.BreakDownNonNegative` | app/src/main/java/jehr/projects/musicus/utils/SupportData.kt:38-46 | for a non-negative count the parts are the ordinary quotients and remainders |
| `Durations.Duration.Decrement` | app/src/main/java/jehr/projects/musicus/utils/SupportData.kt:49-55 | `decrement(x)` leaves every field an `Int` |
| `Durations.DecrementTotal` | app/src/main/java/jehr/projects/musicus/utils/SupportData.kt:49-55 | `decrement(x)` lowers the weighted total by x, up to 32-bit wrap-around of each field |
| `Durations.DecrementUnwrapped` | app/src/main/java/jehr/projects/musicus/utils/SupportData.kt:49-55 | when no field wraps, `decrement(x)` subtracts the four parts of `breakDownMs(x)` field by field |
| `Durations.DecrementExact` | app/src/main/java/jehr/projects/musicus/utils/SupportData.kt:49-55 | when no field wraps, `decrement(x)` lowers the weighted total by exactly x |
| `Durations.Duration.Increment` | app/src/main/java/jehr/projects/musicus/utils/SupportData.kt:57 | `increment(x)` leaves every field an `Int` |
| `Durations.IncrementIsDecrementOfNegation` | app/src/main/java/jehr/projects/musicus/utils/SupportData.kt:57 | `increment(x)` is `decrement(-x)` for every `Int` x except the least, whose negation wraps |
| `Durations.IncrementTotal` | app/src/main/java/jehr/projects/musicus/utils/SupportData.kt:57 | `increment(x)` raises the weighted total by x, up to 32-bit wrap-around |
| `Durations.IncrementExact` | app/src/main/java/jehr/projects/musicus/utils/SupportData.kt:57 | when no field wraps, `increment(x)` raises the weighted total by exactly x |
| `Durations.ToMsUndercountsHours` | app/src/main/java/jehr/projects/musicus/utils/SupportData.kt:32-46 | `toMs` is not the inverse of `breakDownMs`: one hour breaks down to [1,0,0,0] but `toMs` gives 360000 for it, which breaks down to six minutes |
| `Durations.ToMsInvertsBelowAnHour` | app/src/main/java/jehr/projects/musicus/utils/SupportData.kt:32-46 | below one hour `toMs` does rebuild the count that `breakDownMs` split |
| `Entities.LyricsSkeleton.ToLyrics` | app/src/main/java/jehr/projects/musicus/utils/SupportData.kt:91-93 | `toLyrics()` holds no file handle and saves back to the same skeleton |
| `Entities.LyricsRoundTrip` | app/src/main/java/jehr/projects/musicus/utils/SupportData.kt:88-92 | a lyric without a file handle survives `toSkeleton()` then `toLyrics()` unchanged |
| `Entities.TrackSkeleton.ToTrack` | app/src/main/java/jehr/projects/musicus/utils/SupportData.kt:231-234 | `toTrack()` yields a track with no file handle on it or on its lyrics |
| `Entities.SkeletonRoundTrip` | app/src/main/java/jehr/projects/musicus/utils/SupportData.kt:169-233 | `toTrack()` then `toSkeleton()` gives the skeleton back |
| `Entities.TrackRoundTrip` | app/src/main/java/jehr/projects/musicus/utils/SupportData.kt:169-233 | `toSkeleton()` then `toTrack()` gives the track back exactly when neither it nor its lyrics hold a file handle |
| `Entities.LearnedSpec` | app/src/main/java/jehr/projects/musicus/utils/SupportData.kt:99-104 | `createIfNotFound` over a list of keys only appends: the old vocabulary stays a prefix, the result holds exactly the old entries and the keys, and no entry is added twice |
| `Entities.LangList.constructor` | app/src/main/java/jehr/projects/musicus/utils/SupportData.kt:95-98 | a new `LangList` holds `["<unknown>"]` as vocabulary and as default |
| `Entities.LangList.CreateIfNotFound` | app/src/main/java/jehr/projects/musicus/utils/SupportData.kt:99-104 | returns the key; the key is then in the vocabulary, which grew by the key at the end exactly when it was absent; the default list is unchanged |
| `Lists.IndexOf` | app/src/main/java/jehr/projects/musicus/utils/Repositories.kt:207 | `indexOf(v)`: the first position whose value equals v, with no equal value before it, or -1 when there is none |
| `Lists.LastIndexOf` | app/src/main/java/jehr/projects/musicus/utils/Repositories.kt:208 | `lastIndexOf(v)`: the last position whose value equals v, with no equal value after it, or -1 when there is none |
| `Lists.RemoveFirstEqCons` | app/src/main/java/jehr/projects/musicus/utils/SupportData.kt:165 | `remove(v)` drops the head when it equals v, and otherwise removes from the tail |
| `Lists.RemoveFirstEqCount` | app/src/main/java/jehr/projects/musicus/utils/SupportData.kt:165 | `remove(v)` takes away exactly one element equal to v when there is one, and no element of any other value |
| `Lists.RemoveFirstEqSubseq` | app/src/main/java/jehr/projects/musicus/utils/SupportData.kt:165 | `remove(v)` keeps the other elements in their order |
| `Lists.RemoveNCount` | app/src/main/java/jehr/projects/musicus/utils/SupportData.kt:156-161 | calling `remove(v)` n times takes min(n, count) copies of v away and nothing else |
| `Lists.RemoveAllSubseq` | app/src/main/java/jehr/projects/musicus/utils/Repositories.kt:116-127 | removing the values of a list of victims one by one keeps the rest in order |
| `Lists.RemoveAllCount` | app/src/main/java/jehr/projects/musicus/utils/Repositories.kt:116-127 | when the list holds at least as many copies of each value as there are victims with it, exactly one copy per victim goes |
| `Collections.CollectionSkeleton.ToPlaylist` | app/src/main/java/jehr/projects/musicus/utils/SupportData.kt:290-291 | `toPlaylist()`: an empty playlist with no counts and no primary artist, which saves back to the same skeleton |
| `Collections.CollectionSkeleton.ToArtist` | app/src/main/java/jehr/projects/musicus/utils/SupportData.kt:292 | `toArtist()`: an empty artist with no albums, which saves back to the same skeleton |
| `Collections.BumpCount` | app/src/main/java/jehr/projects/musicus/utils/SupportData.kt:254-258 | one credit raises that artist's count by one and leaves every other count |
| `Collections.BumpKeys` | app/src/main/java/jehr/projects/musicus/utils/SupportData.kt:254-258 | one credit appends a new key at the end exactly when the artist has none yet |
| `Collections.TallyCount` | app/src/main/java/jehr/projects/musicus/utils/SupportData.kt:250-260 | crediting names raises each artist's count by the number of times it is named; keys stay distinct and keep their order |
| `Collections.TallyConcat` | app/src/main/java/jehr/projects/musicus/utils/SupportData.kt:251-259 | crediting two lists of names in turn is crediting their concatenation |
| `Collections.TallyNonEmpty` | app/src/main/java/jehr/projects/musicus/utils/SupportData.kt:274 | a playlist whose tracks credit an artist ends up with a non-empty count list, so `first[0]` exists |
| `Collections.FirstMax` | app/src/main/java/jehr/projects/musicus/utils/SupportData.kt:264-275 | the chosen entry's count is not exceeded by any entry, and every entry before it has a strictly smaller count |
| `Collections.InferPrimaryArtist` | app/src/main/java/jehr/projects/musicus/utils/SupportData.kt:265-275 | the loop over the insertion-ordered counts returns the first artist with the largest count |
| `Collections.SortArtists` | app/src/main/java/jehr/projects/musicus/utils/SupportData.kt:250-262 | `sortArtists()` as written yields the sorted playlist, given that every credited artist exists and some artist is credited |
| `Collections.SortedSpec` | app/src/main/java/jehr/projects/musicus/utils/SupportData.kt:250-275 | after `sortArtists()` every artist's count grew by its number of credits on the tracks, keys stay distinct, the primary artist is the first entry with the largest count, and no other field changes |
| `Collections.AddToArtists` | app/src/main/java/jehr/projects/musicus/utils/SupportData.kt:278-284 | `addToArtists()` as written leaves the registered artist map |
| `Collections.RegisteredSpec` | app/src/main/java/jehr/projects/musicus/utils/SupportData.kt:278-284 | registration keeps each artist's tracks and album names and adds this album exactly under the artists it credits |
| `Collections.Accumulated` | app/src/main/java/jehr/projects/musicus/utils/SupportData.kt:238-244 | the `Duration` built by `sumDuration()` has `Int` fields |
| `Collections.AccumulatedTotal` | app/src/main/java/jehr/projects/musicus/utils/SupportData.kt:238-244 | the weighted total of `sumDuration()` is the sum of the tracks' `toMs()` values, up to 32-bit wrap-around |
| `Collections.SumDuration` | app/src/main/java/jehr/projects/musicus/utils/SupportData.kt:238-244 | the loop as written builds that Duration, incrementing by each track's `toMs()` in list order |
| `Text.TrimStart` | app/src/main/java/jehr/projects/musicus/utils/SupportData.kt:363 | drops exactly the leading whitespace |
| `Text.TrimEnd` | app/src/main/java/jehr/projects/musicus/utils/SupportData.kt:363 | drops exactly the trailing whitespace |
| `Text.Trim` | app/src/main/java/jehr/projects/musicus/utils/SupportData.kt:363 | `trim()` neither starts nor ends with whitespace |
| `Text.TrimSlice` | app/src/main/java/jehr/projects/musicus/utils/SupportData.kt:362-371 | `trim()` keeps one slice of the input, with only whitespace before and after it |
| `Text.ToBoolean` | app/src/main/java/jehr/projects/musicus/utils/SupportData.kt:206 | `toBoolean()` holds exactly for the four-letter word "true" in any letter case |
| `Text.Split` | app/src/main/java/jehr/projects/musicus/utils/SupportData.kt:351-385 | the tokenizer loop as written returns `Tokens`, and throws exactly when the source is non-empty and the delimiter longer than one character |
| `Text.Advance` | app/src/main/java/jehr/projects/musicus/utils/SupportData.kt:357-384 | one pass of the loop body leaves exactly the state `Step` gives, and fails exactly where `substring` throws |
| `Text.ScanTotal` | app/src/main/java/jehr/projects/musicus/utils/SupportData.kt:359 | with a delimiter of at most one character the `substring` never throws |
| `Text.TokensFailure` | app/src/main/java/jehr/projects/musicus/utils/SupportData.kt:359-361 | `split` throws exactly for a non-empty source and a delimiter longer than one character |
| `Text.TokensOfEmpty` | app/src/main/java/jehr/projects/musicus/utils/SupportData.kt:356 | `split("")` returns `[]` |
| `Text.ScanDelimiter` | app/src/main/java/jehr/projects/musicus/utils/SupportData.kt:360-367 | at an unescaped one-character delimiter the buffer becomes a piece and an empty buffer starts |
| `Text.SplitRoundTrip` | app/src/main/java/jehr/projects/musicus/utils/SupportData.kt:351-372 | for a one-character delimiter, no escape, no stripping and a non-empty source not ending in it: the pieces are the reference pieces, joining them gives the source, no piece holds the delimiter, and a source without it is its only piece |
| `Text.SplitTrailingDelimiter` | app/src/main/java/jehr/projects/musicus/utils/SupportData.kt:360-372 | with no escape and no stripping, a trailing delimiter yields the reference pieces less their empty final one |
| `Text.TrailingDelimiter` | app/src/main/java/jehr/projects/musicus/utils/SupportData.kt:356-385 | for any escape, either stripping setting and whatever state the loop has reached before it, a trailing delimiter that is not escaped closes the current piece without itself and adds no piece after it; an escaped one stays in the last piece |
| `Text.EscapedDelimiterKept` | app/src/main/java/jehr/projects/musicus/utils/SupportData.kt:373-382 | a delimiter right after an escape does not split, and both characters stay in the piece |
| `Text.StepTrimmed` | app/src/main/java/jehr/projects/musicus/utils/SupportData.kt:362-371 | with stripping on, one loop step only ever adds a trimmed piece |
| `Text.StripScan` | app/src/main/java/jehr/projects/musicus/utils/SupportData.kt:356-383 | with stripping on, every piece the loop adds from any point on is trimmed |
| `Text.SplitStripped` | app/src/main/java/jehr/projects/musicus/utils/SupportData.kt:351-385 | with stripping on, every piece of the result is trimmed |
| `Store.RemoveFrom` | app/src/main/java/jehr/projects/musicus/utils/Repositories.kt:121 | `shelf[name]?.tracks?.remove(v)` removes no collection and changes nothing but track lists |
| `Store.RemoveFromEach` | app/src/main/java/jehr/projects/musicus/utils/SupportData.kt:156-161 | removing v from the collection of each name removes no collection and changes nothing but track lists |
| `Store.RemoveFromAlbum` | app/src/main/java/jehr/projects/musicus/utils/SupportData.kt:162-164 | removing v from its album removes no collection and changes nothing but track lists |
| `Store.RemoveFromEachAt` | app/src/main/java/jehr/projects/musicus/utils/SupportData.kt:156-161 | each named collection loses one copy of v per time the name occurs |
| `Store.RemoveFromAlbumAt` | app/src/main/java/jehr/projects/musicus/utils/SupportData.kt:162-164 | only the album the track names loses a copy of v |
| `Store.DeletedSpec` | app/src/main/java/jehr/projects/musicus/utils/SupportData.kt:155-167 | `Track.delete()`: the master list loses the first copy of the track and keeps its order (it equals `DropFirstOf` of the track's value), each artist and playlist collection loses one copy per time the track names it, its album one; no collection leaves a map; the table changes only in the deleted object's file handle; a well-formed catalog stays well formed |
| `Store.DetachValid` | app/src/main/java/jehr/projects/musicus/utils/Repositories.kt:116-127 | taking a track value out of the lists keeps the catalog well formed |
| `Store.PruneSpec` | app/src/main/java/jehr/projects/musicus/utils/Repositories.kt:69-97 | pruning removes exactly the collections with no tracks, keeps the others unchanged, is idempotent, and changes nothing exactly when no collection is empty |
| `Store.CleanedSpec` | app/src/main/java/jehr/projects/musicus/utils/Repositories.kt:69-97 | after `cleanEmptyCollections()` no map holds an empty collection, a second call changes nothing, the track lists and table are untouched and the catalog stays well formed |
| `Store.AppendTo` | app/src/main/java/jehr/projects/musicus/utils/Repositories.kt:46-50 | the append-or-create rule adds the name to the keys and no other |
| `Store.AppendToEach` | app/src/main/java/jehr/projects/musicus/utils/Repositories.kt:45-51 | the rule over a list of names removes no key |
| `Store.AppendToEachKeys` | app/src/main/java/jehr/projects/musicus/utils/Repositories.kt:45-58 | the names afterwards are the old ones and the given ones |
| `Store.AppendToEachHolds` | app/src/main/java/jehr/projects/musicus/utils/Repositories.kt:45-58 | every named collection ends up holding the track |
| `Store.AppendToEachKeeps` | app/src/main/java/jehr/projects/musicus/utils/Repositories.kt:45-58 | an existing collection keeps its other fields and has its old tracks as a prefix, and an unnamed one is unchanged |
| `Store.AppendToEachCreates` | app/src/main/java/jehr/projects/musicus/utils/Repositories.kt:45-58 | a new name starts a collection of the right kind, under its own name, holding the track first |
| `Arrange.PutAll` | app/src/main/java/jehr/projects/musicus/utils/Repositories.kt:23-31 | putting skeletons adds exactly their names to the keys |
| `Arrange.PutAllKeeps` | app/src/main/java/jehr/projects/musicus/utils/Repositories.kt:23-31 | a name no skeleton carries keeps its collection |
| `Arrange.PutAllPuts` | app/src/main/java/jehr/projects/musicus/utils/Repositories.kt:23-31 | a name some skeleton carries holds an empty collection of the right kind made from the last skeleton with that name, overwriting what was there |
| `Arrange.FreshTable` | app/src/main/java/jehr/projects/musicus/utils/Repositories.kt:33 | the decoded values are stored only under fresh ids |
| `Arrange.FreshTableAt` | app/src/main/java/jehr/projects/musicus/utils/Repositories.kt:33-34 | the object of the k-th skeleton holds the k-th decoded value |
| `Arrange.SpreadKeeps` | app/src/main/java/jehr/projects/musicus/utils/Repositories.kt:32-59 | the track loop keeps every existing collection's other fields and its old tracks as a prefix |
| `Arrange.SpreadGrows` | app/src/main/java/jehr/projects/musicus/utils/Repositories.kt:32-59 | one more track only appends to the collections already there |
| `Arrange.SpreadHolds` | app/src/main/java/jehr/projects/musicus/utils/Repositories.kt:32-59 | every decoded track is in the collection of each name the rule visits on it |
| `Arrange.SpreadCreates` | app/src/main/java/jehr/projects/musicus/utils/Repositories.kt:32-59 | a collection the loop created is of the rule's kind, under its own name, with no counts or albums |
| `Arrange.SortAll` | app/src/main/java/jehr/projects/musicus/utils/Repositories.kt:61 | sorting every collection keeps the keys |
| `Arrange.RegisterAll` | app/src/main/java/jehr/projects/musicus/utils/Repositories.kt:62-65 | registering every album keeps the artist keys |
| `Arrange.RegisterAllStep` | app/src/main/java/jehr/projects/musicus/utils/Repositories.kt:62-65 | registering one more album is `addToArtists()` on it |
| `Arrange.DistributedValid` | app/src/main/java/jehr/projects/musicus/utils/Repositories.kt:20-60 | putting the skeletons and distributing the tracks keeps the catalog well formed |
| `Arrange.DistributedTracksValid` | app/src/main/java/jehr/projects/musicus/utils/Repositories.kt:32-60 | the new objects are below the new `nextId` and every listed id is in the table |
| `Arrange.DerivedValid` | app/src/main/java/jehr/projects/musicus/utils/Repositories.kt:61-65 | the derived counts and registrations keep the catalog well formed and change no track list or key |
| `Arrange.ArrangedTracks` | app/src/main/java/jehr/projects/musicus/utils/Repositories.kt:20-67 | `arrangeTracks`: the master list becomes the old list followed by one fresh object per skeleton in snapshot order, old objects keep their values, the catalog stays well formed and no map holds an empty collection |
| `Arrange.ArrangedTrack` | app/src/main/java/jehr/projects/musicus/utils/Repositories.kt:32-34 | the object made for the k-th skeleton holds `toTrack()` of it |
| `Arrange.DistributedHolds` | app/src/main/java/jehr/projects/musicus/utils/Repositories.kt:32-59 | after the track loop the k-th object is in the collection of every name it visits |
| `Arrange.FinishKeeps` | app/src/main/java/jehr/projects/musicus/utils/Repositories.kt:61-66 | a track in a distributed collection is still there after the derived data and the pruning |
| `Arrange.ArrangedMembership` | app/src/main/java/jehr/projects/musicus/utils/Repositories.kt:20-67 | every decoded track is in its album's collection, in each of its playlists' and each of its artists' |
| `Arrange.ArrangedDerived` | app/src/main/java/jehr/projects/musicus/utils/Repositories.kt:61-66 | every remaining playlist and album is the distributed one after `sortArtists()`, so it has a primary artist, and each remaining artist it credits lists the album |
| `Arrange.FinishSkeletons` | app/src/main/java/jehr/projects/musicus/utils/Repositories.kt:61-66 | the derived data and the pruning keep the saved fields of every remaining collection |
| `Arrange.ArrangedSkeletons` | app/src/main/java/jehr/projects/musicus/utils/Repositories.kt:23-31 | a skeleton collection that survives carries the saved fields of the last skeleton with its name |
| `Arrange.ArrangedDuplicates` | app/src/main/java/jehr/projects/musicus/utils/Repositories.kt:60 | the list is never cleared: re-arranging a track already listed leaves two distinct objects with equal values |
| `Arrange.SpreadUnnamed` | app/src/main/java/jehr/projects/musicus/utils/Repositories.kt:32-59 | a collection that no decoded track names is left exactly as it was |
| `Arrange.UnnamedPlaylistBlocks` | app/src/main/java/jehr/projects/musicus/utils/Repositories.kt:29-61 | a saved playlist that no track names is put empty and without counts, so `sortArtists()` throws before any pruning and `arrangeTracks` does not complete |
| `Arrange.EmptiedStillSortable` | app/src/main/java/jehr/projects/musicus/utils/SupportData.kt:250-276 | a playlist emptied after it was sorted keeps its counts, so `sortArtists()` completes on it again |
| `Arrange.UnnamedAlbumBlocks` | app/src/main/java/jehr/projects/musicus/utils/Repositories.kt:26-63 | the same for a saved album that no track names as its album |
| `Maintenance.ScrubSpec` | app/src/main/java/jehr/projects/musicus/utils/Repositories.kt:107-114 | scrubbing leaves only references to existing files, keeps those, touches no other field, and changes exactly the tracks with a missing reference |
| `Maintenance.ScrubbedTable` | app/src/main/java/jehr/projects/musicus/utils/Repositories.kt:101-115 | the first loop keeps the table's keys and every path |
| `Maintenance.ScrubbedTableStep` | app/src/main/java/jehr/projects/musicus/utils/Repositories.kt:101-115 | visiting one more id scrubs its track exactly when its file exists |
| `Maintenance.MissingIds` | app/src/main/java/jehr/projects/musicus/utils/Repositories.kt:101-106 | `toDelete` holds only ids whose file is missing |
| `Maintenance.MissingIdsPaths` | app/src/main/java/jehr/projects/musicus/utils/Repositories.kt:101-106 | which ids are missing depends only on the paths |
| `Maintenance.MissingIdsCount` | app/src/main/java/jehr/projects/musicus/utils/Repositories.kt:101-106 | `toDelete` holds every copy of each value whose file is missing and no other value |
| `Maintenance.DetachAll` | app/src/main/java/jehr/projects/musicus/utils/Repositories.kt:116-127 | the second loop removes no collection from any map |
| `Maintenance.DetachAllShape` | app/src/main/java/jehr/projects/musicus/utils/Repositories.kt:116-127 | the second loop keeps the table and every field but track lists, and the master list loses the victims' values one by one |
| `Maintenance.DetachKeeps` | app/src/main/java/jehr/projects/musicus/utils/Repositories.kt:116-127 | detaching a value keeps every other value's copies and the order of each collection |
| `Maintenance.DetachAllKeeps` | app/src/main/java/jehr/projects/musicus/utils/Repositories.kt:116-127 | detaching values keeps every copy of any other value and the order of each collection |
| `Maintenance.PathsCleanedTracks` | app/src/main/java/jehr/projects/musicus/utils/Repositories.kt:99-128 | `cleanInvalidPaths()`: the master list becomes exactly the tracks whose file exists, in order, and the catalog stays well formed |
| `Maintenance.PathsCleanedTable` | app/src/main/java/jehr/projects/musicus/utils/Repositories.kt:99-128 | a listed track whose file exists is scrubbed, and no other track object changes |
| `Maintenance.PathsCleanedCollections` | app/src/main/java/jehr/projects/musicus/utils/Repositories.kt:99-128 | no collection is removed or pruned; each keeps its other fields, the order of its tracks and every copy of a track whose file exists |
| `Maintenance.Duplicates` | app/src/main/java/jehr/projects/musicus/utils/Repositories.kt:204-212 | `toRemove` holds only ids of the visited part that are in the table |
| `Maintenance.IndexOfLastIndexOf` | app/src/main/java/jehr/projects/musicus/utils/Repositories.kt:209 | `indexOf(v) != lastIndexOf(v)` exactly when the list holds v twice or more |
| `Maintenance.DuplicatesCount` | app/src/main/java/jehr/projects/musicus/utils/Repositories.kt:204-212 | the first loop picks exactly one id per value held twice or more, once a copy was visited, and none for any other value |
| `Maintenance.DeleteAllClosed` | app/src/main/java/jehr/projects/musicus/utils/Repositories.kt:213-216 | when no track holds a file handle, `delete()` each is detaching each: `close()` changes no value |
| `Maintenance.DeduplicatedTracks` | app/src/main/java/jehr/projects/musicus/utils/Repositories.kt:203-217 | `deduplicate()`: the master list loses the first copy of each value it holds twice or more and nothing else (it equals `DropFirstOf` of the repeated values), so a value held k >= 2 times keeps k - 1 copies and any other value keeps all; no track object changes |
| `Maintenance.DeleteAllValid` | app/src/main/java/jehr/projects/musicus/utils/Repositories.kt:213-216 | deleting chosen tracks one by one keeps a well-formed catalog well formed |
| `Maintenance.DeduplicatedValid` | app/src/main/java/jehr/projects/musicus/utils/Repositories.kt:203-217 | `deduplicate()` keeps a well-formed catalog well formed, open file handles or not |
| `Maintenance.DuplicatesValues` | app/src/main/java/jehr/projects/musicus/utils/Repositories.kt:204-212 | the values of `toRemove` are exactly the values the list holds twice or more |
| `Lists.RemoveAllDropFirstOf` | app/src/main/java/jehr/projects/musicus/utils/Repositories.kt:213-216 | `remove` of each of several values, no two alike, drops the first copy of each and keeps everything else in order |
| `Lists.RemoveFirstEqDropFirstOf` | app/src/main/java/jehr/projects/musicus/utils/Repositories.kt:213-216 | one more `remove` after dropping first copies drops the first copy of that value too |
| `Maintenance.DeduplicatedCollections` | app/src/main/java/jehr/projects/musicus/utils/Repositories.kt:203-217 | no collection is removed; each keeps its other fields and order, and every copy of a value the master list holds at most once |
| `Editing.Pieces` | app/src/main/java/jehr/projects/musicus/utils/SupportData.kt:182 | `split` with its defaults never throws |
| `Editing.BeforeAlbum` | app/src/main/java/jehr/projects/musicus/utils/SupportData.kt:172-207 | the track object is still in the table when the album block is reached |
| `Editing.BeforeAlbumShape` | app/src/main/java/jehr/projects/musicus/utils/SupportData.kt:172-207 | before the album block only the track object and, with an "Artists" key, the artist collections have changed: the track left its old artists and joined the split ones |
| `Editing.ImportedShape` | app/src/main/java/jehr/projects/musicus/utils/SupportData.kt:172-228 | at the end the track holds its imported value, the master list is unchanged and the three maps are the pruned ones |
| `Editing.TrackImportedFields` | app/src/main/java/jehr/projects/musicus/utils/SupportData.kt:173-207 | a present key sets its field, an absent one keeps it; the cover goes through `toBoolean()` |
| `Editing.TrackImportedKeeps` | app/src/main/java/jehr/projects/musicus/utils/SupportData.kt:172-228 | the path, playlists, runtime, date, play count, selected lyric and file handle are untouched |
| `Editing.TrackImportedLists` | app/src/main/java/jehr/projects/musicus/utils/SupportData.kt:177-226 | artists and languages become the split value when their key is present; each lyric is rebuilt exactly when its key is present and not "None", and dropped otherwise |
| `Editing.ImportedElsewhere` | app/src/main/java/jehr/projects/musicus/utils/SupportData.kt:172-228 | no other track object changes, the master list stays and the playlists are only pruned |
| `Editing.ImportedArtists` | app/src/main/java/jehr/projects/musicus/utils/SupportData.kt:177-191 | with "Artists", every listed artist ends up holding the track, and an unlisted one loses one copy per time the track credited it |
| `Editing.ImportedNoArtists` | app/src/main/java/jehr/projects/musicus/utils/SupportData.kt:177-191 | without "Artists" the artist collections are only pruned |
| `Editing.ImportedAlbum` | app/src/main/java/jehr/projects/musicus/utils/SupportData.kt:207-211 | a new album holds exactly the track and has a primary artist; an existing album does not get the track appended |
| `Editing.ImportedValid` | app/src/main/java/jehr/projects/musicus/utils/SupportData.kt:172-228 | the import keeps the catalog well formed and leaves no empty collection |
| `Editing.LearnEach` | app/src/main/java/jehr/projects/musicus/utils/SupportData.kt:194-196 | `createIfNotFound` for each split language in turn grows the vocabulary as `Learned` says and leaves the default list alone |
| `Editing.LearnedConcat` | app/src/main/java/jehr/projects/musicus/utils/SupportData.kt:192-203 | learning two lists in turn is learning their concatenation |
| `Repo.PruneShelf` | app/src/main/java/jehr/projects/musicus/utils/Repositories.kt:70-78 | collecting the empty collections' names and removing them prunes the map |
| `Repo.ScrubTrack` | app/src/main/java/jehr/projects/musicus/utils/Repositories.kt:107-114 | the null-outs of one track as written are `Scrub` |
| `Repo.ScrubAll` | app/src/main/java/jehr/projects/musicus/utils/Repositories.kt:100-115 | the first loop of `cleanInvalidPaths()` leaves the scrubbed table and `toDelete` |
| `Repo.RemoveEach` | app/src/main/java/jehr/projects/musicus/utils/Repositories.kt:120-122 | `remove(v)` from each named collection in turn |
| `Repo.AppendEach` | app/src/main/java/jehr/projects/musicus/utils/Repositories.kt:45-51 | the append-or-create loop over a list of names |
| `Repo.FileUnder` | app/src/main/java/jehr/projects/musicus/utils/Repositories.kt:35-58 | filing one track under its album, playlists and artists |
| `Repo.PutShelf` | app/src/main/java/jehr/projects/musicus/utils/Repositories.kt:23-25 | the `put` loop over skeletons |
| `Repo.SortShelf` | app/src/main/java/jehr/projects/musicus/utils/Repositories.kt:61 | `sortArtists()` on every collection of the map, whatever order the map is walked in |
| `Repo.SortAndRegister` | app/src/main/java/jehr/projects/musicus/utils/Repositories.kt:62-65 | `sortArtists()` and `addToArtists()` on every album, in any order, leave the sorted albums and the registered artists |
| `Repo.MusicRepo.constructor` | app/src/main/java/jehr/projects/musicus/utils/Repositories.kt:16-19 | a new repository is empty and well formed |
| `Repo.MusicRepo.DetachValue` | app/src/main/java/jehr/projects/musicus/utils/SupportData.kt:155-165 | the removals of `delete()` leave the detached catalog |
| `Repo.MusicRepo.Delete` | app/src/main/java/jehr/projects/musicus/utils/SupportData.kt:155-167 | `delete()` leaves the deleted catalog, and a well-formed catalog stays well formed |
| `Repo.MusicRepo.CleanEmptyCollections` | app/src/main/java/jehr/projects/musicus/utils/Repositories.kt:69-97 | `cleanEmptyCollections()` leaves the cleaned catalog, and a well-formed catalog stays well formed |
| `Repo.MusicRepo.PutSkeletons` | app/src/main/java/jehr/projects/musicus/utils/Repositories.kt:23-31 | the three `put` loops, artists, albums, playlists, change only the maps |
| `Repo.MusicRepo.FileTrack` | app/src/main/java/jehr/projects/musicus/utils/Repositories.kt:33-58 | one iteration of the track loop: a fresh object, filed under its names |
| `Repo.MusicRepo.Distribute` | app/src/main/java/jehr/projects/musicus/utils/Repositories.kt:32-59 | the track loop leaves the fresh objects, ids and distributed maps |
| `Repo.MusicRepo.SortPlaylists` | app/src/main/java/jehr/projects/musicus/utils/Repositories.kt:61 | `sortArtists()` on every playlist changes only the playlists |
| `Repo.MusicRepo.SortAlbums` | app/src/main/java/jehr/projects/musicus/utils/Repositories.kt:62-65 | the album loop changes only the albums and the artists' album sets |
| `Repo.MusicRepo.ArrangeTracks` | app/src/main/java/jehr/projects/musicus/utils/Repositories.kt:20-67 | `arrangeTracks(data)` leaves the arranged catalog, and a well-formed catalog stays well formed |
| `Repo.MusicRepo.DetachEach` | app/src/main/java/jehr/projects/musicus/utils/Repositories.kt:116-127 | the second loop of `cleanInvalidPaths()` detaches each chosen value |
| `Repo.MusicRepo.CleanInvalidPaths` | app/src/main/java/jehr/projects/musicus/utils/Repositories.kt:99-128 | `cleanInvalidPaths()` leaves the cleaned catalog, which is well formed |
| `Repo.MusicRepo.FindDuplicates` | app/src/main/java/jehr/projects/musicus/utils/Repositories.kt:204-212 | the first loop of `deduplicate()` returns the duplicates |
| `Repo.MusicRepo.DeleteEach` | app/src/main/java/jehr/projects/musicus/utils/Repositories.kt:213-216 | `delete()` on each chosen track in turn |
| `Repo.MusicRepo.Deduplicate` | app/src/main/java/jehr/projects/musicus/utils/Repositories.kt:203-217 | `deduplicate()` leaves the deduplicated catalog, which is well formed |
| `Repo.MusicRepo.ImportHeadFields` | app/src/main/java/jehr/projects/musicus/utils/SupportData.kt:173-176 | image path, name, original name and description assignments |
| `Repo.MusicRepo.ImportArtistsBlock` | app/src/main/java/jehr/projects/musicus/utils/SupportData.kt:177-191 | the "Artists" block leaves the catalog `ImportArtists` describes |
| `Repo.MusicRepo.ImportLanguage` | app/src/main/java/jehr/projects/musicus/utils/SupportData.kt:192-197 | the "Language" block sets the languages and learns them |
| `Repo.MusicRepo.ImportOriginalLanguage` | app/src/main/java/jehr/projects/musicus/utils/SupportData.kt:198-203 | the "Original Language" block sets the original languages and learns them |
| `Repo.MusicRepo.ImportOriginFields` | app/src/main/java/jehr/projects/musicus/utils/SupportData.kt:204-207 | origin, origin info, cover and album assignments |
| `Repo.MusicRepo.ImportAlbumBlock` | app/src/main/java/jehr/projects/musicus/utils/SupportData.kt:208-211 | the album block creates and sorts a new album |
| `Repo.MusicRepo.ImportLyricsFields` | app/src/main/java/jehr/projects/musicus/utils/SupportData.kt:212-226 | the three lyrics blocks |
| `Repo.MusicRepo.ImportDetails` | app/src/main/java/jehr/projects/musicus/utils/SupportData.kt:192-207 | the language blocks and the origin fields in turn |
| `Repo.MusicRepo.ImportBeforeAlbum` | app/src/main/java/jehr/projects/musicus/utils/SupportData.kt:173-207 | everything before the album block |
| `Repo.MusicRepo.ImportFromMap` | app/src/main/java/jehr/projects/musicus/utils/SupportData.kt:172-228 | `importFromMap(source)` leaves the imported catalog and the learned vocabulary, and a well-formed catalog stays well formed |
| `Legacy.OldTrackSkeleton.ToTrack` | app/src/main/java/jehr/projects/musicus/SupportData.kt:153-154 | the old `toTrack()` holds no file handle |
| `Legacy.TrackUpgradeRoundTrip` | app/src/main/java/jehr/projects/musicus/SupportData.kt:111-131 | an old track is a newer one without description: upgrading loses nothing, and the upgrades are exactly the tracks with no description |
| `Legacy.SkeletonUpgradeRoundTrip` | app/src/main/java/jehr/projects/musicus/SupportData.kt:151 | the same for track skeletons |
| `Legacy.UpgradeCommutes` | app/src/main/java/jehr/projects/musicus/SupportData.kt:148-154 | the old `toSkeleton()` and `toTrack()` commute with upgrading |
| `Legacy.OldSkeletonRoundTrip` | app/src/main/java/jehr/projects/musicus/SupportData.kt:148-154 | old `toTrack()` then `toSkeleton()` gives the skeleton back |
| `Legacy.OldTrackRoundTrip` | app/src/main/java/jehr/projects/musicus/SupportData.kt:143-154 | old `toSkeleton()` then `toTrack()` gives the track back exactly when it and its lyrics hold no file handle |
| `Legacy.OldCollectionSkeleton.ToPlaylist` | app/src/main/java/jehr/projects/musicus/SupportData.kt:165 | the old `toPlaylist()`: an empty playlist with no primary artist, saving back to the same skeleton |
| `Legacy.OldCollectionSkeleton.ToArtist` | app/src/main/java/jehr/projects/musicus/SupportData.kt:166 | the old `toArtist()`: an empty artist, saving back to the same skeleton |
| `Legacy.CollectionUpgradeRoundTrip` | app/src/main/java/jehr/projects/musicus/SupportData.kt:157-162 | an old playlist or artist is a newer one with no counts, albums or description, and upgrading loses nothing |
| `Legacy.CollectionUpgradeCommutes` | app/src/main/java/jehr/projects/musicus/SupportData.kt:157-167 | the old collection conversions commute with upgrading |
| `Legacy.DecodeUpgraded` | app/src/main/java/jehr/projects/musicus/SupportData.kt:214-215 | decoding the upgraded snapshot gives the upgrades of the old decoded tracks |
| `Legacy.PutOldShelf` | app/src/main/java/jehr/projects/musicus/SupportData.kt:205-213 | the old `put` loop over skeletons leaves the map the newer one would |
| `Legacy.FileTracks` | app/src/main/java/jehr/projects/musicus/SupportData.kt:214-236 | the old track loop leaves the fresh objects, ids and distributed maps |
| `Legacy.LegacyArrangedTracks` | app/src/main/java/jehr/projects/musicus/SupportData.kt:201-239 | the old `arrangeTracks`: `trackList` becomes the old list followed by one fresh object per skeleton in snapshot order, old objects keep their values, the state stays well formed, no map holds an empty collection and a further `cleanEmptyCollections()` changes nothing |
| `Legacy.LegacyArrangedTrack` | app/src/main/java/jehr/projects/musicus/SupportData.kt:214-216 | the object made for the k-th skeleton holds the old `toTrack()` of it |
| `Legacy.LegacyArrangedMembership` | app/src/main/java/jehr/projects/musicus/SupportData.kt:217-238 | every decoded track is in its album's, each playlist's and each artist's collection, created if the name was unknown, after the pruning |
| `Legacy.LegacyArrangedShaped` | app/src/main/java/jehr/projects/musicus/SupportData.kt:201-239 | the old `arrangeTracks` leaves a state of old records: no description, no counts, no albums |
| `Legacy.LegacyCleanedShaped` | app/src/main/java/jehr/projects/musicus/SupportData.kt:272-302 | the old `cleanInvalid` leaves a state of old records |
| `Legacy.GlobalViewModel.constructor` | app/src/main/java/jehr/projects/musicus/SupportData.kt:185-196 | a new view model starts from an empty `GlobalState` |
| `Legacy.GlobalViewModel.CleanEmptyCollections` | app/src/main/java/jehr/projects/musicus/SupportData.kt:241-270 | the old `cleanEmptyCollections()` leaves the cleaned state, and a well-formed state stays well formed |
| `Legacy.GlobalViewModel.ArrangeTracks` | app/src/main/java/jehr/projects/musicus/SupportData.kt:201-239 | the old `arrangeTracks(data)` leaves the state `LegacyArranged` describes, and a well-formed state stays well formed |
| `Legacy.GlobalViewModel.DetachValue` | app/src/main/java/jehr/projects/musicus/SupportData.kt:291-300 | the removals of the old second loop for one track value: album, playlists, artists, `trackList` |
| `Legacy.GlobalViewModel.DetachEach` | app/src/main/java/jehr/projects/musicus/SupportData.kt:290-301 | the old second loop detaches each chosen value |
| `Legacy.GlobalViewModel.CleanInvalid` | app/src/main/java/jehr/projects/musicus/SupportData.kt:272-302 | the old `cleanInvalid()` leaves the cleaned state, which is well formed |

## Left out

- Compose UI, navigation, routes and the `StateFlow` wiring of `GlobalViewModel` are not modelled; only the catalog part of the old `GlobalState` is.
- JSON encoding and decoding, and reading or writing the data file, are I/O. A snapshot is given as an already decoded `JsonContainer`.
- `getAllAudioPaths` (MediaStore cursor) is I/O, in both revisions.
- `checkForNewTracks` and `LyricsType.detectType` are `TODO()`.
- `dump` and logging are output only.
- `bitmapFromPath`, `Track.build`, `Lyrics.build`, `FileInfo` and `InfoRepo.setup` open files.
  - A track's and a lyric's file handle is kept as an optional path, and `close()` as setting it to none.
  - `isBuilt` is not modelled.
- `File.exists()` is a set of existing paths; the file system is not modelled.
- The older `Duration.breakDownMs`, `decrement` and `increment` take a `Double`; floating point is not modelled. The integer revision in utils/SupportData.kt is modelled.
- `Duration.toString` and `toStringWithMs` are formatting only.
- The older `LangList.createIfNotFound` is the same code as the newer one. `Entities.LangList.CreateIfNotFound` models both.
- Kotlin maps are walked in insertion order.
  - The model uses Dafny maps for the three collection maps. The results of `cleanEmptyCollections`, the sort loops and `addToArtists` do not depend on that order. The repository methods that walk a map accept any order.
  - The insertion-ordered artist-count map of a playlist, where order does matter, is an ordered association list.
  - `Artist.albums` is a set of album names. In the source it is a map filled by `addToArtists` as `arrangeTracks` walks the albums (utils/Repositories.kt:62-65, utils/SupportData.kt:278-282), so its insertion order follows that walk; the model drops that order.
- Artist-count keys are artist names, not `Artist` objects. The two differ only when a later `arrangeTracks` replaces the `Artist` object under a name. `Artist.albums` is a set of album names. In the source its values are the album objects themselves, which the artist screen shows (name, primary artist, track count); the model keeps only the names, so it does not capture those objects, nor that they go stale once an album is pruned or replaced by a later `arrangeTracks`.
- The crashes of `!!` in `sortArtists` and of `first[0]` in `inferPrimaryArtist` are modelled as preconditions: `Arrangeable`, `AlbumSortable`, `Importable`. They state when the source completes; their failure paths are not modelled.
  - `arrangeTracks` sorts every playlist and album before it prunes the empty ones (utils/Repositories.kt:61-66). So any playlist or album left with no counts and no credited track makes it throw, not only an empty track list. This covers a saved playlist or album that no track of the snapshot names: `Arrange.UnnamedPlaylistBlocks` and `Arrange.UnnamedAlbumBlocks` prove that `Arrangeable` is then false, whatever the catalog held. `delete`, `cleanInvalidPaths` and `deduplicate` do not prune. A collection they empty keeps its artist counts, so re-arranging with tracks only, as the Reload button of screens/HomeScreen.kt:138-144 does, still completes (`Arrange.EmptiedStillSortable`). Once such a collection is saved, though, loading the saved data puts it afresh with no track naming it, and that load throws; saving is not part of this model.
- `Int` wrap-around is written out only for `Duration`. Other counters (`timesPlayed`, the artist counts) are unbounded.
- The edit screen's assembly of the `importFromMap` argument is UI. The argument is an arbitrary map from strings to strings.
- `Duration.decrement` and `increment` change the record in place. They are modelled as functions returning the new record. `toTrack` and `toSkeleton` hand the same `runtime` object to the track and its skeleton, so in the source an in-place change to one shows in the other; the model copies the value and does not capture that sharing.
- `toSkeleton` and `toTrack` also hand over the `lang`, `originalLang`, `playlists` and `artists` lists themselves (utils/SupportData.kt:169, 233). A track and the copy a reload makes of it share those lists. `importFromMap` changes `artists` in place with `clear()` and `addAll` (utils/SupportData.kt:181-183), so in the source the edit shows in both tracks; it assigns fresh `lang` and `originalLang` lists, which ends their sharing. The model copies lists by value and does not capture this.
- Kotlin strings are UTF-16: `length`, `substring` and the character loop of `split` count code units, while a Dafny string is a sequence of Unicode scalar values. A delimiter or escape outside the Basic Multilingual Plane has length 2 in Kotlin, so the source throws where the model splits; `Text.TokensFailure`'s "longer than one character" counts scalar values. The program passes only `","` and `"\\"` to `split`, where the two agree.
- Maintenance.DeduplicatedTracks: requires every track to be closed, which is how `arrangeTracks` leaves them. With an open track, `delete()`'s `close()` changes a value and so changes later comparisons.
- Maintenance.DeduplicatedCollections: states the count only for values the master list holds at most once, and requires every track to be closed.
- Maintenance.PathsCleanedCollections: states the count only for tracks whose file exists. How many copies of a missing track each collection loses depends on how often the track names it, which `Maintenance.DetachKeeps` and `Store.RemoveFromEachAt` state.
- Lists aliasing a track's `lang` or `originalLang` with `langList.default` are not modelled. The model copies lists by value.
