/**
 * `MusicRepo` of utils/Repositories.kt as a class whose fields the methods
 * change in place, loop by loop, as the source does. Each method is proved
 * to leave the state that a function of the Store, Arrange and Maintenance
 * modules describes; the properties are proved about those functions.
 * `Track.delete()` and `Track.importFromMap()` of utils/SupportData.kt work
 * on the global `musicRepo`, so they are methods here taking the track id.
 */
module Repo {
  import opened Wrappers
  import opened Lists
  import opened Entities
  import opened Collections
  import opened Store
  import opened Arrange
  import opened Maintenance
  import opened Text
  import opened Editing

  /** `cleanEmptyCollections()` on one map: collect the names of the empty collections, then remove them. */
  method PruneShelf(m: Shelf) returns (r: Shelf)
    ensures r == Prune(m)
  {
    var toDelete: seq<string> := [];
    var rest := m.Keys;
    while rest != {}
      invariant rest <= m.Keys
      invariant forall n :: n in toDelete <==> n in m && n !in rest && m[n].tracks == []
      decreases |rest|
    {
      var n :| n in rest;
      if m[n].tracks == [] {
        toDelete := toDelete + [n];
      }
      rest := rest - {n};
    }
    r := m;
    for i := 0 to |toDelete|
      invariant r == map n | n in m && n !in toDelete[..i] :: m[n]
    {
      assert forall n :: n in toDelete[..i + 1] <==> n in toDelete[..i] || n == toDelete[i];
      r := r - {toDelete[i]};
    }
    assert toDelete[..|toDelete|] == toDelete;
  }

  /** Part-way through sorting m0: the names outside rest are done, and done holds their sorted collections. */
  ghost predicate SortProgress(m0: Shelf, done: Shelf, rest: set<string>, table: map<Id, Track>, known: set<string>) {
    && (forall k | k in m0 :: Sortable(m0[k], table, known))
    && rest <= m0.Keys && done.Keys == m0.Keys - rest
    && (forall k | k in done :: done[k] == Sorted(m0[k], table))
  }

  lemma SortProgressStart(m0: Shelf, table: map<Id, Track>, known: set<string>)
    requires forall k | k in m0 :: Sortable(m0[k], table, known)
    ensures SortProgress(m0, map[], m0.Keys, table, known) && m0 + map[] == m0
  {
  }

  /** Sorting one more name keeps the progress and overrides the same entry of the union. */
  lemma SortProgressStep(m0: Shelf, done: Shelf, rest: set<string>, table: map<Id, Track>, known: set<string>, n: string)
    requires SortProgress(m0, done, rest, table, known) && n in rest
    ensures Sortable(m0[n], table, known) && (m0 + done)[n] == m0[n]
    ensures var q := Sorted(m0[n], table);
      && SortProgress(m0, done[n := q], rest - {n}, table, known)
      && (m0 + done)[n := q] == m0 + done[n := q]
  {
  }

  /** Once every name is done, the union and the done map are both the sorted map. */
  lemma SortProgressEnd(m0: Shelf, done: Shelf, table: map<Id, Track>, known: set<string>)
    requires SortProgress(m0, done, {}, table, known)
    ensures m0 + done == done == SortAll(m0, table, known)
  {
  }

  /** The body of the first loop of `cleanInvalidPaths()` for a track whose file exists. */
  method ScrubTrack(t0: Track, existing: set<string>) returns (t: Track)
    ensures t == Scrub(t0, existing)
  {
    t := t0;
    if t.imgPath.Some? && t.imgPath.value !in existing {
      t := t.(imgPath := None);
    }
    if t.stdLyrics.Some? && t.stdLyrics.value.path !in existing {
      t := t.(stdLyrics := None);
    }
    if t.trnLyrics.Some? && t.trnLyrics.value.path !in existing {
      t := t.(trnLyrics := None);
    }
    if t.romLyrics.Some? && t.romLyrics.value.path !in existing {
      t := t.(romLyrics := None);
    }
  }

  /** The first loop of `cleanInvalidPaths()` over the track list ts and the table t0. */
  method ScrubAll(ts: seq<Id>, t0: map<Id, Track>, existing: set<string>) returns (tb: map<Id, Track>, toDelete: seq<Id>)
    requires forall k | 0 <= k < |ts| :: ts[k] in t0
    ensures tb == ScrubbedTable(t0, ts, existing)
    ensures toDelete == MissingIds(ts, t0, existing)
  {
    tb := t0;
    toDelete := [];
    for i := 0 to |ts|
      invariant tb == ScrubbedTable(t0, ts[..i], existing)
      invariant toDelete == MissingIds(ts[..i], t0, existing)
    {
      var id := ts[i];
      assert ts[..i + 1] == ts[..i] + [id];
      ScrubbedTableStep(t0, ts[..i], id, existing);
      if tb[id].path !in existing {
        toDelete := toDelete + [id];
      } else {
        var t := ScrubTrack(tb[id], existing);
        tb := tb[id := t];
      }
    }
    assert ts[..|ts|] == ts;
  }

  /** `for (n in names) m[n]?.tracks?.remove(v)`: the removal loops of `Track.delete()`. */
  method RemoveEach(m0: Shelf, names: seq<string>, table: map<Id, Track>, v: Track) returns (m: Shelf)
    ensures m == RemoveFromEach(m0, names, table, v)
  {
    m := m0;
    for i := 0 to |names|
      invariant m == RemoveFromEach(m0, names[..i], table, v)
    {
      RemoveFromEachStep(m0, names, table, v, i);
      var n := names[i];
      if n in m {
        m := m[n := m[n].(tracks := RemoveFirstEq(m[n].tracks, table, v))];
      }
    }
    assert names[..|names|] == names;
  }

  /** `for (n in names) if (n in m) m[n]?.tracks?.add(id) else m.put(n, …)`: the append-or-create loops. */
  method AppendEach(m0: Shelf, names: seq<string>, id: Id, artist: bool) returns (m: Shelf)
    ensures m == AppendToEach(m0, names, id, artist)
  {
    m := m0;
    for j := 0 to |names|
      invariant m == AppendToEach(m0, names[..j], id, artist)
    {
      AppendToEachStep(m0, names, id, artist, j);
      var n := names[j];
      if n in m {
        m := m[n := m[n].(tracks := m[n].tracks + [id])];
      } else {
        m := m[n := if artist then NewArtist(id, n) else NewPlaylist(id, n)];
      }
    }
    assert names[..|names|] == names;
  }

  /** The album, playlists and artists part of one iteration of the track loop, for the object id of t. */
  method FileUnder(al0: Shelf, pl0: Shelf, ar0: Shelf, t: Track, id: Id) returns (al: Shelf, pl: Shelf, ar: Shelf)
    ensures al == AppendToEach(al0, NamesOf(AlbumRule, t), id, false)
    ensures pl == AppendToEach(pl0, NamesOf(PlaylistRule, t), id, false)
    ensures ar == AppendToEach(ar0, NamesOf(ArtistRule, t), id, true)
  {
    al := al0;
    if t.album.Some? {
      var a := t.album.value;
      if a in al {
        al := al[a := al[a].(tracks := al[a].tracks + [id])];
      } else {
        al := al[a := NewPlaylist(id, a)];
      }
    }
    pl := AppendEach(pl0, t.playlists, id, false);
    ar := AppendEach(ar0, t.artists, id, true);
  }

  /** `for (s in skels) m.put(s.name, s.toArtist())` (or `toPlaylist()`). */
  method PutShelf(m0: Shelf, skels: seq<CollectionSkeleton>, artist: bool) returns (m: Shelf)
    ensures m == PutAll(m0, skels, artist)
  {
    m := m0;
    for i := 0 to |skels|
      invariant m == PutAll(m0, skels[..i], artist)
    {
      assert skels[..i + 1][..i] == skels[..i];
      m := m[skels[i].name := if artist then skels[i].ToArtist() else skels[i].ToPlaylist()];
    }
    assert skels[..|skels|] == skels;
  }

  /** Sorts the artist counts of every collection of the map, visiting the names in any order. */
  method SortShelf(m0: Shelf, table: map<Id, Track>, known: set<string>) returns (m: Shelf)
    requires forall k | k in m0 :: Sortable(m0[k], table, known)
    ensures m == SortAll(m0, table, known)
  {
    ghost var done: Shelf := map[];
    m := m0;
    var rest := m.Keys;
    SortProgressStart(m0, table, known);
    while rest != {}
      invariant SortProgress(m0, done, rest, table, known)
      invariant m == m0 + done
      decreases |rest|
    {
      var n :| n in rest;
      SortProgressStep(m0, done, rest, table, known, n);
      var q := SortArtists(m[n], table, known);
      m := m[n := q];
      done := done[n := q];
      rest := rest - {n};
    }
    SortProgressEnd(m0, done, table, known);
  }

  /** Sorts every album and registers it with each artist it credits, album by album. */
  method SortAndRegister(a0: Shelf, artists: Shelf, table: map<Id, Track>) returns (m: Shelf, r: Shelf)
    requires forall k | k in a0 :: Sortable(a0[k], table, artists.Keys)
    ensures m == SortAll(a0, table, artists.Keys)
    ensures r == RegisterAll(artists, m)
  {
    ghost var done: Shelf := map[];
    m := a0;
    r := artists;
    var rest := m.Keys;
    SortProgressStart(a0, table, artists.Keys);
    RegisterNone(artists);
    while rest != {}
      invariant SortProgress(a0, done, rest, table, artists.Keys)
      invariant m == a0 + done
      invariant r == RegisterAll(artists, done)
      decreases |rest|
    {
      var n :| n in rest;
      SortProgressStep(a0, done, rest, table, artists.Keys, n);
      var q := SortArtists(m[n], table, artists.Keys);
      RegisterAllStep(artists, done, n, q);
      r := AddToArtists(q, r);
      m := m[n := q];
      done := done[n := q];
      rest := rest - {n};
    }
    SortProgressEnd(a0, done, table, artists.Keys);
  }

  class MusicRepo {
    var tracks: seq<Id>
    var table: map<Id, Track>
    var playlists: Shelf
    var artists: Shelf
    var albums: Shelf
    var nextId: nat

    /** The fields as one value. */
    function State(): Catalog
      reads this
    {
      Catalog(tracks, table, playlists, artists, albums, nextId)
    }

    predicate Valid()
      reads this
    {
      State().Valid()
    }

    /** `MusicRepo()`: everything empty. */
    constructor ()
      ensures State() == Catalog([], map[], map[], map[], map[], 0) && Valid()
    {
      tracks := [];
      table := map[];
      playlists := map[];
      artists := map[];
      albums := map[];
      nextId := 0;
    }

    /**
     * The removals of `Track.delete()` for the track value v: from the
     * collection of each of its artists, each of its playlists, its album,
     * and the master list.
     */
    method DetachValue(v: Track)
      modifies this
      ensures State() == Detach(old(State()), v)
    {
      artists := RemoveEach(artists, v.artists, table, v);
      playlists := RemoveEach(playlists, v.playlists, table, v);
      if v.album.Some? {
        var name := v.album.value;
        if name in albums {
          albums := albums[name := albums[name].(tracks := RemoveFirstEq(albums[name].tracks, table, v))];
        }
      }
      tracks := RemoveFirstEq(tracks, table, v);
    }

    /** `Track.delete()` on the track object id: detach it, then `close()` it. */
    method Delete(id: Id)
      requires id in table
      modifies this
      ensures State() == Deleted(old(State()), id)
      ensures old(Valid()) ==> Valid()
    {
      var v := table[id];
      DetachValue(v);
      table := table[id := v.(file := None)];
      DeletedSpec(old(State()), id, v, "");
    }

    /** `cleanEmptyCollections()`: playlists, then artists, then albums. */
    method CleanEmptyCollections()
      modifies this
      ensures State() == Cleaned(old(State()))
      ensures old(Valid()) ==> Valid()
    {
      playlists := PruneShelf(playlists);
      artists := PruneShelf(artists);
      albums := PruneShelf(albums);
      CleanedSpec(old(State()));
    }

    // ------------------------------------------------------------ arrangeTracks

    /** The first three loops of `arrangeTracks`: artists, then albums, then playlists from their skeletons. */
    method PutSkeletons(data: JsonContainer)
      modifies this
      ensures artists == PutAll(old(artists), data.artists, true)
      ensures albums == PutAll(old(albums), data.albums, false)
      ensures playlists == PutAll(old(playlists), data.playlists, false)
      ensures tracks == old(tracks) && table == old(table) && nextId == old(nextId)
    {
      artists := PutShelf(artists, data.artists, true);
      albums := PutShelf(albums, data.albums, false);
      playlists := PutShelf(playlists, data.playlists, false);
    }

    /** One iteration of the track loop: a fresh object for t, filed under its album, playlists and artists. */
    method FileTrack(t: Track) returns (id: Id)
      modifies this
      ensures id == old(nextId) && nextId == old(nextId) + 1 && table == old(table)[id := t]
      ensures albums == AppendToEach(old(albums), NamesOf(AlbumRule, t), id, false)
      ensures playlists == AppendToEach(old(playlists), NamesOf(PlaylistRule, t), id, false)
      ensures artists == AppendToEach(old(artists), NamesOf(ArtistRule, t), id, true)
      ensures tracks == old(tracks)
    {
      id := nextId;
      nextId := nextId + 1;
      table := table[id := t];
      albums, playlists, artists := FileUnder(albums, playlists, artists, t, id);
    }

    /** The track loop of `arrangeTracks`: returns `finalTrackList`, the fresh objects in snapshot order. */
    method Distribute(skels: seq<TrackSkeleton>) returns (made: seq<Id>)
      modifies this
      ensures var ts := Decode(skels);
        && made == FreshIds(old(nextId), |ts|)
        && table == old(table) + FreshTable(old(nextId), ts)
        && albums == Spread(old(albums), old(nextId), ts, AlbumRule)
        && playlists == Spread(old(playlists), old(nextId), ts, PlaylistRule)
        && artists == Spread(old(artists), old(nextId), ts, ArtistRule)
        && nextId == old(nextId) + |ts| && tracks == old(tracks)
    {
      ghost var ts := Decode(skels);
      ghost var start := nextId;
      made := [];
      for i := 0 to |skels|
        invariant nextId == start + i && tracks == old(tracks)
        invariant made == FreshIds(start, i)
        invariant table == old(table) + FreshTable(start, ts[..i])
        invariant albums == Spread(old(albums), start, ts[..i], AlbumRule)
        invariant playlists == Spread(old(playlists), start, ts[..i], PlaylistRule)
        invariant artists == Spread(old(artists), start, ts[..i], ArtistRule)
      {
        FreshStep(old(table), start, ts, i);
        SpreadStep(old(albums), start, ts, AlbumRule, i);
        SpreadStep(old(playlists), start, ts, PlaylistRule, i);
        SpreadStep(old(artists), start, ts, ArtistRule, i);
        var id := FileTrack(skels[i].ToTrack());
        made := made + [id];
      }
      assert ts[..|skels|] == ts;
    }

    /** `for (pl in playlists.values) pl.sortArtists()`. */
    method SortPlaylists()
      requires forall n | n in playlists :: Sortable(playlists[n], table, artists.Keys)
      modifies this
      ensures tracks == old(tracks) && table == old(table) && artists == old(artists)
      ensures albums == old(albums) && nextId == old(nextId)
      ensures playlists == SortAll(old(playlists), table, artists.Keys)
    {
      playlists := SortShelf(playlists, table, artists.Keys);
    }

    /** `for (album in albums.values) { album.sortArtists(); album.addToArtists() }`. */
    method SortAlbums()
      requires forall n | n in albums :: Sortable(albums[n], table, artists.Keys)
      modifies this
      ensures tracks == old(tracks) && table == old(table) && playlists == old(playlists) && nextId == old(nextId)
      ensures albums == SortAll(old(albums), table, old(artists).Keys)
      ensures artists == RegisterAll(old(artists), albums)
    {
      albums, artists := SortAndRegister(albums, artists, table);
    }

    /**
     * `arrangeTracks(data)`: the skeleton collections, the track loop,
     * `tracks.addAll(finalTrackList)`, the primary artists, the album
     * registrations and `cleanEmptyCollections()`. The requirement is what
     * keeps `sortArtists()` from throwing.
     */
    method ArrangeTracks(data: JsonContainer)
      requires Arrangeable(Distributed(State(), data))
      modifies this
      ensures State() == Arranged(old(State()), data)
      ensures old(Valid()) ==> Valid()
    {
      ghost var c := State();
      if c.Valid() {
        ArrangedTracks(c, data);
      }
      PutSkeletons(data);
      var finalTrackList := Distribute(data.tracks);
      tracks := tracks + finalTrackList;
      assert State() == Distributed(c, data);
      SortPlaylists();
      SortAlbums();
      assert State() == Derived(Distributed(c, data));
      CleanEmptyCollections();
    }

    // ------------------------------------------------------------ cleanInvalidPaths

    /** The second loop of `cleanInvalidPaths()`: detach the value of each id in turn. */
    method DetachEach(ids: seq<Id>)
      requires forall i | 0 <= i < |ids| :: ids[i] in table
      modifies this
      ensures State() == DetachAll(old(State()), ids)
    {
      ghost var c1 := State();
      for j := 0 to |ids|
        invariant State() == DetachAll(c1, ids[..j])
        invariant table == c1.table
      {
        assert ids[..j + 1][..j] == ids[..j];
        DetachValue(table[ids[j]]);
      }
      assert ids[..|ids|] == ids;
    }

    /** `cleanInvalidPaths()`, with `existing` the set of paths whose file exists. */
    method CleanInvalidPaths(existing: set<string>)
      requires Valid()
      modifies this
      ensures State() == PathsCleaned(old(State()), existing)
      ensures Valid()
    {
      assert forall k | 0 <= k < |tracks| :: tracks[k] in table by { assert State().Valid(); }
      var scrubbed, toDelete := ScrubAll(tracks, table, existing);
      table := scrubbed;
      MissingIdsPaths(tracks, old(table), table, existing);
      DetachEach(toDelete);
      PathsCleanedTracks(old(State()), existing);
    }

    // ------------------------------------------------------------ deduplicate

    /** The first loop of `deduplicate()`: the first object of each value that the master list holds twice or more. */
    method FindDuplicates() returns (toRemove: seq<Id>)
      requires Valid()
      ensures toRemove == Duplicates(tracks, tracks, table)
    {
      toRemove := [];
      for i := 0 to |tracks|
        invariant toRemove == Duplicates(tracks, tracks[..i], table)
      {
        assert tracks[..i + 1][..i] == tracks[..i];
        var v := table[tracks[i]];
        if IndexOf(tracks, table, v) != LastIndexOf(tracks, table, v) && IndexOf(toRemove, table, v) == -1 {
          toRemove := toRemove + [tracks[i]];
        }
      }
      assert tracks[..|tracks|] == tracks;
    }

    /** The second loop of `deduplicate()`: `delete()` each chosen track object in turn. */
    method DeleteEach(ids: seq<Id>)
      requires forall i | 0 <= i < |ids| :: ids[i] in table
      modifies this
      ensures State() == DeleteAll(old(State()), ids)
    {
      ghost var c0 := State();
      for j := 0 to |ids|
        invariant State() == DeleteAll(c0, ids[..j])
        invariant table.Keys == c0.table.Keys
      {
        assert ids[..j + 1][..j] == ids[..j];
        Delete(ids[j]);
      }
      assert ids[..|ids|] == ids;
    }

    /** `deduplicate()`. */
    method Deduplicate()
      requires Valid()
      modifies this
      ensures State() == Deduplicated(old(State()))
      ensures Valid()
    {
      var toRemove := FindDuplicates();
      DeleteEach(toRemove);
      DeduplicatedValid(old(State()));
    }

    // ------------------------------------------------------------ importFromMap

    /** The first four assignments of `importFromMap`, on the track object id. */
    method ImportHeadFields(id: Id, source: Form)
      requires id in table
      modifies this
      ensures State() == Retabled(old(State()), id, ImportHead(old(table)[id], source))
    {
      var t := table[id];
      t := t.(imgPath := if ImagePathKey in source then Some(source[ImagePathKey]) else t.imgPath);
      t := t.(name := if NameKey in source then source[NameKey] else t.name);
      t := t.(originalName := if OriginalNameKey in source then Some(source[OriginalNameKey]) else t.originalName);
      t := t.(desc := if DescriptionKey in source then Some(source[DescriptionKey]) else t.desc);
      table := table[id := t];
    }

    /** The "Artists" block of `importFromMap`. */
    method ImportArtistsBlock(id: Id, source: Form)
      requires id in table
      modifies this
      ensures State() == ImportArtists(old(State()), id, source)
    {
      if ArtistsKey in source {
        var v := table[id];
        artists := RemoveEach(artists, v.artists, table, v);
        var r := Split(source[ArtistsKey], ",", Some("\\"), true);
        var names := r.value;
        table := table[id := v.(artists := names)];
        artists := AppendEach(artists, names, id, true);
      }
    }

    /** The "Language" block of `importFromMap`: the split list, each offered to `langs`. */
    method ImportLanguage(id: Id, source: Form, langs: LangList)
      requires id in table
      modifies this, langs
      ensures State() == Retabled(old(State()), id, WithLang(old(table)[id], source))
      ensures langs.langs == Learned(old(langs.langs), LanguagesOf(source, LanguageKey))
      ensures langs.default == old(langs.default)
    {
      if LanguageKey in source {
        var r := Split(source[LanguageKey], ",", Some("\\"), true);
        table := table[id := table[id].(lang := r.value)];
        LearnEach(langs, r.value);
      }
    }

    /** The "Original Language" block of `importFromMap`. */
    method ImportOriginalLanguage(id: Id, source: Form, langs: LangList)
      requires id in table
      modifies this, langs
      ensures State() == Retabled(old(State()), id, WithOriginalLang(old(table)[id], source))
      ensures langs.langs == Learned(old(langs.langs), LanguagesOf(source, OriginalLanguageKey))
      ensures langs.default == old(langs.default)
    {
      if OriginalLanguageKey in source {
        var r := Split(source[OriginalLanguageKey], ",", Some("\\"), true);
        table := table[id := table[id].(originalLang := r.value)];
        LearnEach(langs, r.value);
      }
    }

    /** Origin, origin info, cover and album. */
    method ImportOriginFields(id: Id, source: Form)
      requires id in table
      modifies this
      ensures State() == Retabled(old(State()), id, ImportOrigin(old(table)[id], source))
    {
      var t := table[id];
      t := t.(origin := if OriginKey in source then source[OriginKey] else t.origin);
      t := t.(originInfo := if OriginInfoKey in source then Some(source[OriginInfoKey]) else t.originInfo);
      t := t.(cover := if CoverKey in source then ToBoolean(source[CoverKey]) else t.cover);
      t := t.(album := if AlbumKey in source then Some(source[AlbumKey]) else t.album);
      table := table[id := t];
    }

    /** The album block: a track naming an unknown album starts it, and the album's artists are sorted. */
    method ImportAlbumBlock(id: Id)
      requires id in table && AlbumSortable(State(), id)
      modifies this
      ensures State() == ImportAlbum(old(State()), id)
    {
      var album := table[id].album;
      if album.Some? && album.value !in albums {
        var a := album.value;
        albums := albums[a := NewPlaylist(id, a)];
        var q := SortArtists(albums[a], table, artists.Keys);
        albums := albums[a := q];
      }
    }

    /** The three lyrics blocks. */
    method ImportLyricsFields(id: Id, source: Form)
      requires id in table
      modifies this
      ensures State() == Retabled(old(State()), id, ImportLyrics(old(table)[id], source))
    {
      var t := table[id];
      if OriginalLyricsKey in source && source[OriginalLyricsKey] != "None" {
        t := t.(stdLyrics := Some(NewLyrics(source[OriginalLyricsKey])));
      } else {
        t := t.(stdLyrics := None);
      }
      if RomanisedLyricsKey in source && source[RomanisedLyricsKey] != "None" {
        t := t.(romLyrics := Some(NewLyrics(source[RomanisedLyricsKey])));
      } else {
        t := t.(romLyrics := None);
      }
      if TranslatedLyricsKey in source && source[TranslatedLyricsKey] != "None" {
        t := t.(trnLyrics := Some(NewLyrics(source[TranslatedLyricsKey])));
      } else {
        t := t.(trnLyrics := None);
      }
      table := table[id := t];
    }

    /** The language blocks and the origin fields, in the order of `importFromMap`. */
    method ImportDetails(id: Id, source: Form, langs: LangList)
      requires id in table
      modifies this, langs
      ensures State() == Retabled(old(State()), id, ImportOrigin(ImportLanguages(old(table)[id], source), source))
      ensures langs.langs == Learned(old(langs.langs), NewLanguages(source))
      ensures langs.default == old(langs.default)
    {
      LearnedConcat(langs.langs, LanguagesOf(source, LanguageKey), LanguagesOf(source, OriginalLanguageKey));
      ImportLanguage(id, source, langs);
      ImportOriginalLanguage(id, source, langs);
      ImportOriginFields(id, source);
    }

    /** `importFromMap` up to the album block. */
    method ImportBeforeAlbum(id: Id, source: Form, langs: LangList)
      requires id in table
      modifies this, langs
      ensures State() == BeforeAlbum(old(State()), id, source)
      ensures langs.langs == Learned(old(langs.langs), NewLanguages(source))
      ensures langs.default == old(langs.default)
    {
      ImportHeadFields(id, source);
      ImportArtistsBlock(id, source);
      ImportDetails(id, source, langs);
    }

    /** `importFromMap(source)` on the track object id, with `langs` as the global `langList`. */
    method ImportFromMap(id: Id, source: Form, langs: LangList)
      requires Importable(State(), id, source)
      modifies this, langs
      ensures State() == Imported(old(State()), id, source)
      ensures langs.langs == Learned(old(langs.langs), NewLanguages(source))
      ensures langs.default == old(langs.default)
      ensures old(Valid()) ==> Valid()
    {
      ghost var c := State();
      if c.Valid() {
        ImportedValid(c, id, source);
      }
      ImportBeforeAlbum(id, source, langs);
      ImportAlbumBlock(id);
      ImportLyricsFields(id, source);
      CleanEmptyCollections();
    }
  }
}
