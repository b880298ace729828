/**
 * `Track.importFromMap(source)` (utils/SupportData.kt): the track editor's
 * key/value form applied to one track object of the catalog, phase by phase,
 * as functions on the catalog value. The global `musicRepo` is the catalog
 * and `langList` the vocabulary; the track object is the id.
 */
module Editing {
  import opened Wrappers
  import opened Lists
  import opened Text
  import opened Entities
  import opened Collections
  import opened Store
  import opened Arrange

  type Form = map<string, string>

  /** `source[key] ?: current`. */
  function Field(source: Form, key: string, current: string): (r: string)
    ensures key in source ==> r == source[key]
    ensures key !in source ==> r == current
  {
    if key in source then source[key] else current
  }

  /** `source[key] ?: current` for a nullable field. */
  function OptField(source: Form, key: string, current: Option<string>): (r: Option<string>)
    ensures key in source ==> r == Some(source[key])
    ensures key !in source ==> r == current
  {
    if key in source then Some(source[key]) else current
  }

  /** `split(s)` with its defaults: delimiter ",", escape "\\", whitespace stripped. It never throws. */
  function Pieces(s: string): (r: seq<string>)
    ensures Tokens(s, ",", Some("\\"), true) == Some(r)
  {
    TokensFailure(s, ",", Some("\\"), true);
    Tokens(s, ",", Some("\\"), true).value
  }

  /** The lyrics a key gives: a fresh `Lyrics(path)` unless the key is absent or its value is "None". */
  function LyricsField(source: Form, key: string): (r: Option<Lyrics>)
    ensures r.Some? <==> key in source && source[key] != "None"
    ensures r.Some? ==> r.value == NewLyrics(source[key])
  {
    if key in source && source[key] != "None" then Some(NewLyrics(source[key])) else None
  }

  /** The keys of `source` that name a field, and the defaults of `split`. */
  const ImagePathKey := "Image Path"
  const NameKey := "Name"
  const OriginalNameKey := "Original Name"
  const DescriptionKey := "Description"
  const ArtistsKey := "Artists"
  const LanguageKey := "Language"
  const OriginalLanguageKey := "Original Language"
  const OriginKey := "Origin"
  const OriginInfoKey := "Origin Info"
  const CoverKey := "Cover"
  const AlbumKey := "Album"
  const OriginalLyricsKey := "Original Lyrics"
  const RomanisedLyricsKey := "Romanised Lyrics"
  const TranslatedLyricsKey := "Translated Lyrics"

  // ---------------------------------------------------------------- the phases

  /** The track object id now holds t. */
  function Retabled(c: Catalog, id: Id, t: Track): Catalog {
    c.(table := c.table[id := t])
  }

  /** The first four assignments: image path, name, original name, description. */
  function ImportHead(t: Track, source: Form): Track {
    t.(imgPath := OptField(source, ImagePathKey, t.imgPath),
       name := Field(source, NameKey, t.name),
       originalName := OptField(source, OriginalNameKey, t.originalName),
       desc := OptField(source, DescriptionKey, t.desc))
  }

  /**
   * The "Artists" block: the track leaves the collection of each artist it
   * credited (compared by value, with its current fields), gets the split
   * list as its artists, and is appended to (or starts) the collection of
   * each of them.
   */
  function ImportArtists(c: Catalog, id: Id, source: Form): Catalog
    requires id in c.table
  {
    if ArtistsKey !in source then c
    else
      var v := c.table[id];
      var names := Pieces(source[ArtistsKey]);
      c.(table := c.table[id := ImportArtistList(v, source)],
         artists := AppendToEach(RemoveFromEach(c.artists, v.artists, c.table, v), names, id, true))
  }

  /** The track's side of the "Artists" block: the split list replaces its artists. */
  function ImportArtistList(t: Track, source: Form): Track {
    if ArtistsKey in source then t.(artists := Pieces(source[ArtistsKey])) else t
  }

  /** The languages a block offers to `createIfNotFound`: the split value, or none without the key. */
  function LanguagesOf(source: Form, key: string): seq<string> {
    if key in source then Pieces(source[key]) else []
  }

  /** The "Language" block, on the track. */
  function WithLang(t: Track, source: Form): Track {
    if LanguageKey in source then t.(lang := Pieces(source[LanguageKey])) else t
  }

  /** The "Original Language" block, on the track. */
  function WithOriginalLang(t: Track, source: Form): Track {
    if OriginalLanguageKey in source then t.(originalLang := Pieces(source[OriginalLanguageKey])) else t
  }

  function ImportLanguages(t: Track, source: Form): Track {
    WithOriginalLang(WithLang(t, source), source)
  }

  /** The languages both blocks offer to `createIfNotFound`, in order. */
  function NewLanguages(source: Form): seq<string> {
    LanguagesOf(source, LanguageKey) + LanguagesOf(source, OriginalLanguageKey)
  }

  /** Origin, origin info, cover (through `toBoolean()`) and album. */
  function ImportOrigin(t: Track, source: Form): Track {
    t.(origin := Field(source, OriginKey, t.origin),
       originInfo := OptField(source, OriginInfoKey, t.originInfo),
       cover := if CoverKey in source then ToBoolean(source[CoverKey]) else t.cover,
       album := OptField(source, AlbumKey, t.album))
  }

  /** The catalog when the album block is reached. */
  function BeforeAlbum(c: Catalog, id: Id, source: Form): (r: Catalog)
    requires id in c.table
    ensures id in r.table
  {
    var c1 := Retabled(c, id, ImportHead(c.table[id], source));
    var c2 := ImportArtists(c1, id, source);
    Retabled(c2, id, ImportOrigin(ImportLanguages(c2.table[id], source), source))
  }

  /** The track names an album the catalog does not have yet. */
  predicate OpensAlbum(c: Catalog, id: Id)
    requires id in c.table
  {
    c.table[id].album.Some? && c.table[id].album.value !in c.albums
  }

  /**
   * `sortArtists()` on the new album completes: every artist of the track
   * has a collection (the `!!`) and the track credits at least one artist
   * (`first[0]` of `inferPrimaryArtist()`).
   */
  predicate AlbumSortable(c: Catalog, id: Id)
    requires id in c.table
  {
    OpensAlbum(c, id) ==> Sortable(NewPlaylist(id, c.table[id].album.value), c.table, c.artists.Keys)
  }

  /** The album block: a new album holding only the track, with its artists sorted. */
  function ImportAlbum(c: Catalog, id: Id): Catalog
    requires id in c.table && AlbumSortable(c, id)
  {
    if OpensAlbum(c, id) then
      var a := c.table[id].album.value;
      c.(albums := c.albums[a := Sorted(NewPlaylist(id, a), c.table)])
    else c
  }

  /** The track object's value when the album block is reached. */
  function TrackBeforeAlbum(t: Track, source: Form): Track {
    ImportOrigin(ImportLanguages(ImportArtistList(ImportHead(t, source), source), source), source)
  }

  /** The track object's value at the end. */
  function TrackImported(t: Track, source: Form): Track {
    ImportLyrics(TrackBeforeAlbum(t, source), source)
  }

  /** The three lyrics blocks: standard, romanised, translated. */
  function ImportLyrics(t: Track, source: Form): Track {
    t.(stdLyrics := LyricsField(source, OriginalLyricsKey),
       romLyrics := LyricsField(source, RomanisedLyricsKey),
       trnLyrics := LyricsField(source, TranslatedLyricsKey))
  }

  /** `importFromMap` completes: the only way it can throw is in the album block's `sortArtists()`. */
  predicate Importable(c: Catalog, id: Id, source: Form) {
    id in c.table && AlbumSortable(BeforeAlbum(c, id, source), id)
  }

  /** `importFromMap(source)` on the track object id, ending with `cleanEmptyCollections()`. */
  function Imported(c: Catalog, id: Id, source: Form): Catalog
    requires Importable(c, id, source)
  {
    var c3 := ImportAlbum(BeforeAlbum(c, id, source), id);
    Cleaned(Retabled(c3, id, ImportLyrics(c3.table[id], source)))
  }

  // ---------------------------------------------------------------- properties

  /** The catalog when the album block is reached: only the track object and the artists have changed. */
  lemma BeforeAlbumShape(c: Catalog, id: Id, source: Form)
    requires id in c.table
    ensures var e := BeforeAlbum(c, id, source); var t := c.table[id];
      var v := ImportHead(t, source);
      && e.table == c.table[id := TrackBeforeAlbum(t, source)]
      && e.tracks == c.tracks && e.nextId == c.nextId
      && e.playlists == c.playlists && e.albums == c.albums
      && e.artists == if ArtistsKey in source
                      then AppendToEach(RemoveFromEach(c.artists, v.artists, c.table[id := v], v), Pieces(source[ArtistsKey]), id, true)
                      else c.artists
  {
  }

  /** The catalog at the end: the track object holds its imported value, and the maps are pruned. */
  lemma ImportedShape(c: Catalog, id: Id, source: Form)
    requires Importable(c, id, source)
    ensures var e := BeforeAlbum(c, id, source); var d := Imported(c, id, source);
      && d.table == c.table[id := TrackImported(c.table[id], source)]
      && d.tracks == c.tracks && d.nextId == c.nextId
      && d.playlists == Prune(c.playlists)
      && d.artists == Prune(e.artists)
      && d.albums == Prune(ImportAlbum(e, id).albums)
  {
    BeforeAlbumShape(c, id, source);
    var e := BeforeAlbum(c, id, source);
    var f := ImportAlbum(e, id);
    assert f == e.(albums := f.albums);
    var g := Retabled(f, id, ImportLyrics(f.table[id], source));
    assert Imported(c, id, source) == Cleaned(g);
  }

  /**
   * Field by field, the imported track: a present key sets its field and an
   * absent key keeps it (the cover through `toBoolean()`).
   */
  lemma TrackImportedFields(t: Track, source: Form)
    ensures var u := TrackImported(t, source);
      && u.imgPath == (if ImagePathKey in source then Some(source[ImagePathKey]) else t.imgPath)
      && u.name == (if NameKey in source then source[NameKey] else t.name)
      && u.originalName == (if OriginalNameKey in source then Some(source[OriginalNameKey]) else t.originalName)
      && u.desc == (if DescriptionKey in source then Some(source[DescriptionKey]) else t.desc)
      && u.origin == (if OriginKey in source then source[OriginKey] else t.origin)
      && u.originInfo == (if OriginInfoKey in source then Some(source[OriginInfoKey]) else t.originInfo)
      && u.cover == (if CoverKey in source then ToBoolean(source[CoverKey]) else t.cover)
      && u.album == (if AlbumKey in source then Some(source[AlbumKey]) else t.album)
  {
    var h := ImportHead(t, source);
    var l := ImportLanguages(ImportArtistList(h, source), source);
    assert l.imgPath == h.imgPath && l.name == h.name && l.originalName == h.originalName && l.desc == h.desc;
    assert l.origin == t.origin && l.originInfo == t.originInfo && l.cover == t.cover && l.album == t.album;
  }

  /** The path, playlists, runtime, date, play count, selected lyric and file handle are untouched. */
  lemma TrackImportedKeeps(t: Track, source: Form)
    ensures var u := TrackImported(t, source);
      && u.path == t.path && u.playlists == t.playlists && u.runtime == t.runtime
      && u.dateAdded == t.dateAdded && u.timesPlayed == t.timesPlayed
      && u.selectedLyrics == t.selectedLyrics && u.file == t.file
  {
    var l := ImportLanguages(ImportArtistList(ImportHead(t, source), source), source);
    assert l.path == t.path && l.playlists == t.playlists && l.runtime == t.runtime;
    assert l.dateAdded == t.dateAdded && l.timesPlayed == t.timesPlayed;
    assert l.selectedLyrics == t.selectedLyrics && l.file == t.file;
  }

  /**
   * The list fields and the lyrics: artists and languages become the split
   * value when their key is present; each lyric is rebuilt from its key, or
   * dropped when the key is absent or its value is "None".
   */
  lemma TrackImportedLists(t: Track, source: Form)
    ensures var u := TrackImported(t, source);
      && u.artists == (if ArtistsKey in source then Pieces(source[ArtistsKey]) else t.artists)
      && u.lang == (if LanguageKey in source then Pieces(source[LanguageKey]) else t.lang)
      && u.originalLang == (if OriginalLanguageKey in source then Pieces(source[OriginalLanguageKey]) else t.originalLang)
      && (u.stdLyrics.Some? <==> OriginalLyricsKey in source && source[OriginalLyricsKey] != "None")
      && (u.romLyrics.Some? <==> RomanisedLyricsKey in source && source[RomanisedLyricsKey] != "None")
      && (u.trnLyrics.Some? <==> TranslatedLyricsKey in source && source[TranslatedLyricsKey] != "None")
  {
    var a := ImportArtistList(ImportHead(t, source), source);
    assert a.artists == (if ArtistsKey in source then Pieces(source[ArtistsKey]) else t.artists);
    assert a.lang == t.lang && a.originalLang == t.originalLang;
    var w := WithLang(a, source);
    assert w.artists == a.artists && w.originalLang == t.originalLang;
    var l := WithOriginalLang(w, source);
    assert l.artists == a.artists && l.lang == w.lang;
  }

  /** No other track object changes; the master list stays and the playlists are only pruned. */
  lemma ImportedElsewhere(c: Catalog, id: Id, source: Form, k: Id)
    requires Importable(c, id, source)
    ensures var d := Imported(c, id, source);
      && d.table.Keys == c.table.Keys && d.tracks == c.tracks && d.nextId == c.nextId
      && (k in c.table && k != id ==> d.table[k] == c.table[k])
      && d.playlists == Prune(c.playlists)
  {
    ImportedShape(c, id, source);
  }

  /**
   * With an "Artists" key, every listed artist ends up with a collection
   * holding the track; an artist that is not listed loses from its
   * collection one element equal to the track per time the track credited it.
   */
  lemma ImportedArtists(c: Catalog, id: Id, source: Form, n: string)
    requires Importable(c, id, source) && ArtistsKey in source
    ensures var d := Imported(c, id, source);
      var c1 := Retabled(c, id, ImportHead(c.table[id], source));
      var v := c1.table[id];
      && (n in Pieces(source[ArtistsKey]) ==> n in d.artists && id in d.artists[n].tracks)
      && (n in c.artists && n !in Pieces(source[ArtistsKey]) && n in d.artists ==>
            d.artists[n] == c.artists[n].(tracks := RemoveN(c.artists[n].tracks, c1.table, v, Occurrences(v.artists, n))))
  {
    var c1 := Retabled(c, id, ImportHead(c.table[id], source));
    var v := c1.table[id];
    var names := Pieces(source[ArtistsKey]);
    var removed := RemoveFromEach(c.artists, v.artists, c1.table, v);
    if n in names {
      AppendToEachHolds(removed, names, id, true, n);
    }
    if n in c.artists && n !in names {
      RemoveFromEachAt(c.artists, v.artists, c1.table, v, n);
      AppendToEachKeeps(removed, names, id, true, n);
    }
  }

  /** Without an "Artists" key the artist collections are only pruned. */
  lemma ImportedNoArtists(c: Catalog, id: Id, source: Form)
    requires Importable(c, id, source) && ArtistsKey !in source
    ensures Imported(c, id, source).artists == Prune(c.artists)
  {
  }

  /**
   * The album the track ends up naming: a new one holds exactly the track,
   * with a primary artist; otherwise the albums are only pruned (the track
   * is not appended to an album that already exists).
   */
  lemma ImportedAlbum(c: Catalog, id: Id, source: Form)
    requires Importable(c, id, source)
    ensures var e := BeforeAlbum(c, id, source); var d := Imported(c, id, source);
      && (OpensAlbum(e, id) ==>
            var a := e.table[id].album.value;
            && a in d.albums && d.albums[a].tracks == [id] && d.albums[a].name == a
            && d.albums[a].Playlist? && d.albums[a].primaryArtist.Some?
            && d.albums == Prune(c.albums)[a := d.albums[a]])
      && (!OpensAlbum(e, id) ==> d.albums == Prune(c.albums))
  {
    var e := BeforeAlbum(c, id, source);
    ImportedShape(c, id, source);
    BeforeAlbumShape(c, id, source);
    if OpensAlbum(e, id) {
      var a := e.table[id].album.value;
      var q := Sorted(NewPlaylist(id, a), e.table);
      assert ImportAlbum(e, id).albums == c.albums[a := q];
      PruneSet(c.albums, a, q);
    }
  }

  /** The import keeps the catalog well formed and leaves no empty collection. */
  lemma ImportedValid(c: Catalog, id: Id, source: Form)
    requires c.Valid() && Importable(c, id, source)
    ensures var d := Imported(c, id, source); d.Valid() && NoEmpty(d)
  {
    var e := BeforeAlbum(c, id, source);
    var f := ImportAlbum(e, id);
    var g := Retabled(f, id, ImportLyrics(f.table[id], source));
    BeforeAlbumShape(c, id, source);
    if ArtistsKey in source {
      var v := ImportHead(c.table[id], source);
      var removed := RemoveFromEach(c.artists, v.artists, c.table[id := v], v);
      RemoveFromEachKinded(c.artists, v.artists, c.table[id := v], v, true);
      AppendToEachKinded(removed, Pieces(source[ArtistsKey]), id, true);
    }
    assert Kinded(f.albums, false);
    assert g.Valid();
    assert Imported(c, id, source) == Cleaned(g);
    CleanedSpec(g);
  }

  // ---------------------------------------------------------------- the vocabulary

  /** `for (lang in keys) langList.createIfNotFound(lang)`. */
  method LearnEach(langs: LangList, keys: seq<string>)
    modifies langs
    ensures langs.langs == Learned(old(langs.langs), keys)
    ensures langs.default == old(langs.default)
  {
    for i := 0 to |keys|
      invariant langs.langs == Learned(old(langs.langs), keys[..i])
      invariant langs.default == old(langs.default)
    {
      assert keys[..i + 1][..i] == keys[..i];
      var _ := langs.CreateIfNotFound(keys[i]);
    }
    assert keys[..|keys|] == keys;
  }

  /** Learning two lists in turn is learning their concatenation. */
  lemma {:induction false} LearnedConcat(vocab: seq<string>, a: seq<string>, b: seq<string>)
    ensures Learned(Learned(vocab, a), b) == Learned(vocab, a + b)
  {
    if b != [] {
      var init := b[..|b| - 1];
      assert (a + b)[..|a + b| - 1] == a + init;
      LearnedConcat(vocab, a, init);
    } else {
      assert a + b == a;
    }
  }
}
