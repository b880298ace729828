/**
 * The older revision of the catalog, SupportData.kt of the root package.
 * There `GlobalViewModel` holds the master list and the three maps. Its
 * records have fewer fields than the newer ones:
 * - tracks have no description;
 * - playlists and albums have no artist counts;
 * - artists have no album set.
 *
 * An old record is represented by its upgrade: the newer record with the
 * missing fields at their empty values. Upgrading loses nothing (Downgrade
 * undoes it) and commutes with the skeleton conversions. So the catalog
 * functions of the Store, Arrange and Maintenance modules describe the old
 * view model too; LegacyShaped says which catalogs are upgrades, and every
 * operation keeps it.
 */
module Legacy {
  import opened Wrappers
  import opened Lists
  import opened Durations
  import opened Entities
  import opened Collections
  import opened Store
  import opened Arrange
  import opened Maintenance
  import Repo

  // ---------------------------------------------------------------- tracks

  /** The old `Track` data class: the fields of the newer one but the description. */
  datatype OldTrack = OldTrack(
    path: string,
    name: string,
    originalName: Option<string>,
    lang: seq<string>,
    origin: string,
    originInfo: Option<string>,
    runtime: Duration,
    cover: bool,
    originalLang: seq<string>,
    album: Option<string>,
    playlists: seq<string>,
    artists: seq<string>,
    imgPath: Option<string>,
    dateAdded: Option<Date>,
    timesPlayed: int,
    stdLyrics: Option<Lyrics>,
    trnLyrics: Option<Lyrics>,
    romLyrics: Option<Lyrics>,
    selectedLyrics: int,
    file: Option<string>)
  {
    /** No file handle is held, by the track or by any of its lyrics. */
    predicate Closed() {
      Upgrade().Closed()
    }

    /** `toSkeleton()`: every field but the file handle; lyrics by their skeletons. */
    function ToSkeleton(): OldTrackSkeleton {
      OldTrackSkeleton(path, name, originalName, lang, origin, originInfo, runtime, cover,
                       originalLang, album, playlists, artists, imgPath, dateAdded, timesPlayed,
                       SkeletonOf(stdLyrics), SkeletonOf(trnLyrics), SkeletonOf(romLyrics),
                       selectedLyrics)
    }

    /** The same track as a newer record, without a description. */
    function Upgrade(): Track {
      Track(path, name, originalName, lang, origin, originInfo, runtime, cover,
            originalLang, album, playlists, artists, imgPath, dateAdded, timesPlayed,
            stdLyrics, trnLyrics, romLyrics, selectedLyrics, file, None)
    }
  }

  /** The old `TrackSkeleton`. */
  datatype OldTrackSkeleton = OldTrackSkeleton(
    path: string,
    name: string,
    originalName: Option<string>,
    lang: seq<string>,
    origin: string,
    originInfo: Option<string>,
    runtime: Duration,
    cover: bool,
    originalLang: seq<string>,
    album: Option<string>,
    playlists: seq<string>,
    artists: seq<string>,
    imgPath: Option<string>,
    dateAdded: Option<Date>,
    timesPlayed: int,
    stdLyrics: Option<LyricsSkeleton>,
    trnLyrics: Option<LyricsSkeleton>,
    romLyrics: Option<LyricsSkeleton>,
    selectedLyrics: int)
  {
    /** `toTrack()`: every field copied, `file = null`, lyrics rebuilt without handles. */
    function ToTrack(): (t: OldTrack)
      ensures t.file == None
    {
      OldTrack(path, name, originalName, lang, origin, originInfo, runtime, cover,
               originalLang, album, playlists, artists, imgPath, dateAdded, timesPlayed,
               LyricsOf(stdLyrics), LyricsOf(trnLyrics), LyricsOf(romLyrics),
               selectedLyrics, None)
    }

    /** The same skeleton as a newer one, without a description. */
    function Upgrade(): TrackSkeleton {
      TrackSkeleton(path, name, originalName, lang, origin, originInfo, runtime, cover,
                    originalLang, album, playlists, artists, imgPath, dateAdded, timesPlayed,
                    stdLyrics, trnLyrics, romLyrics, selectedLyrics, None)
    }
  }

  /** A newer track without its description. */
  function Downgrade(t: Track): OldTrack {
    OldTrack(t.path, t.name, t.originalName, t.lang, t.origin, t.originInfo, t.runtime, t.cover,
             t.originalLang, t.album, t.playlists, t.artists, t.imgPath, t.dateAdded, t.timesPlayed,
             t.stdLyrics, t.trnLyrics, t.romLyrics, t.selectedLyrics, t.file)
  }

  /** A newer skeleton without its description. */
  function DowngradeSkeleton(s: TrackSkeleton): OldTrackSkeleton {
    OldTrackSkeleton(s.path, s.name, s.originalName, s.lang, s.origin, s.originInfo, s.runtime, s.cover,
                     s.originalLang, s.album, s.playlists, s.artists, s.imgPath, s.dateAdded, s.timesPlayed,
                     s.stdLyrics, s.trnLyrics, s.romLyrics, s.selectedLyrics)
  }

  /** Upgrading loses nothing, and the upgrades are exactly the tracks without a description. */
  lemma TrackUpgradeRoundTrip(t: OldTrack, u: Track)
    ensures Downgrade(t.Upgrade()) == t
    ensures u.desc == None <==> Downgrade(u).Upgrade() == u
  {
  }

  /** The same for skeletons. */
  lemma SkeletonUpgradeRoundTrip(s: OldTrackSkeleton, u: TrackSkeleton)
    ensures DowngradeSkeleton(s.Upgrade()) == s
    ensures u.desc == None <==> DowngradeSkeleton(u).Upgrade() == u
  {
  }

  /** Saving and decoding commute with upgrading. */
  lemma UpgradeCommutes(t: OldTrack, s: OldTrackSkeleton)
    ensures t.ToSkeleton().Upgrade() == t.Upgrade().ToSkeleton()
    ensures s.ToTrack().Upgrade() == s.Upgrade().ToTrack()
  {
  }

  /** Saving a decoded skeleton gives the skeleton back. */
  lemma OldSkeletonRoundTrip(s: OldTrackSkeleton)
    ensures s.ToTrack().ToSkeleton() == s
  {
    UpgradeCommutes(s.ToTrack(), s);
    SkeletonRoundTrip(s.Upgrade());
    SkeletonUpgradeRoundTrip(s.ToTrack().ToSkeleton(), s.Upgrade());
    SkeletonUpgradeRoundTrip(s, s.Upgrade());
  }

  /** Decoding a saved track gives it back exactly when it holds no file handle. */
  lemma OldTrackRoundTrip(t: OldTrack)
    ensures t.ToSkeleton().ToTrack() == t <==> t.Closed()
  {
    var s := t.ToSkeleton();
    UpgradeCommutes(t, s);
    TrackRoundTrip(t.Upgrade());
    TrackUpgradeRoundTrip(s.ToTrack(), t.Upgrade());
    TrackUpgradeRoundTrip(t, t.Upgrade());
  }

  // ---------------------------------------------------------------- collections

  /** The old `Playlist` (also an album) and `Artist`. */
  datatype OldCollection =
    | OldPlaylist(tracks: seq<Id>, imgPath: Option<string>, primaryArtist: Option<string>, name: string)
    | OldArtist(tracks: seq<Id>, name: string, imgPath: Option<string>)
  {
    /** `toSkeleton()`. */
    function ToSkeleton(): OldCollectionSkeleton {
      OldCollectionSkeleton(imgPath, name)
    }

    /** The same collection as a newer one: no artist counts, no albums, no description. */
    function Upgrade(): Collection {
      match this
      case OldPlaylist(tracks, imgPath, primaryArtist, name) => Playlist(tracks, imgPath, primaryArtist, name, [], None)
      case OldArtist(tracks, name, imgPath) => Artist(tracks, name, imgPath, {}, None)
    }
  }

  /** The old `SongCollectionSkeleton`: an image path and a name. */
  datatype OldCollectionSkeleton = OldCollectionSkeleton(imgPath: Option<string>, name: string)
  {
    /** `toPlaylist()`: an empty playlist carrying the saved fields. */
    function ToPlaylist(): (p: OldCollection)
      ensures p.OldPlaylist? && p.ToSkeleton() == this
      ensures p.tracks == [] && p.primaryArtist == None
    {
      OldPlaylist([], imgPath, None, name)
    }

    /** `toArtist()`: an empty artist carrying the saved fields. */
    function ToArtist(): (a: OldCollection)
      ensures a.OldArtist? && a.ToSkeleton() == this && a.tracks == []
    {
      OldArtist([], name, imgPath)
    }

    /** The same skeleton as a newer one, without a description. */
    function Upgrade(): CollectionSkeleton {
      CollectionSkeleton(imgPath, name, None)
    }
  }

  /** A newer collection is the upgrade of an old one: no counts, no albums, no description. */
  predicate OldShaped(q: Collection) {
    q.desc == None && (q.Playlist? ==> q.artists == []) && (q.Artist? ==> q.albums == {})
  }

  /** A newer collection without the fields the old one lacks. */
  function DowngradeCollection(q: Collection): OldCollection {
    match q
    case Playlist(tracks, imgPath, primaryArtist, name, _, _) => OldPlaylist(tracks, imgPath, primaryArtist, name)
    case Artist(tracks, name, imgPath, _, _) => OldArtist(tracks, name, imgPath)
  }

  /** Upgrading a collection loses nothing, and the upgrades are exactly the old-shaped collections. */
  lemma CollectionUpgradeRoundTrip(o: OldCollection, q: Collection)
    ensures DowngradeCollection(o.Upgrade()) == o && OldShaped(o.Upgrade())
    ensures OldShaped(q) <==> DowngradeCollection(q).Upgrade() == q
  {
  }

  /** Making and saving collections commute with upgrading. */
  lemma CollectionUpgradeCommutes(o: OldCollection, s: OldCollectionSkeleton)
    ensures o.Upgrade().ToSkeleton() == o.ToSkeleton().Upgrade()
    ensures s.ToPlaylist().Upgrade() == s.Upgrade().ToPlaylist()
    ensures s.ToArtist().Upgrade() == s.Upgrade().ToArtist()
  {
  }

  /** Each collection of the map is old-shaped. */
  predicate ShelfShaped(m: Shelf) {
    forall n | n in m :: OldShaped(m[n])
  }

  /** The catalog is the upgrade of an old one: no track has a description, no collection more than the old fields. */
  predicate LegacyShaped(c: Catalog) {
    && (forall id | id in c.table :: c.table[id].desc == None)
    && ShelfShaped(c.playlists) && ShelfShaped(c.artists) && ShelfShaped(c.albums)
  }

  // ---------------------------------------------------------------- snapshots

  /** The old `JsonContainer`. */
  datatype OldJsonContainer = OldJsonContainer(tracks: seq<OldTrackSkeleton>, playlists: seq<OldCollectionSkeleton>,
                                               artists: seq<OldCollectionSkeleton>, albums: seq<OldCollectionSkeleton>)
  {
    /** The same snapshot in the newer records. */
    function Upgrade(): JsonContainer {
      JsonContainer(UpgradeTracks(tracks), UpgradeSkeletons(playlists), UpgradeSkeletons(artists), UpgradeSkeletons(albums))
    }
  }

  function UpgradeTracks(s: seq<OldTrackSkeleton>): (r: seq<TrackSkeleton>)
    ensures |r| == |s| && forall i | 0 <= i < |s| :: r[i] == s[i].Upgrade()
  {
    seq(|s|, i requires 0 <= i < |s| => s[i].Upgrade())
  }

  function UpgradeSkeletons(s: seq<OldCollectionSkeleton>): (r: seq<CollectionSkeleton>)
    ensures |r| == |s| && forall i | 0 <= i < |s| :: r[i] == s[i].Upgrade()
  {
    seq(|s|, i requires 0 <= i < |s| => s[i].Upgrade())
  }

  /** `toTrack()` of every old track skeleton, upgraded. */
  function DecodeOld(skels: seq<OldTrackSkeleton>): (ts: seq<Track>)
    ensures |ts| == |skels|
  {
    seq(|skels|, i requires 0 <= i < |skels| => skels[i].ToTrack().Upgrade())
  }

  /** Decoding the upgraded snapshot gives the upgrades of the old decoded tracks. */
  lemma DecodeUpgraded(data: OldJsonContainer)
    ensures Decode(data.Upgrade().tracks) == DecodeOld(data.tracks)
  {
    var ts := Decode(data.Upgrade().tracks);
    forall i | 0 <= i < |data.tracks| ensures ts[i] == DecodeOld(data.tracks)[i] {
      UpgradeCommutes(data.tracks[i].ToTrack(), data.tracks[i]);
    }
  }

  // ---------------------------------------------------------------- arrangeTracks

  /**
   * The old `arrangeTracks(data)`: the skeleton collections, the track loop,
   * `trackList.addAll(finalTrackList)` and `cleanEmptyCollections()`. Unlike
   * the newer revision it computes no primary artists and registers no albums.
   */
  function LegacyArranged(c: Catalog, data: OldJsonContainer): Catalog {
    Cleaned(Distributed(c, data.Upgrade()))
  }

  /**
   * The old `arrangeTracks(data)` on the master list and the table: the list
   * becomes the old list followed by one fresh object per track skeleton, in
   * snapshot order; old objects keep their values; the catalog stays well
   * formed; no map holds an empty collection, so a further
   * `cleanEmptyCollections()` changes nothing.
   */
  lemma LegacyArrangedTracks(c: Catalog, data: OldJsonContainer)
    requires c.Valid()
    ensures var d := LegacyArranged(c, data);
      && d.Valid() && NoEmpty(d) && Cleaned(d) == d
      && d.tracks == c.tracks + FreshIds(c.nextId, |data.tracks|)
      && d.nextId == c.nextId + |data.tracks|
      && (forall id | id in c.table :: id in d.table && d.table[id] == c.table[id])
  {
    DistributedValid(c, data.Upgrade());
    CleanedSpec(Distributed(c, data.Upgrade()));
  }

  /** The object made for the i-th track skeleton holds the upgrade of `toTrack()` of it. */
  lemma LegacyArrangedTrack(c: Catalog, data: OldJsonContainer, i: nat)
    requires i < |data.tracks|
    ensures var d := LegacyArranged(c, data);
      c.nextId + i in d.table && d.table[c.nextId + i] == data.tracks[i].ToTrack().Upgrade()
  {
    DecodeUpgraded(data);
    FreshTableAt(c.nextId, DecodeOld(data.tracks), i);
  }

  /**
   * The old `arrangeTracks(data)` on membership: the object made for the
   * i-th track skeleton is in its album's collection, in the collection of
   * each of its playlists and in the collection of each of its artists,
   * which were created if the name was unknown and survive the pruning.
   */
  lemma LegacyArrangedMembership(c: Catalog, data: OldJsonContainer, i: nat, n: string)
    requires i < |data.tracks|
    ensures var d := LegacyArranged(c, data); var t := data.tracks[i].ToTrack(); var id := c.nextId + i;
      && (t.album == Some(n) ==> n in d.albums && id in d.albums[n].tracks)
      && (n in t.playlists ==> n in d.playlists && id in d.playlists[n].tracks)
      && (n in t.artists ==> n in d.artists && id in d.artists[n].tracks)
  {
    var up := data.Upgrade();
    UpgradeCommutes(data.tracks[i].ToTrack(), data.tracks[i]);
    assert up.tracks[i].ToTrack() == data.tracks[i].ToTrack().Upgrade();
    var e := Distributed(c, up);
    var t := data.tracks[i].ToTrack();
    if t.album == Some(n) {
      DistributedHolds(c, up, i, n, AlbumRule);
      PruneSpec(e.albums, n);
    }
    if n in t.playlists {
      DistributedHolds(c, up, i, n, PlaylistRule);
      PruneSpec(e.playlists, n);
    }
    if n in t.artists {
      DistributedHolds(c, up, i, n, ArtistRule);
      PruneSpec(e.artists, n);
    }
  }

  /** Old-shaped values stay old-shaped: a new entry gets no description. */
  lemma {:induction false} FreshTableShaped(start: nat, ts: seq<Track>)
    requires forall i | 0 <= i < |ts| :: ts[i].desc == None
    ensures forall k | k in FreshTable(start, ts) :: FreshTable(start, ts)[k].desc == None
  {
    if ts != [] {
      FreshTableShaped(start, ts[..|ts| - 1]);
    }
  }

  /** Putting upgraded skeletons keeps a map old-shaped. */
  lemma {:induction false} PutAllShaped(m: Shelf, skels: seq<CollectionSkeleton>, artist: bool)
    requires ShelfShaped(m) && forall i | 0 <= i < |skels| :: skels[i].desc == None
    ensures ShelfShaped(PutAll(m, skels, artist))
  {
    if skels != [] {
      PutAllShaped(m, skels[..|skels| - 1], artist);
    }
  }

  /** The append-or-create rule keeps a map old-shaped. */
  lemma {:induction false} AppendToEachShaped(m: Shelf, names: seq<string>, id: Id, artist: bool)
    requires ShelfShaped(m)
    ensures ShelfShaped(AppendToEach(m, names, id, artist))
  {
    if names != [] {
      AppendToEachShaped(m, names[..|names| - 1], id, artist);
    }
  }

  /** Distributing tracks keeps a map old-shaped. */
  lemma {:induction false} SpreadShaped(m: Shelf, start: nat, ts: seq<Track>, rule: Rule)
    requires ShelfShaped(m)
    ensures ShelfShaped(Spread(m, start, ts, rule))
  {
    if ts != [] {
      SpreadShaped(m, start, ts[..|ts| - 1], rule);
      AppendToEachShaped(Spread(m, start, ts[..|ts| - 1], rule), NamesOf(rule, ts[|ts| - 1]), start + |ts| - 1, rule == ArtistRule);
    }
  }

  /** The old `arrangeTracks` on an upgraded catalog leaves an upgraded catalog. */
  lemma LegacyArrangedShaped(c: Catalog, data: OldJsonContainer)
    requires LegacyShaped(c)
    ensures LegacyShaped(LegacyArranged(c, data))
  {
    var up := data.Upgrade();
    var ts := Decode(up.tracks);
    DecodeUpgraded(data);
    FreshTableShaped(c.nextId, ts);
    PutAllShaped(c.playlists, up.playlists, false);
    PutAllShaped(c.artists, up.artists, true);
    PutAllShaped(c.albums, up.albums, false);
    SpreadShaped(PutAll(c.playlists, up.playlists, false), c.nextId, ts, PlaylistRule);
    SpreadShaped(PutAll(c.artists, up.artists, true), c.nextId, ts, ArtistRule);
    SpreadShaped(PutAll(c.albums, up.albums, false), c.nextId, ts, AlbumRule);
  }

  /** The old `cleanInvalid()` on an upgraded catalog leaves an upgraded catalog. */
  lemma LegacyCleanedShaped(c: Catalog, existing: set<string>)
    requires LegacyShaped(c)
    ensures LegacyShaped(PathsCleaned(c, existing))
  {
    var scrubbed := ScrubbedTable(c.table, c.tracks, existing);
    DetachAllShape(c.(table := scrubbed), MissingIds(c.tracks, scrubbed, existing));
  }

  // ---------------------------------------------------------------- the loops

  /** One step of the put loop on old skeletons: the upgrade of what it puts is what the newer loop puts. */
  lemma PutOldStep(m0: Shelf, skels: seq<OldCollectionSkeleton>, artist: bool, i: nat)
    requires i < |skels|
    ensures var up := UpgradeSkeletons(skels);
      PutAll(m0, up[..i + 1], artist)
      == PutAll(m0, up[..i], artist)[skels[i].name := if artist then skels[i].ToArtist().Upgrade() else skels[i].ToPlaylist().Upgrade()]
  {
    var up := UpgradeSkeletons(skels);
    assert up[..i + 1][..i] == up[..i];
    CollectionUpgradeCommutes(skels[i].ToPlaylist(), skels[i]);
  }

  /** `for (s in skels) m.put(s.name, s.toArtist())` (or `toPlaylist()`) on old skeletons. */
  method PutOldShelf(m0: Shelf, skels: seq<OldCollectionSkeleton>, artist: bool) returns (m: Shelf)
    ensures m == PutAll(m0, UpgradeSkeletons(skels), artist)
  {
    ghost var up := UpgradeSkeletons(skels);
    m := m0;
    for i := 0 to |skels|
      invariant m == PutAll(m0, up[..i], artist)
    {
      PutOldStep(m0, skels, artist, i);
      m := m[skels[i].name := if artist then skels[i].ToArtist().Upgrade() else skels[i].ToPlaylist().Upgrade()];
    }
    assert up[..|skels|] == up;
  }

  /**
   * The track loop of the old `arrangeTracks`, from the table t0, the maps
   * al0, pl0 and ar0 and the next free id start: returns the new table,
   * maps, next free id and `finalTrackList`.
   */
  method FileTracks(t0: map<Id, Track>, al0: Shelf, pl0: Shelf, ar0: Shelf, start: nat, skels: seq<OldTrackSkeleton>)
    returns (t: map<Id, Track>, al: Shelf, pl: Shelf, ar: Shelf, next: nat, made: seq<Id>)
    ensures var ts := DecodeOld(skels);
      && made == FreshIds(start, |ts|) && next == start + |ts|
      && t == t0 + FreshTable(start, ts)
      && al == Spread(al0, start, ts, AlbumRule)
      && pl == Spread(pl0, start, ts, PlaylistRule)
      && ar == Spread(ar0, start, ts, ArtistRule)
  {
    ghost var ts := DecodeOld(skels);
    t, al, pl, ar, next, made := t0, al0, pl0, ar0, start, [];
    for i := 0 to |skels|
      invariant next == start + i && made == FreshIds(start, i)
      invariant t == t0 + FreshTable(start, ts[..i])
      invariant al == Spread(al0, start, ts[..i], AlbumRule)
      invariant pl == Spread(pl0, start, ts[..i], PlaylistRule)
      invariant ar == Spread(ar0, start, ts[..i], ArtistRule)
    {
      FreshStep(t0, start, ts, i);
      SpreadStep(al0, start, ts, AlbumRule, i);
      SpreadStep(pl0, start, ts, PlaylistRule, i);
      SpreadStep(ar0, start, ts, ArtistRule, i);
      var fullTrack := skels[i].ToTrack().Upgrade();
      made := made + [next];
      t := t[next := fullTrack];
      al, pl, ar := Repo.FileUnder(al, pl, ar, fullTrack, next);
      next := next + 1;
    }
    assert ts[..|skels|] == ts;
  }

  /** The old `GlobalViewModel` with the catalog part of its `GlobalState`. */
  class GlobalViewModel {
    var trackList: seq<Id>
    var table: map<Id, Track>
    var playlists: Shelf
    var artists: Shelf
    var albums: Shelf
    var nextId: nat

    /** The fields as one value. */
    function State(): Catalog
      reads this
    {
      Catalog(trackList, table, playlists, artists, albums, nextId)
    }

    /** `GlobalViewModel()`: an empty `GlobalState`. */
    constructor ()
      ensures State() == Catalog([], map[], map[], map[], map[], 0)
      ensures State().Valid() && LegacyShaped(State())
    {
      trackList := [];
      table := map[];
      playlists := map[];
      artists := map[];
      albums := map[];
      nextId := 0;
    }

    /** `cleanEmptyCollections()`: playlists, then artists, then albums. */
    method CleanEmptyCollections()
      modifies this
      ensures State() == Cleaned(old(State()))
      ensures old(State().Valid()) ==> State().Valid()
    {
      playlists := Repo.PruneShelf(playlists);
      artists := Repo.PruneShelf(artists);
      albums := Repo.PruneShelf(albums);
      CleanedSpec(old(State()));
    }

    /** `arrangeTracks(data)`: albums, artists and playlists from their skeletons, the track loop, `addAll`, the pruning. */
    method ArrangeTracks(data: OldJsonContainer)
      modifies this
      ensures State() == LegacyArranged(old(State()), data)
      ensures old(State().Valid()) ==> State().Valid()
    {
      ghost var c := State();
      SpreadOld(data);
      CleanEmptyCollections();
      if c.Valid() {
        LegacyArrangedTracks(c, data);
      }
    }

    /** The part of `arrangeTracks(data)` before the pruning: the skeletons, the track loop and `addAll`. */
    method SpreadOld(data: OldJsonContainer)
      modifies this
      ensures State() == Distributed(old(State()), data.Upgrade())
    {
      ghost var c := State();
      albums := PutOldShelf(albums, data.albums, false);
      artists := PutOldShelf(artists, data.artists, true);
      playlists := PutOldShelf(playlists, data.playlists, false);
      var finalTrackList;
      table, albums, playlists, artists, nextId, finalTrackList :=
        FileTracks(table, albums, playlists, artists, nextId, data.tracks);
      trackList := trackList + finalTrackList;
      DecodeUpgraded(data);
      assert State() == Distributed(c, data.Upgrade());
    }

    /** The removals of `cleanInvalid()` for the track value v: its album, its playlists, its artists, the master list. */
    method DetachValue(v: Track)
      modifies this
      ensures State() == Detach(old(State()), v)
    {
      if v.album.Some? {
        var name := v.album.value;
        if name in albums {
          albums := albums[name := albums[name].(tracks := RemoveFirstEq(albums[name].tracks, table, v))];
        }
      }
      playlists := Repo.RemoveEach(playlists, v.playlists, table, v);
      artists := Repo.RemoveEach(artists, v.artists, table, v);
      trackList := RemoveFirstEq(trackList, table, v);
    }

    /** The second loop of `cleanInvalid()`: detach the value of each id in turn. */
    method DetachEach(ids: seq<Id>)
      requires forall i | 0 <= i < |ids| :: ids[i] in table
      modifies this
      ensures State() == DetachAll(old(State()), ids)
    {
      ghost var c1 := State();
      for j := 0 to |ids|
        invariant State() == DetachAll(c1, ids[..j])
        invariant table == c1.table
      {
        assert ids[..j + 1][..j] == ids[..j];
        DetachValue(table[ids[j]]);
      }
      assert ids[..|ids|] == ids;
    }

    /**
     * `cleanInvalid()`, with `existing` the set of paths whose file exists:
     * scrub the tracks whose file exists, then detach each of the others.
     */
    method CleanInvalid(existing: set<string>)
      requires State().Valid()
      modifies this
      ensures State() == PathsCleaned(old(State()), existing)
      ensures State().Valid()
    {
      assert forall k | 0 <= k < |trackList| :: trackList[k] in table by { assert State().Valid(); }
      var scrubbed, toDelete := Repo.ScrubAll(trackList, table, existing);
      table := scrubbed;
      MissingIdsPaths(trackList, old(table), table, existing);
      DetachEach(toDelete);
      PathsCleanedTracks(old(State()), existing);
    }
  }
}
