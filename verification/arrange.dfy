/**
 * `MusicRepo.arrangeTracks` (utils/Repositories.kt) as a function on the
 * catalog: the skeleton collections are put into their maps, every decoded
 * track is appended to the master list and to each collection it names,
 * artist counts and primary artists are derived, albums are registered with
 * their artists, and empty collections are pruned.
 */
module Arrange {
  import opened Wrappers
  import opened Lists
  import opened Entities
  import opened Collections
  import opened Store

  /** `JsonContainer`: the decoded snapshot. */
  datatype JsonContainer = JsonContainer(tracks: seq<TrackSkeleton>, playlists: seq<CollectionSkeleton>,
                                         artists: seq<CollectionSkeleton>, albums: seq<CollectionSkeleton>)

  // ---------------------------------------------------------------- skeleton collections

  /** `put(s.name, s.toArtist())` (or `toPlaylist()`) for each skeleton in turn. */
  function PutAll(m: Shelf, skels: seq<CollectionSkeleton>, artist: bool): (r: Shelf)
    ensures r.Keys == m.Keys + set s | s in skels :: s.name
  {
    if skels == [] then m
    else
      var init := skels[..|skels| - 1];
      var last := skels[|skels| - 1];
      assert skels == init + [last];
      PutAll(m, init, artist)[last.name := if artist then last.ToArtist() else last.ToPlaylist()]
  }

  /** The position of the last skeleton called n. */
  function LastNamed(skels: seq<CollectionSkeleton>, n: string): (k: nat)
    requires exists i | 0 <= i < |skels| :: skels[i].name == n
    ensures k < |skels| && skels[k].name == n && forall j | k < j < |skels| :: skels[j].name != n
  {
    if skels[|skels| - 1].name == n then |skels| - 1
    else
      var i :| 0 <= i < |skels| && skels[i].name == n;
      assert i < |skels| - 1 && skels[..|skels| - 1][i] == skels[i];
      LastNamed(skels[..|skels| - 1], n)
  }

  /** A name no skeleton carries keeps its collection. */
  lemma {:induction false} PutAllKeeps(m: Shelf, skels: seq<CollectionSkeleton>, artist: bool, n: string)
    requires n in m && forall i | 0 <= i < |skels| :: skels[i].name != n
    ensures var r := PutAll(m, skels, artist);
      n in r && r[n] == m[n]
  {
    if skels != [] {
      var init := skels[..|skels| - 1];
      assert forall i | 0 <= i < |init| :: init[i] == skels[i];
      PutAllKeeps(m, init, artist, n);
    }
  }

  /**
   * A name some skeleton carries holds an empty collection of the right kind
   * made from the last skeleton with that name, overwriting any collection
   * already there.
   */
  lemma {:induction false} PutAllPuts(m: Shelf, skels: seq<CollectionSkeleton>, artist: bool, n: string)
    requires exists i | 0 <= i < |skels| :: skels[i].name == n
    ensures var r := PutAll(m, skels, artist);
      && n in r && r[n].tracks == [] && r[n].Artist? == artist && r[n].name == n
      && (artist ==> r[n].albums == {}) && (!artist ==> r[n].artists == [])
      && r[n].ToSkeleton() == skels[LastNamed(skels, n)]
  {
    var init := skels[..|skels| - 1];
    var last := skels[|skels| - 1];
    if last.name != n {
      var i :| 0 <= i < |skels| && skels[i].name == n;
      assert init[i] == skels[i];
      PutAllPuts(m, init, artist, n);
    }
  }

  // ---------------------------------------------------------------- distributing the tracks

  /** `toTrack()` of every track skeleton. */
  function Decode(skels: seq<TrackSkeleton>): (ts: seq<Track>)
    ensures |ts| == |skels| && forall i | 0 <= i < |skels| :: ts[i] == skels[i].ToTrack()
  {
    seq(|skels|, i requires 0 <= i < |skels| => skels[i].ToTrack())
  }

  /** The ids of the objects made for the decoded tracks: start, start + 1, … */
  function FreshIds(start: nat, n: nat): (ids: seq<Id>)
    ensures |ids| == n && forall i | 0 <= i < n :: ids[i] == start + i
  {
    seq(n, i requires 0 <= i < n => start + i)
  }

  /** The decoded track values under their fresh ids. */
  function FreshTable(start: nat, ts: seq<Track>): (t: map<Id, Track>)
    ensures forall k | k in t :: start <= k < start + |ts|
  {
    if ts == [] then map[]
    else FreshTable(start, ts[..|ts| - 1])[start + |ts| - 1 := ts[|ts| - 1]]
  }

  /** One more decoded track: one more fresh id, and its entry added to the table. */
  lemma FreshStep(base: map<Id, Track>, start: nat, ts: seq<Track>, i: nat)
    requires i < |ts|
    ensures (base + FreshTable(start, ts[..i]))[start + i := ts[i]] == base + FreshTable(start, ts[..i + 1])
    ensures FreshIds(start, i) + [start + i] == FreshIds(start, i + 1)
  {
    assert ts[..i + 1][..i] == ts[..i];
  }

  lemma {:induction false} FreshTableAt(start: nat, ts: seq<Track>, i: nat)
    requires i < |ts|
    ensures start + i in FreshTable(start, ts) && FreshTable(start, ts)[start + i] == ts[i]
  {
    if i < |ts| - 1 {
      FreshTableAt(start, ts[..|ts| - 1], i);
    }
  }

  /** Which of a track's names the append-or-create rule is applied to. */
  datatype Rule = AlbumRule | PlaylistRule | ArtistRule

  /** The names of t a rule visits: its album if it has one, its playlists, or its artists. */
  function NamesOf(rule: Rule, t: Track): seq<string> {
    match rule
    case AlbumRule => if t.album.Some? then [t.album.value] else []
    case PlaylistRule => t.playlists
    case ArtistRule => t.artists
  }

  /** The map of the catalog a rule works on. */
  function Visited(c: Catalog, rule: Rule): Shelf {
    match rule
    case AlbumRule => c.albums
    case PlaylistRule => c.playlists
    case ArtistRule => c.artists
  }

  /** The map after the rule has run for each track of `ts`, ts[k] having id start + k. */
  function Spread(m: Shelf, start: nat, ts: seq<Track>, rule: Rule): Shelf {
    if ts == [] then m
    else
      AppendToEach(Spread(m, start, ts[..|ts| - 1], rule), NamesOf(rule, ts[|ts| - 1]), start + |ts| - 1, rule == ArtistRule)
  }

  /** One more decoded track: its names get the append-or-create rule under its id. */
  lemma SpreadStep(m: Shelf, start: nat, ts: seq<Track>, rule: Rule, i: nat)
    requires i < |ts|
    ensures Spread(m, start, ts[..i + 1], rule)
         == AppendToEach(Spread(m, start, ts[..i], rule), NamesOf(rule, ts[i]), start + i, rule == ArtistRule)
  {
    assert ts[..i + 1][..i] == ts[..i];
  }

  /** A collection already in the map keeps its other fields and has its old tracks as a prefix. */
  lemma {:induction false} SpreadKeeps(m: Shelf, start: nat, ts: seq<Track>, rule: Rule, n: string)
    requires n in m
    ensures var r := Spread(m, start, ts, rule);
      n in r && m[n].tracks <= r[n].tracks && SameButTracks(r[n], m[n])
  {
    if ts != [] {
      var prev := Spread(m, start, ts[..|ts| - 1], rule);
      var names := NamesOf(rule, ts[|ts| - 1]);
      var id: Id := start + |ts| - 1;
      var r := Spread(m, start, ts, rule);
      assert r == AppendToEach(prev, names, id, rule == ArtistRule);
      SpreadKeeps(m, start, ts[..|ts| - 1], rule, n);
      AppendToEachKeeps(prev, names, id, rule == ArtistRule, n);
      PrefixTrans(m[n].tracks, prev[n].tracks, r[n].tracks);
    }
  }

  /** The last track is in the collection of every name the rule visits on it. */
  lemma SpreadLast(m: Shelf, start: nat, ts: seq<Track>, rule: Rule, n: string)
    requires ts != [] && n in NamesOf(rule, ts[|ts| - 1])
    ensures var r := Spread(m, start, ts, rule);
      n in r && start + |ts| - 1 in r[n].tracks
  {
    var prev := Spread(m, start, ts[..|ts| - 1], rule);
    var names := NamesOf(rule, ts[|ts| - 1]);
    var id: Id := start + |ts| - 1;
    assert Spread(m, start, ts, rule) == AppendToEach(prev, names, id, rule == ArtistRule);
    AppendToEachHolds(prev, names, id, rule == ArtistRule, n);
  }

  /** One more track only appends to the collections already there. */
  lemma SpreadGrows(m: Shelf, start: nat, ts: seq<Track>, rule: Rule, n: string)
    requires ts != [] && n in Spread(m, start, ts[..|ts| - 1], rule)
    ensures var prev := Spread(m, start, ts[..|ts| - 1], rule); var r := Spread(m, start, ts, rule);
      n in r && prev[n].tracks <= r[n].tracks
  {
    var prev := Spread(m, start, ts[..|ts| - 1], rule);
    var names := NamesOf(rule, ts[|ts| - 1]);
    var id: Id := start + |ts| - 1;
    assert Spread(m, start, ts, rule) == AppendToEach(prev, names, id, rule == ArtistRule);
    AppendToEachKeeps(prev, names, id, rule == ArtistRule, n);
  }

  /** Track k is in the collection of every name the rule visits on it. */
  lemma {:induction false} SpreadHolds(m: Shelf, start: nat, ts: seq<Track>, rule: Rule, k: nat, n: string)
    requires k < |ts| && n in NamesOf(rule, ts[k])
    ensures var r := Spread(m, start, ts, rule);
      n in r && start + k in r[n].tracks
  {
    if k < |ts| - 1 {
      var init := ts[..|ts| - 1];
      assert init[k] == ts[k];
      SpreadHolds(m, start, init, rule, k, n);
      SpreadGrows(m, start, ts, rule, n);
      PrefixMember(Spread(m, start, init, rule)[n].tracks, Spread(m, start, ts, rule)[n].tracks, start + k);
    } else {
      SpreadLast(m, start, ts, rule, n);
    }
  }

  /** A collection the rule created is of the rule's kind, under its own name, with no counts or albums yet. */
  lemma {:induction false} SpreadCreates(m: Shelf, start: nat, ts: seq<Track>, rule: Rule, n: string)
    requires n !in m && n in Spread(m, start, ts, rule)
    ensures var r := Spread(m, start, ts, rule);
      && r[n].name == n && r[n].Artist? == (rule == ArtistRule)
      && (rule == ArtistRule ==> r[n].albums == {}) && (rule != ArtistRule ==> r[n].artists == [])
  {
    var prev := Spread(m, start, ts[..|ts| - 1], rule);
    var names := NamesOf(rule, ts[|ts| - 1]);
    var id: Id := start + |ts| - 1;
    assert Spread(m, start, ts, rule) == AppendToEach(prev, names, id, rule == ArtistRule);
    if n in prev {
      SpreadCreates(m, start, ts[..|ts| - 1], rule, n);
      AppendToEachKeeps(prev, names, id, rule == ArtistRule, n);
    } else {
      AppendToEachKeys(prev, names, id, rule == ArtistRule);
      AppendToEachCreates(prev, names, id, rule == ArtistRule, n);
    }
  }

  /** The catalog once the skeleton collections are in place and every decoded track is distributed. */
  function Distributed(c: Catalog, data: JsonContainer): Catalog {
    var ts := Decode(data.tracks);
    Catalog(c.tracks + FreshIds(c.nextId, |ts|),
            c.table + FreshTable(c.nextId, ts),
            Spread(PutAll(c.playlists, data.playlists, false), c.nextId, ts, PlaylistRule),
            Spread(PutAll(c.artists, data.artists, true), c.nextId, ts, ArtistRule),
            Spread(PutAll(c.albums, data.albums, false), c.nextId, ts, AlbumRule),
            c.nextId + |ts|)
  }

  // ---------------------------------------------------------------- derived data

  /** `sortArtists()` completes on p: it is a playlist, every credited artist is
      in the artist map (the `!!`), and the counts end up non-empty (`first[0]`). */
  predicate Sortable(p: Collection, table: map<Id, Track>, known: set<string>) {
    && p.Playlist?
    && (forall a | a in ArtistNames(p.tracks, table) :: a in known)
    && Tally(p.artists, ArtistNames(p.tracks, table)) != []
  }

  /** Every playlist and album of the catalog is sortable. */
  predicate Arrangeable(c: Catalog) {
    && (forall n | n in c.playlists :: Sortable(c.playlists[n], c.table, c.artists.Keys))
    && (forall n | n in c.albums :: Sortable(c.albums[n], c.table, c.artists.Keys))
  }

  /** `sortArtists()` on every collection of the map. */
  function SortAll(m: Shelf, table: map<Id, Track>, known: set<string>): (r: Shelf)
    requires forall n | n in m :: Sortable(m[n], table, known)
    ensures r.Keys == m.Keys
  {
    map n | n in m :: assert Sortable(m[n], table, known); Sorted(m[n], table)
  }

  /** The names of the albums that credit artist a. */
  function AlbumsCrediting(albums: Shelf, a: string): set<string> {
    set n | n in albums && albums[n].Playlist? && a in Keys(albums[n].artists) :: albums[n].name
  }

  /** `addToArtists()` for every album of the map. */
  function RegisterAll(artists: Shelf, albums: Shelf): (r: Shelf)
    ensures r.Keys == artists.Keys
  {
    map a | a in artists ::
      if artists[a].Artist? then artists[a].(albums := artists[a].albums + AlbumsCrediting(albums, a)) else artists[a]
  }

  /** The last loops of `arrangeTracks`: every playlist sorted, every album sorted and registered. */
  function Derived(d: Catalog): Catalog
    requires Arrangeable(d)
  {
    var albums := SortAll(d.albums, d.table, d.artists.Keys);
    d.(playlists := SortAll(d.playlists, d.table, d.artists.Keys), albums := albums,
       artists := RegisterAll(d.artists, albums))
  }

  /** `arrangeTracks(data)`. */
  function Arranged(c: Catalog, data: JsonContainer): Catalog
    requires Arrangeable(Distributed(c, data))
  {
    Cleaned(Derived(Distributed(c, data)))
  }

  lemma AlbumsCreditingUpdate(albums: Shelf, n: string, q: Collection, a: string)
    requires n !in albums
    ensures AlbumsCrediting(albums[n := q], a)
         == AlbumsCrediting(albums, a) + (if q.Playlist? && a in Keys(q.artists) then {q.name} else {})
  {
    var lhs := AlbumsCrediting(albums[n := q], a);
    var rhs := AlbumsCrediting(albums, a) + (if q.Playlist? && a in Keys(q.artists) then {q.name} else {});
    forall x | x in lhs ensures x in rhs {
      var k :| k in albums[n := q] && albums[n := q][k].Playlist? && a in Keys(albums[n := q][k].artists)
               && albums[n := q][k].name == x;
      if k != n {
        assert k in albums && albums[k] == albums[n := q][k];
      }
    }
    forall x | x in rhs ensures x in lhs {
      if x in AlbumsCrediting(albums, a) {
        var k :| k in albums && albums[k].Playlist? && a in Keys(albums[k].artists) && albums[k].name == x;
        assert albums[n := q][k] == albums[k];
      } else {
        assert albums[n := q][n] == q;
      }
    }
  }

  /** Registering no album changes no artist. */
  lemma RegisterNone(artists: Shelf)
    ensures RegisterAll(artists, map[]) == artists
  {
    forall a | a in artists ensures RegisterAll(artists, map[])[a] == artists[a] {
      assert AlbumsCrediting(map[], a) == {};
    }
  }

  /** Registering one more album (not yet registered) is `addToArtists()` on it. */
  lemma RegisterAllStep(artists: Shelf, albums: Shelf, n: string, q: Collection)
    requires n !in albums && q.Playlist?
    ensures RegisterAll(artists, albums[n := q]) == Registered(RegisterAll(artists, albums), q)
  {
    var lhs := RegisterAll(artists, albums[n := q]);
    var rhs := Registered(RegisterAll(artists, albums), q);
    assert lhs.Keys == rhs.Keys == artists.Keys;
    forall a | a in artists ensures lhs[a] == rhs[a] {
      RegisterAllStepAt(artists, albums, n, q, a);
    }
  }

  lemma RegisterAllStepAt(artists: Shelf, albums: Shelf, n: string, q: Collection, a: string)
    requires n !in albums && q.Playlist? && a in artists
    ensures RegisterAll(artists, albums[n := q])[a] == Registered(RegisterAll(artists, albums), q)[a]
  {
    var x := artists[a];
    var before := AlbumsCrediting(albums, a);
    var r := RegisterAll(artists, albums);
    AlbumsCreditingUpdate(albums, n, q, a);
    if x.Artist? {
      assert r[a] == x.(albums := x.albums + before);
      if a in Keys(q.artists) {
        assert RegisterAll(artists, albums[n := q])[a] == x.(albums := x.albums + (before + {q.name}));
        assert Registered(r, q)[a] == x.(albums := x.albums + before).(albums := x.albums + before + {q.name});
        RealbumTwice(x, x.albums + before, x.albums + before + {q.name});
      } else {
        assert RegisterAll(artists, albums[n := q])[a] == x.(albums := x.albums + before);
      }
    }
  }

  // ---------------------------------------------------------------- properties

  lemma {:induction false} PutAllKinded(m: Shelf, skels: seq<CollectionSkeleton>, artist: bool)
    requires Kinded(m, artist)
    ensures Kinded(PutAll(m, skels, artist), artist)
  {
    if skels != [] {
      PutAllKinded(m, skels[..|skels| - 1], artist);
    }
  }

  lemma SpreadKinded(m: Shelf, start: nat, ts: seq<Track>, rule: Rule)
    requires Kinded(m, rule == ArtistRule)
    ensures Kinded(Spread(m, start, ts, rule), rule == ArtistRule)
  {
    var r := Spread(m, start, ts, rule);
    forall n | n in r ensures r[n].Artist? == (rule == ArtistRule) && r[n].name == n {
      if n in m {
        SpreadKeeps(m, start, ts, rule, n);
      } else {
        SpreadCreates(m, start, ts, rule, n);
      }
    }
  }

  /** Distributing a snapshot keeps the catalog well formed. */
  lemma DistributedValid(c: Catalog, data: JsonContainer)
    requires c.Valid()
    ensures Distributed(c, data).Valid()
  {
    var ts := Decode(data.tracks);
    PutAllKinded(c.playlists, data.playlists, false);
    PutAllKinded(c.artists, data.artists, true);
    PutAllKinded(c.albums, data.albums, false);
    SpreadKinded(PutAll(c.playlists, data.playlists, false), c.nextId, ts, PlaylistRule);
    SpreadKinded(PutAll(c.artists, data.artists, true), c.nextId, ts, ArtistRule);
    SpreadKinded(PutAll(c.albums, data.albums, false), c.nextId, ts, AlbumRule);
    DistributedTracksValid(c, data);
  }

  /** The new objects are allocated below the new `nextId` and listed in the table. */
  lemma DistributedTracksValid(c: Catalog, data: JsonContainer)
    requires c.Valid()
    ensures var e := Distributed(c, data);
      && (forall id | id in e.table :: id < e.nextId)
      && (forall i | 0 <= i < |e.tracks| :: e.tracks[i] in e.table)
  {
    FreshListed(c.tracks, c.table, c.nextId, Decode(data.tracks));
  }

  /** Appending fresh ids for ts to a list whose ids are all in the table keeps them all in the extended table. */
  lemma FreshListed(tracks: seq<Id>, table: map<Id, Track>, start: nat, ts: seq<Track>)
    requires forall i | 0 <= i < |tracks| :: tracks[i] in table
    requires forall id | id in table :: id < start
    ensures var l := tracks + FreshIds(start, |ts|); var t := table + FreshTable(start, ts);
      && (forall id | id in t :: id < start + |ts|)
      && (forall i | 0 <= i < |l| :: l[i] in t)
  {
    var l := tracks + FreshIds(start, |ts|);
    forall i | |tracks| <= i < |l| ensures l[i] in table + FreshTable(start, ts) {
      FreshTableAt(start, ts, i - |tracks|);
    }
  }

  /** The derived data keeps the catalog well formed and changes no track list. */
  lemma DerivedValid(e: Catalog)
    requires e.Valid() && Arrangeable(e)
    ensures var f := Derived(e);
      && f.Valid() && f.tracks == e.tracks && f.table == e.table && f.nextId == e.nextId
      && f.playlists.Keys == e.playlists.Keys && f.albums.Keys == e.albums.Keys && f.artists.Keys == e.artists.Keys
      && (forall n | n in f.playlists :: f.playlists[n].tracks == e.playlists[n].tracks)
      && (forall n | n in f.albums :: f.albums[n].tracks == e.albums[n].tracks)
      && (forall n | n in f.artists :: f.artists[n].tracks == e.artists[n].tracks)
  {
  }

  /**
   * `arrangeTracks(data)` on the master list and the table: the list becomes
   * the old list followed by one fresh object per track skeleton, in snapshot
   * order (nothing is cleared); old objects keep their values; the catalog
   * stays well formed and no map holds an empty collection.
   */
  lemma ArrangedTracks(c: Catalog, data: JsonContainer)
    requires c.Valid() && Arrangeable(Distributed(c, data))
    ensures var d := Arranged(c, data);
      && d.Valid() && NoEmpty(d)
      && d.tracks == c.tracks + FreshIds(c.nextId, |data.tracks|)
      && d.nextId == c.nextId + |data.tracks|
      && (forall id | id in c.table :: id in d.table && d.table[id] == c.table[id])
  {
    var e := Distributed(c, data);
    DistributedValid(c, data);
    DerivedValid(e);
    CleanedSpec(Derived(e));
  }

  /** The object made for the i-th track skeleton holds `toTrack()` of it. */
  lemma ArrangedTrack(c: Catalog, data: JsonContainer, i: nat)
    requires c.Valid() && Arrangeable(Distributed(c, data)) && i < |data.tracks|
    ensures var d := Arranged(c, data);
      c.nextId + i in d.table && d.table[c.nextId + i] == data.tracks[i].ToTrack()
  {
    FreshTableAt(c.nextId, Decode(data.tracks), i);
  }

  /** The object made for the i-th track is in the distributed collection of each name its track visits. */
  lemma DistributedHolds(c: Catalog, data: JsonContainer, i: nat, n: string, rule: Rule)
    requires i < |data.tracks| && n in NamesOf(rule, data.tracks[i].ToTrack())
    ensures var e := Distributed(c, data); var m := Visited(e, rule);
      n in m && c.nextId + i in m[n].tracks
  {
    var e := Distributed(c, data);
    var ts := Decode(data.tracks);
    assert ts[i] == data.tracks[i].ToTrack();
    var before := match rule
      case AlbumRule => PutAll(c.albums, data.albums, false)
      case PlaylistRule => PutAll(c.playlists, data.playlists, false)
      case ArtistRule => PutAll(c.artists, data.artists, true);
    assert Visited(e, rule) == Spread(before, c.nextId, ts, rule);
    SpreadHolds(before, c.nextId, ts, rule, i, n);
  }

  /** A track in a distributed collection is still there after the derived data and the pruning. */
  lemma FinishKeeps(e: Catalog, n: string, id: Id)
    requires Arrangeable(e)
    ensures var d := Cleaned(Derived(e));
      && (n in e.albums && id in e.albums[n].tracks ==> n in d.albums && id in d.albums[n].tracks)
      && (n in e.playlists && id in e.playlists[n].tracks ==> n in d.playlists && id in d.playlists[n].tracks)
      && (n in e.artists && id in e.artists[n].tracks ==> n in d.artists && id in d.artists[n].tracks)
  {
  }

  /**
   * `arrangeTracks(data)` on membership: the object made for the i-th track
   * skeleton is in its album's collection, in the collection of each of its
   * playlists and in the collection of each of its artists.
   */
  lemma ArrangedMembership(c: Catalog, data: JsonContainer, i: nat, n: string)
    requires c.Valid() && Arrangeable(Distributed(c, data)) && i < |data.tracks|
    ensures var d := Arranged(c, data); var t := data.tracks[i].ToTrack(); var id := c.nextId + i;
      && (t.album == Some(n) ==> n in d.albums && id in d.albums[n].tracks)
      && (n in t.playlists ==> n in d.playlists && id in d.playlists[n].tracks)
      && (n in t.artists ==> n in d.artists && id in d.artists[n].tracks)
  {
    var t := data.tracks[i].ToTrack();
    if t.album == Some(n) { DistributedHolds(c, data, i, n, AlbumRule); }
    if n in t.playlists { DistributedHolds(c, data, i, n, PlaylistRule); }
    if n in t.artists { DistributedHolds(c, data, i, n, ArtistRule); }
    FinishKeeps(Distributed(c, data), n, c.nextId + i);
  }

  /**
   * `arrangeTracks(data)` on derived data, e being the distributed catalog:
   * every remaining playlist and album is the distributed one after
   * `sortArtists()`, so it has a primary artist, and each remaining artist
   * credited by a remaining album lists that album.
   */
  lemma ArrangedDerived(e: Catalog, n: string, a: string)
    requires e.Valid() && Arrangeable(e)
    ensures var d := Cleaned(Derived(e));
      && (n in d.playlists ==> n in e.playlists && d.playlists[n] == Sorted(e.playlists[n], e.table)
                               && d.playlists[n].primaryArtist.Some?)
      && (n in d.albums ==> n in e.albums && d.albums[n] == Sorted(e.albums[n], e.table)
                            && d.albums[n].primaryArtist.Some?)
      && (n in d.albums && a in d.artists && a in Keys(d.albums[n].artists) ==> n in d.artists[a].albums)
  {
    var d := Cleaned(Derived(e));
    if n in d.albums && a in d.artists && a in Keys(d.albums[n].artists) {
      var albums := SortAll(e.albums, e.table, e.artists.Keys);
      assert albums[n] == d.albums[n] && albums[n].name == n;
      assert n in AlbumsCrediting(albums, a);
    }
  }

  /** The skeleton collections of a snapshot that go into the map a rule works on. */
  function SkeletonsFor(data: JsonContainer, rule: Rule): seq<CollectionSkeleton> {
    match rule
    case AlbumRule => data.albums
    case PlaylistRule => data.playlists
    case ArtistRule => data.artists
  }

  /** The derived data and the pruning keep the saved fields of every remaining collection. */
  lemma FinishSkeletons(e: Catalog, n: string, rule: Rule)
    requires Arrangeable(e)
    ensures var d := Cleaned(Derived(e));
      n in Visited(d, rule) ==> n in Visited(e, rule) && Visited(d, rule)[n].ToSkeleton() == Visited(e, rule)[n].ToSkeleton()
  {
  }

  /**
   * A skeleton collection that survives keeps the saved fields of the last
   * skeleton with its name, whatever collection had that name before.
   */
  lemma ArrangedSkeletons(c: Catalog, data: JsonContainer, n: string, rule: Rule)
    requires c.Valid() && Arrangeable(Distributed(c, data))
    ensures var d := Arranged(c, data); var skels := SkeletonsFor(data, rule);
      (exists i | 0 <= i < |skels| :: skels[i].name == n) && n in Visited(d, rule) ==>
        Visited(d, rule)[n].ToSkeleton() == skels[LastNamed(skels, n)]
  {
    var e := Distributed(c, data);
    var skels := SkeletonsFor(data, rule);
    var before := PutAll(Visited(c, rule), skels, rule == ArtistRule);
    assert Visited(e, rule) == Spread(before, c.nextId, Decode(data.tracks), rule);
    FinishSkeletons(e, n, rule);
    if exists i | 0 <= i < |skels| :: skels[i].name == n {
      PutAllPuts(Visited(c, rule), skels, rule == ArtistRule, n);
      SpreadKeeps(before, c.nextId, Decode(data.tracks), rule, n);
    }
  }

  /** A collection that no track of ts names is left as it was. */
  lemma {:induction false} SpreadUnnamed(m: Shelf, start: nat, ts: seq<Track>, rule: Rule, n: string)
    requires n in m && forall k | 0 <= k < |ts| :: n !in NamesOf(rule, ts[k])
    ensures var r := Spread(m, start, ts, rule); n in r && r[n] == m[n]
  {
    if ts != [] {
      var init := ts[..|ts| - 1];
      forall k | 0 <= k < |init| ensures n !in NamesOf(rule, init[k]) {
        assert init[k] == ts[k];
      }
      SpreadUnnamed(m, start, init, rule, n);
      AppendToEachKeeps(Spread(m, start, init, rule), NamesOf(rule, ts[|ts| - 1]), start + |ts| - 1, rule == ArtistRule, n);
    }
  }

  /**
   * `arrangeTracks` sorts every playlist before it prunes the empty ones, so
   * a playlist skeleton that no track of the snapshot names is put with no
   * tracks and no counts, `sortArtists()` throws at `first[0]`, and the
   * arrangement does not complete, whatever the catalog held before.
   */
  lemma UnnamedPlaylistBlocks(c: Catalog, data: JsonContainer, n: string)
    requires exists i | 0 <= i < |data.playlists| :: data.playlists[i].name == n
    requires forall k | 0 <= k < |data.tracks| :: n !in data.tracks[k].playlists
    ensures !Arrangeable(Distributed(c, data))
  {
    var ts := Decode(data.tracks);
    var before := PutAll(c.playlists, data.playlists, false);
    PutAllPuts(c.playlists, data.playlists, false, n);
    SpreadUnnamed(before, c.nextId, ts, PlaylistRule, n);
    var e := Distributed(c, data);
    assert e.playlists[n] == before[n];
    assert ArtistNames(e.playlists[n].tracks, e.table) == [];
  }

  /**
   * A collection emptied after it was sorted keeps its counts, so sorting it
   * again completes: only a collection put afresh from a skeleton lacks them.
   */
  lemma EmptiedStillSortable(p: Collection, table: map<Id, Track>, known: set<string>)
    requires p.Playlist? && p.tracks == [] && p.artists != []
    ensures Sortable(p, table, known)
  {
  }

  /** The same for an album skeleton that no track of the snapshot names as its album. */
  lemma UnnamedAlbumBlocks(c: Catalog, data: JsonContainer, n: string)
    requires exists i | 0 <= i < |data.albums| :: data.albums[i].name == n
    requires forall k | 0 <= k < |data.tracks| :: data.tracks[k].album != Some(n)
    ensures !Arrangeable(Distributed(c, data))
  {
    var ts := Decode(data.tracks);
    var before := PutAll(c.albums, data.albums, false);
    PutAllPuts(c.albums, data.albums, false, n);
    SpreadUnnamed(before, c.nextId, ts, AlbumRule, n);
    var e := Distributed(c, data);
    assert e.albums[n] == before[n];
    assert ArtistNames(e.albums[n].tracks, e.table) == [];
  }

  /**
   * The master list is never cleared: arranging a snapshot one of whose
   * tracks the catalog already lists (as it does after the same snapshot was
   * arranged once) leaves two distinct objects with equal values in the list.
   */
  lemma ArrangedDuplicates(c: Catalog, data: JsonContainer, i: nat, j: nat)
    requires c.Valid() && Arrangeable(Distributed(c, data)) && i < |data.tracks| && j < |c.tracks|
    requires c.table[c.tracks[j]] == data.tracks[i].ToTrack()
    ensures var d := Arranged(c, data); var old_ := c.tracks[j]; var new_ := c.nextId + i;
      && old_ != new_ && old_ in d.tracks && new_ in d.tracks
      && old_ in d.table && new_ in d.table && d.table[old_] == d.table[new_]
  {
    ArrangedTracks(c, data);
    ArrangedTrack(c, data, i);
    var d := Arranged(c, data);
    assert d.tracks[j] == c.tracks[j];
    assert d.tracks[|c.tracks| + i] == c.nextId + i;
  }
}
