/**
 * The state of `MusicRepo` (utils/Repositories.kt) as a value: the master
 * track list, the current value of every track object, and the three
 * name-keyed collection maps. Track objects are ids into `table`; a fresh
 * object gets the id `nextId`, which stands for allocation.
 */
module Store {
  import opened Wrappers
  import opened Lists
  import opened Entities
  import opened Collections

  /** A name-keyed collection map: `playlists`, `artists` or `albums`. */
  type Shelf = map<string, Collection>

  datatype Catalog = Catalog(tracks: seq<Id>, table: map<Id, Track>,
                             playlists: Shelf, artists: Shelf, albums: Shelf, nextId: nat)
  {
    /** Every allocated id is below `nextId`, the master list holds allocated
        tracks, and each map holds collections of its own kind under their own names.
        The ids of a collection's list are not required to be in the table:
        every reading of a collection id either tests membership first (`Eq`,
        `ArtistNames`, `Accumulated`) or asks for it in its own precondition
        (`SumDuration`), so no property of the model depends on it. */
    predicate Valid() {
      && (forall id | id in table :: id < nextId)
      && (forall i | 0 <= i < |tracks| :: tracks[i] in table)
      && Kinded(playlists, false) && Kinded(albums, false) && Kinded(artists, true)
    }
  }

  /** Each collection of the map is an artist (or a playlist) and is stored under its own name. */
  predicate Kinded(m: Shelf, artist: bool) {
    forall n | n in m :: m[n].Artist? == artist && m[n].name == n
  }

  // ---------------------------------------------------------------- removal

  /** `shelf[name]?.tracks?.remove(v)`: nothing happens when the name has no collection. */
  function RemoveFrom(m: Shelf, name: string, table: map<Id, Track>, v: Track): (r: Shelf)
    ensures r.Keys == m.Keys && forall k | k in r :: SameButTracks(r[k], m[k])
  {
    if name in m then m[name := m[name].(tracks := RemoveFirstEq(m[name].tracks, table, v))] else m
  }

  /** `remove(v)` from the collection of each name, in order. */
  function RemoveFromEach(m: Shelf, names: seq<string>, table: map<Id, Track>, v: Track): (r: Shelf)
    ensures r.Keys == m.Keys && forall k | k in r :: SameButTracks(r[k], m[k])
  {
    if names == [] then m
    else RemoveFrom(RemoveFromEach(m, names[..|names| - 1], table, v), names[|names| - 1], table, v)
  }

  /** One more name: the removal from its collection follows the earlier ones. */
  lemma RemoveFromEachStep(m: Shelf, names: seq<string>, table: map<Id, Track>, v: Track, i: nat)
    requires i < |names|
    ensures RemoveFromEach(m, names[..i + 1], table, v) == RemoveFrom(RemoveFromEach(m, names[..i], table, v), names[i], table, v)
  {
    assert names[..i + 1][..i] == names[..i];
  }

  /** `if (album != null) albums[album]?.tracks?.remove(v)`. */
  function RemoveFromAlbum(m: Shelf, album: Option<string>, table: map<Id, Track>, v: Track): (r: Shelf)
    ensures r.Keys == m.Keys && forall k | k in r :: SameButTracks(r[k], m[k])
  {
    if album.Some? then RemoveFrom(m, album.value, table, v) else m
  }

  /**
   * Takes the track value v out of the master list and out of every
   * collection it names: the removals of `Track.delete()` and of the second
   * loop of `cleanInvalidPaths()`. The four lists are disjoint, so the order
   * in which the two sources visit them does not matter.
   */
  function Detach(c: Catalog, v: Track): Catalog {
    c.(artists := RemoveFromEach(c.artists, v.artists, c.table, v),
       playlists := RemoveFromEach(c.playlists, v.playlists, c.table, v),
       albums := RemoveFromAlbum(c.albums, v.album, c.table, v),
       tracks := RemoveFirstEq(c.tracks, c.table, v))
  }

  /** `Track.delete()` on object id: detach its value, then `close()` it. */
  function Deleted(c: Catalog, id: Id): Catalog
    requires id in c.table
  {
    Detach(c, c.table[id]).(table := c.table[id := c.table[id].(file := None)])
  }

  /** Removing from each named collection in turn removes, from the collection
      called n, as many equal elements as n occurs among the names. */
  lemma {:induction false} RemoveFromEachAt(m: Shelf, names: seq<string>, table: map<Id, Track>, v: Track, n: string)
    requires n in m
    ensures RemoveFromEach(m, names, table, v)[n]
         == m[n].(tracks := RemoveN(m[n].tracks, table, v, Occurrences(names, n)))
  {
    if names != [] {
      RemoveFromEachAt(m, names[..|names| - 1], table, v, n);
      RemoveFromEachAtStep(m, names, table, v, n);
    }
  }

  lemma RemoveFromEachAtStep(m: Shelf, names: seq<string>, table: map<Id, Track>, v: Track, n: string)
    requires n in m && names != []
    requires RemoveFromEach(m, names[..|names| - 1], table, v)[n]
          == m[n].(tracks := RemoveN(m[n].tracks, table, v, Occurrences(names[..|names| - 1], n)))
    ensures RemoveFromEach(m, names, table, v)[n]
         == m[n].(tracks := RemoveN(m[n].tracks, table, v, Occurrences(names, n)))
  {
    var init := names[..|names| - 1];
    var last := names[|names| - 1];
    var prev := RemoveFromEach(m, init, table, v);
    OccurrencesLast(names, n);
    if last == n {
      var k := Occurrences(init, n);
      var q := m[n];
      calc {
        RemoveFromEach(m, names, table, v)[n];
        prev[n].(tracks := RemoveFirstEq(prev[n].tracks, table, v));
        q.(tracks := RemoveN(q.tracks, table, v, k)).(tracks := RemoveFirstEq(RemoveN(q.tracks, table, v, k), table, v));
        { RemoveNLast(q.tracks, table, v, k); }
        q.(tracks := RemoveN(q.tracks, table, v, k)).(tracks := RemoveN(q.tracks, table, v, k + 1));
        { RetrackTwice(q, RemoveN(q.tracks, table, v, k), RemoveN(q.tracks, table, v, k + 1)); }
        q.(tracks := RemoveN(q.tracks, table, v, k + 1));
      }
      assert Occurrences(names, n) == k + 1;
    } else {
      assert RemoveFromEach(m, names, table, v)[n] == prev[n];
      assert Occurrences(names, n) == Occurrences(init, n);
    }
  }

  lemma RemoveFromAlbumAt(m: Shelf, album: Option<string>, table: map<Id, Track>, v: Track, n: string)
    requires n in m
    ensures RemoveFromAlbum(m, album, table, v)[n]
         == if album == Some(n) then m[n].(tracks := RemoveFirstEq(m[n].tracks, table, v)) else m[n]
  {
  }

  /**
   * `Track.delete()`: the first element equal to the track goes from the
   * master list and nothing else does; each artist and playlist collection loses one equal element per
   * time the track names it, and its album one; no collection leaves any map
   * and no other field of any collection changes; only the deleted object's
   * file handle changes in the table.
   */
  lemma DeletedSpec(c: Catalog, id: Id, w: Track, n: string)
    requires id in c.table
    ensures var d := Deleted(c, id); var v := c.table[id];
      && (c.Valid() ==> d.Valid())
      && d.nextId == c.nextId
      && d.table == c.table[id := v.(file := None)]
      && Count(d.tracks, c.table, w) == Count(c.tracks, c.table, w) - (if v == w && Count(c.tracks, c.table, v) > 0 then 1 else 0)
      && Subseq(d.tracks, c.tracks)
      && d.tracks == DropFirstOf(c.tracks, c.table, {v})
      && d.artists.Keys == c.artists.Keys && d.playlists.Keys == c.playlists.Keys && d.albums.Keys == c.albums.Keys
      && (n in c.artists ==> d.artists[n] == c.artists[n].(tracks := RemoveN(c.artists[n].tracks, c.table, v, Occurrences(v.artists, n))))
      && (n in c.playlists ==> d.playlists[n] == c.playlists[n].(tracks := RemoveN(c.playlists[n].tracks, c.table, v, Occurrences(v.playlists, n))))
      && (n in c.albums ==> d.albums[n] == if v.album == Some(n) then c.albums[n].(tracks := RemoveFirstEq(c.albums[n].tracks, c.table, v)) else c.albums[n])
  {
    var d := Deleted(c, id);
    var v := c.table[id];
    RemoveFirstEqCount(c.tracks, c.table, v, w);
    RemoveFirstEqSubseq(c.tracks, c.table, v);
    DropFirstOfNone(c.tracks, c.table);
    RemoveFirstEqDropFirstOf(c.tracks, c.table, {}, v);
    assert {} + {v} == {v};
    if n in c.artists { RemoveFromEachAt(c.artists, v.artists, c.table, v, n); }
    if n in c.playlists { RemoveFromEachAt(c.playlists, v.playlists, c.table, v, n); }
    if n in c.albums { RemoveFromAlbumAt(c.albums, v.album, c.table, v, n); }
    if c.Valid() { DetachValid(c, v); }
  }

  lemma DetachValid(c: Catalog, v: Track)
    requires c.Valid()
    ensures Detach(c, v).Valid()
  {
    var d := Detach(c, v);
    RemoveFirstEqSubseq(c.tracks, c.table, v);
    forall i | 0 <= i < |d.tracks| ensures d.tracks[i] in d.table {
      SubseqMember(d.tracks, c.tracks, i);
    }
  }

  // ---------------------------------------------------------------- pruning

  /** The map without its collections that have no tracks. */
  function Prune(m: Shelf): Shelf {
    map n | n in m && m[n].tracks != [] :: m[n]
  }

  /** `cleanEmptyCollections()` on the whole catalog. */
  function Cleaned(c: Catalog): Catalog {
    c.(playlists := Prune(c.playlists), artists := Prune(c.artists), albums := Prune(c.albums))
  }

  /** Pruning removes exactly the empty collections, keeps the others as they are, and is idempotent. */
  lemma PruneSpec(m: Shelf, n: string)
    ensures n in Prune(m) <==> n in m && m[n].tracks != []
    ensures n in Prune(m) ==> Prune(m)[n] == m[n]
    ensures Prune(Prune(m)) == Prune(m)
    ensures Prune(m) == m <==> forall k | k in m :: m[k].tracks != []
  {
    if Prune(m) == m {
      forall k | k in m ensures m[k].tracks != [] {
        assert k in Prune(m);
      }
    }
  }

  /** Setting a non-empty collection commutes with pruning. */
  lemma PruneSet(m: Shelf, n: string, q: Collection)
    requires q.tracks != []
    ensures Prune(m[n := q]) == Prune(m)[n := q]
  {
  }

  lemma PruneKinded(m: Shelf, artist: bool)
    requires Kinded(m, artist)
    ensures Kinded(Prune(m), artist)
  {
  }

  /** After `cleanEmptyCollections()` no map holds an empty collection; a second call changes nothing. */
  lemma CleanedSpec(c: Catalog)
    ensures var d := Cleaned(c);
      && NoEmpty(d)
      && Cleaned(d) == d
      && d.tracks == c.tracks && d.table == c.table && d.nextId == c.nextId
      && (c.Valid() ==> d.Valid())
  {
    var d := Cleaned(c);
    assert Prune(d.playlists) == d.playlists;
    assert Prune(d.artists) == d.artists;
    assert Prune(d.albums) == d.albums;
  }

  /** No collection in any of the three maps is empty. */
  predicate NoEmpty(c: Catalog) {
    && (forall n | n in c.playlists :: c.playlists[n].tracks != [])
    && (forall n | n in c.artists :: c.artists[n].tracks != [])
    && (forall n | n in c.albums :: c.albums[n].tracks != [])
  }

  // ---------------------------------------------------------------- appending

  /** `if (name in m) m[name]?.tracks?.add(id) else m.put(name, …(mutableListOf(id), name))`. */
  function AppendTo(m: Shelf, name: string, id: Id, artist: bool): (r: Shelf)
    ensures r.Keys == m.Keys + {name}
  {
    if name in m then m[name := m[name].(tracks := m[name].tracks + [id])]
    else m[name := if artist then NewArtist(id, name) else NewPlaylist(id, name)]
  }

  /** The append-or-create rule for each name in turn. */
  function AppendToEach(m: Shelf, names: seq<string>, id: Id, artist: bool): (r: Shelf)
    ensures m.Keys <= r.Keys
  {
    if names == [] then m
    else AppendTo(AppendToEach(m, names[..|names| - 1], id, artist), names[|names| - 1], id, artist)
  }

  /** One more name: the append-or-create rule for it follows the earlier ones. */
  lemma AppendToEachStep(m: Shelf, names: seq<string>, id: Id, artist: bool, i: nat)
    requires i < |names|
    ensures AppendToEach(m, names[..i + 1], id, artist) == AppendTo(AppendToEach(m, names[..i], id, artist), names[i], id, artist)
  {
    assert names[..i + 1][..i] == names[..i];
  }

  /** Appending id under each name: every named collection ends up holding id. */
  lemma {:induction false} AppendToEachHolds(m: Shelf, names: seq<string>, id: Id, artist: bool, n: string)
    requires n in names
    ensures var r := AppendToEach(m, names, id, artist);
      n in r && id in r[n].tracks
  {
    var init := names[..|names| - 1];
    var last := names[|names| - 1];
    assert names == init + [last];
    if last != n {
      AppendToEachHolds(m, init, id, artist, n);
    }
  }

  /** An existing collection keeps its tracks as a prefix and all its other
      fields; one whose name is not among the names is untouched. */
  lemma {:induction false} AppendToEachKeeps(m: Shelf, names: seq<string>, id: Id, artist: bool, n: string)
    requires n in m
    ensures var r := AppendToEach(m, names, id, artist);
      && m[n].tracks <= r[n].tracks && SameButTracks(r[n], m[n])
      && (n !in names ==> r[n] == m[n])
  {
    if names != [] {
      var init := names[..|names| - 1];
      var last := names[|names| - 1];
      assert names == init + [last];
      AppendToEachKeeps(m, init, id, artist, n);
      var prev := AppendToEach(m, init, id, artist);
      PrefixTrans(m[n].tracks, prev[n].tracks, AppendToEach(m, names, id, artist)[n].tracks);
    }
  }

  /** The names of the result: the old ones and the given ones. */
  lemma {:induction false} AppendToEachKeys(m: Shelf, names: seq<string>, id: Id, artist: bool)
    ensures AppendToEach(m, names, id, artist).Keys == m.Keys + set n | n in names
  {
    if names != [] {
      var init := names[..|names| - 1];
      assert names == init + [names[|names| - 1]];
      AppendToEachKeys(m, init, id, artist);
    }
  }

  /** A new name starts a collection of its own kind, under its own name, holding id first. */
  lemma {:induction false} AppendToEachCreates(m: Shelf, names: seq<string>, id: Id, artist: bool, n: string)
    requires n in names && n !in m
    ensures var r := AppendToEach(m, names, id, artist);
      && n in r && r[n].name == n && r[n].Artist? == artist && r[n].tracks != [] && r[n].tracks[0] == id
      && (artist ==> r[n].albums == {}) && (!artist ==> r[n].artists == [])
  {
    var init := names[..|names| - 1];
    var last := names[|names| - 1];
    assert names == init + [last];
    if n in init {
      AppendToEachCreates(m, init, id, artist, n);
    } else {
      AppendToEachKeys(m, init, id, artist);
    }
  }

  /** The removals of a track value keep every collection's kind and name. */
  lemma RemoveFromEachKinded(m: Shelf, names: seq<string>, table: map<Id, Track>, v: Track, artist: bool)
    requires Kinded(m, artist)
    ensures Kinded(RemoveFromEach(m, names, table, v), artist)
  {
  }

  /** Appending under names keeps the kinds and names, and a created collection has its own. */
  lemma AppendToEachKinded(m: Shelf, names: seq<string>, id: Id, artist: bool)
    requires Kinded(m, artist)
    ensures Kinded(AppendToEach(m, names, id, artist), artist)
  {
    var r := AppendToEach(m, names, id, artist);
    AppendToEachKeys(m, names, id, artist);
    forall n | n in r ensures r[n].Artist? == artist && r[n].name == n {
      if n in m {
        AppendToEachKeeps(m, names, id, artist, n);
      } else {
        AppendToEachCreates(m, names, id, artist, n);
      }
    }
  }
}
