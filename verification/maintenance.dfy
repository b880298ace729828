/**
 * The bulk maintenance passes of `MusicRepo` (utils/Repositories.kt) as
 * functions on the catalog: `cleanInvalidPaths()` and `deduplicate()`. Which
 * files exist is a set of paths, in place of `File.exists()`.
 */
module Maintenance {
  import opened Wrappers
  import opened Lists
  import opened Entities
  import opened Collections
  import opened Store

  // ---------------------------------------------------------------- cleanInvalidPaths

  /** A lyric reference whose file is missing becomes null. */
  function ScrubLyrics(l: Option<Lyrics>, existing: set<string>): Option<Lyrics> {
    if l.Some? && l.value.path !in existing then None else l
  }

  /** Every reference the track still holds points at an existing file. */
  predicate Intact(t: Track, existing: set<string>) {
    && (t.imgPath.Some? ==> t.imgPath.value in existing)
    && (t.stdLyrics.Some? ==> t.stdLyrics.value.path in existing)
    && (t.trnLyrics.Some? ==> t.trnLyrics.value.path in existing)
    && (t.romLyrics.Some? ==> t.romLyrics.value.path in existing)
  }

  /** The first loop of `cleanInvalidPaths()` on a track whose file exists:
      the image path and each lyric reference whose file is missing become null. */
  function Scrub(t: Track, existing: set<string>): Track {
    t.(imgPath := if t.imgPath.Some? && t.imgPath.value !in existing then None else t.imgPath,
       stdLyrics := ScrubLyrics(t.stdLyrics, existing),
       trnLyrics := ScrubLyrics(t.trnLyrics, existing),
       romLyrics := ScrubLyrics(t.romLyrics, existing))
  }

  /**
   * Scrubbing leaves the track intact, keeps every reference whose file
   * exists, touches no other field, and changes an intact track not at all.
   */
  lemma ScrubSpec(t: Track, existing: set<string>)
    ensures var s := Scrub(t, existing);
      && Intact(s, existing)
      && s == t.(imgPath := s.imgPath, stdLyrics := s.stdLyrics, trnLyrics := s.trnLyrics, romLyrics := s.romLyrics)
      && (t.imgPath.Some? && t.imgPath.value in existing ==> s.imgPath == t.imgPath)
      && (t.stdLyrics.Some? && t.stdLyrics.value.path in existing ==> s.stdLyrics == t.stdLyrics)
      && (t.trnLyrics.Some? && t.trnLyrics.value.path in existing ==> s.trnLyrics == t.trnLyrics)
      && (t.romLyrics.Some? && t.romLyrics.value.path in existing ==> s.romLyrics == t.romLyrics)
      && (Intact(t, existing) <==> s == t)
  {
  }

  /** The table after the first loop has visited `ids`: each visited track whose file exists is scrubbed. */
  function ScrubbedTable(table: map<Id, Track>, ids: seq<Id>, existing: set<string>): (r: map<Id, Track>)
    ensures r.Keys == table.Keys && forall id | id in r :: r[id].path == table[id].path
  {
    map id | id in table :: if id in ids && table[id].path in existing then Scrub(table[id], existing) else table[id]
  }

  lemma ScrubbedTableStep(table: map<Id, Track>, ids: seq<Id>, id: Id, existing: set<string>)
    requires id in table
    ensures var r := ScrubbedTable(table, ids, existing);
      ScrubbedTable(table, ids + [id], existing)
      == if r[id].path in existing then r[id := Scrub(r[id], existing)] else r
  {
    ScrubSpec(table[id], existing);
  }

  /** The object id names a track whose file is missing. */
  predicate Missing(table: map<Id, Track>, id: Id, existing: set<string>) {
    id in table && table[id].path !in existing
  }

  /** `toDelete` after the first loop has visited `ids`: the missing ones, in order. */
  function MissingIds(ids: seq<Id>, table: map<Id, Track>, existing: set<string>): (r: seq<Id>)
    ensures forall i | 0 <= i < |r| :: Missing(table, r[i], existing)
  {
    if ids == [] then []
    else
      var last := ids[|ids| - 1];
      MissingIds(ids[..|ids| - 1], table, existing) + (if Missing(table, last, existing) then [last] else [])
  }

  /** The ids that survive: those whose file exists, in order. */
  function Surviving(ids: seq<Id>, table: map<Id, Track>, existing: set<string>): seq<Id> {
    if ids == [] then []
    else (if Missing(table, ids[0], existing) then [] else [ids[0]]) + Surviving(ids[1..], table, existing)
  }

  /** The second loop: detach the value of each id in turn. */
  function DetachAll(c: Catalog, ids: seq<Id>): (d: Catalog)
    ensures d.playlists.Keys == c.playlists.Keys && d.artists.Keys == c.artists.Keys && d.albums.Keys == c.albums.Keys
  {
    if ids == [] then c
    else
      var prev := DetachAll(c, ids[..|ids| - 1]);
      var last := ids[|ids| - 1];
      if last in c.table then Detach(prev, c.table[last]) else prev
  }

  /** `cleanInvalidPaths()`: scrub the tracks whose file exists, then detach the others. */
  function PathsCleaned(c: Catalog, existing: set<string>): Catalog {
    var scrubbed := ScrubbedTable(c.table, c.tracks, existing);
    DetachAll(c.(table := scrubbed), MissingIds(c.tracks, scrubbed, existing))
  }

  /** Which ids are missing depends only on the paths. */
  lemma {:induction false} MissingIdsPaths(ids: seq<Id>, t1: map<Id, Track>, t2: map<Id, Track>, existing: set<string>)
    requires t1.Keys == t2.Keys && forall id | id in t1 :: t1[id].path == t2[id].path
    ensures MissingIds(ids, t1, existing) == MissingIds(ids, t2, existing)
  {
    if ids != [] {
      MissingIdsPaths(ids[..|ids| - 1], t1, t2, existing);
    }
  }

  /** The missing ids hold every copy of each value whose file is missing, and no other value. */
  lemma {:induction false} MissingIdsCount(ids: seq<Id>, table: map<Id, Track>, existing: set<string>, w: Track)
    ensures Count(MissingIds(ids, table, existing), table, w) == if w.path !in existing then Count(ids, table, w) else 0
  {
    if ids != [] {
      var init := ids[..|ids| - 1];
      var last := ids[|ids| - 1];
      assert ids == init + [last];
      MissingIdsCount(init, table, existing, w);
      CountAppend(init, [last], table, w);
      CountSingle(last, table, w);
      var tail := if Missing(table, last, existing) then [last] else [];
      CountAppend(MissingIds(init, table, existing), tail, table, w);
      if tail == [last] { CountSingle(last, table, w); }
    }
  }

  lemma {:induction false} SurvivingAppend(a: seq<Id>, b: seq<Id>, table: map<Id, Track>, existing: set<string>)
    ensures Surviving(a + b, table, existing) == Surviving(a, table, existing) + Surviving(b, table, existing)
  {
    if a == [] {
      assert a + b == b;
    } else {
      assert (a + b)[1..] == a[1..] + b;
      SurvivingAppend(a[1..], b, table, existing);
    }
  }

  /** Removing a copy of a missing value does not change which ids survive. */
  lemma SurvivingRemoveMissing(ids: seq<Id>, table: map<Id, Track>, existing: set<string>, v: Track)
    requires v.path !in existing
    ensures Surviving(RemoveFirstEq(ids, table, v), table, existing) == Surviving(ids, table, existing)
  {
    var k := IndexOf(ids, table, v);
    if k >= 0 {
      assert ids == ids[..k] + ([ids[k]] + ids[k + 1..]);
      SurvivingAppend(ids[..k], [ids[k]] + ids[k + 1..], table, existing);
      SurvivingAppend([ids[k]], ids[k + 1..], table, existing);
      SurvivingAppend(ids[..k], ids[k + 1..], table, existing);
      assert ([ids[k]] + ids[k + 1..])[1..] == ids[k + 1..];
    }
  }

  lemma {:induction false} RemoveAllSurviving(ids: seq<Id>, table: map<Id, Track>, victims: seq<Id>, existing: set<string>)
    requires forall i | 0 <= i < |victims| :: Missing(table, victims[i], existing)
    ensures Surviving(RemoveAll(ids, table, victims), table, existing) == Surviving(ids, table, existing)
  {
    if victims != [] {
      var last := victims[|victims| - 1];
      RemoveAllSurviving(ids, table, victims[..|victims| - 1], existing);
      SurvivingRemoveMissing(RemoveAll(ids, table, victims[..|victims| - 1]), table, existing, table[last]);
    }
  }

  /** A list with no copy of any missing value survives whole. */
  lemma {:induction false} SurvivingAll(ids: seq<Id>, table: map<Id, Track>, existing: set<string>)
    requires forall i | 0 <= i < |ids| :: ids[i] in table
    requires forall w: Track | w.path !in existing :: Count(ids, table, w) == 0
    ensures Surviving(ids, table, existing) == ids
  {
    if ids != [] {
      var w := table[ids[0]];
      if w.path !in existing {
        CountZero(ids, table, w);
        assert false;
      }
      forall u: Track | u.path !in existing ensures Count(ids[1..], table, u) == 0 {
        assert Count(ids, table, u) == 0;
      }
      SurvivingAll(ids[1..], table, existing);
    }
  }

  /** Detaching a list of values keeps the table, the keys and every field but the track lists. */
  lemma {:induction false} DetachAllShape(c: Catalog, ids: seq<Id>)
    ensures var d := DetachAll(c, ids);
      && d.table == c.table && d.nextId == c.nextId
      && d.tracks == RemoveAll(c.tracks, c.table, ids)
      && d.playlists.Keys == c.playlists.Keys && d.artists.Keys == c.artists.Keys && d.albums.Keys == c.albums.Keys
      && (forall n | n in d.playlists :: SameButTracks(d.playlists[n], c.playlists[n]))
      && (forall n | n in d.artists :: SameButTracks(d.artists[n], c.artists[n]))
      && (forall n | n in d.albums :: SameButTracks(d.albums[n], c.albums[n]))
  {
    if ids != [] {
      DetachAllShape(c, ids[..|ids| - 1]);
    }
  }

  /** Detaching value v leaves the elements of every collection that are not equal to v, in order. */
  lemma DetachKeeps(c: Catalog, v: Track, w: Track, n: string)
    requires v != w
    ensures var d := Detach(c, v);
      && (n in c.playlists ==> Count(d.playlists[n].tracks, c.table, w) == Count(c.playlists[n].tracks, c.table, w)
                               && Subseq(d.playlists[n].tracks, c.playlists[n].tracks))
      && (n in c.artists ==> Count(d.artists[n].tracks, c.table, w) == Count(c.artists[n].tracks, c.table, w)
                             && Subseq(d.artists[n].tracks, c.artists[n].tracks))
      && (n in c.albums ==> Count(d.albums[n].tracks, c.table, w) == Count(c.albums[n].tracks, c.table, w)
                            && Subseq(d.albums[n].tracks, c.albums[n].tracks))
  {
    if n in c.playlists {
      RemoveFromEachAt(c.playlists, v.playlists, c.table, v, n);
      RemoveNCount(c.playlists[n].tracks, c.table, v, Occurrences(v.playlists, n), w);
      RemoveNSubseq(c.playlists[n].tracks, c.table, v, Occurrences(v.playlists, n));
    }
    if n in c.artists {
      RemoveFromEachAt(c.artists, v.artists, c.table, v, n);
      RemoveNCount(c.artists[n].tracks, c.table, v, Occurrences(v.artists, n), w);
      RemoveNSubseq(c.artists[n].tracks, c.table, v, Occurrences(v.artists, n));
    }
    if n in c.albums {
      RemoveFromAlbumAt(c.albums, v.album, c.table, v, n);
      SubseqRefl(c.albums[n].tracks);
      RemoveFirstEqCount(c.albums[n].tracks, c.table, v, w);
      RemoveFirstEqSubseq(c.albums[n].tracks, c.table, v);
    }
  }

  /**
   * Detaching the values of `ids` keeps, in every collection, the order of
   * what remains and every copy of a value none of the ids has.
   */
  lemma {:induction false} DetachAllKeeps(c: Catalog, ids: seq<Id>, w: Track, n: string)
    requires Count(ids, c.table, w) == 0
    ensures var d := DetachAll(c, ids);
      && (n in c.playlists ==> Count(d.playlists[n].tracks, c.table, w) == Count(c.playlists[n].tracks, c.table, w)
                               && Subseq(d.playlists[n].tracks, c.playlists[n].tracks))
      && (n in c.artists ==> Count(d.artists[n].tracks, c.table, w) == Count(c.artists[n].tracks, c.table, w)
                             && Subseq(d.artists[n].tracks, c.artists[n].tracks))
      && (n in c.albums ==> Count(d.albums[n].tracks, c.table, w) == Count(c.albums[n].tracks, c.table, w)
                            && Subseq(d.albums[n].tracks, c.albums[n].tracks))
  {
    if ids == [] {
      if n in c.playlists { SubseqRefl(c.playlists[n].tracks); }
      if n in c.artists { SubseqRefl(c.artists[n].tracks); }
      if n in c.albums { SubseqRefl(c.albums[n].tracks); }
    } else {
      var init := ids[..|ids| - 1];
      var last := ids[|ids| - 1];
      assert ids == init + [last];
      CountAppend(init, [last], c.table, w);
      CountSingle(last, c.table, w);
      DetachAllKeeps(c, init, w, n);
      var prev := DetachAll(c, init);
      DetachAllShape(c, init);
      if last in c.table {
        DetachKeeps(prev, c.table[last], w, n);
        if n in c.playlists { SubseqTrans(DetachAll(c, ids).playlists[n].tracks, prev.playlists[n].tracks, c.playlists[n].tracks); }
        if n in c.artists { SubseqTrans(DetachAll(c, ids).artists[n].tracks, prev.artists[n].tracks, c.artists[n].tracks); }
        if n in c.albums { SubseqTrans(DetachAll(c, ids).albums[n].tracks, prev.albums[n].tracks, c.albums[n].tracks); }
      }
    }
  }

  /**
   * `cleanInvalidPaths()` on the master list: it becomes exactly the tracks
   * whose file exists, in their order, and the catalog stays well formed.
   */
  lemma PathsCleanedTracks(c: Catalog, existing: set<string>)
    requires c.Valid()
    ensures var d := PathsCleaned(c, existing);
      d.tracks == Surviving(c.tracks, c.table, existing) && d.Valid()
  {
    var scrubbed := ScrubbedTable(c.table, c.tracks, existing);
    var c1 := c.(table := scrubbed);
    var victims := MissingIds(c.tracks, scrubbed, existing);
    var d := PathsCleaned(c, existing);
    DetachAllShape(c1, victims);
    forall u ensures Count(victims, scrubbed, u) <= Count(c.tracks, scrubbed, u) {
      MissingIdsCount(c.tracks, scrubbed, existing, u);
    }
    forall u: Track | u.path !in existing ensures Count(d.tracks, scrubbed, u) == 0 {
      MissingIdsCount(c.tracks, scrubbed, existing, u);
      RemoveAllCount(c.tracks, scrubbed, victims, u);
    }
    RemoveAllSubseq(c.tracks, scrubbed, victims);
    forall i | 0 <= i < |d.tracks| ensures d.tracks[i] in scrubbed {
      SubseqMember(d.tracks, c.tracks, i);
    }
    SurvivingAll(d.tracks, scrubbed, existing);
    RemoveAllSurviving(c.tracks, scrubbed, victims, existing);
    SurvivingSamePaths(c.tracks, scrubbed, c.table, existing);
  }

  /**
   * `cleanInvalidPaths()` on the tracks themselves: a listed track whose file
   * exists is scrubbed, and no other track object changes.
   */
  lemma PathsCleanedTable(c: Catalog, existing: set<string>, id: Id)
    requires id in c.table
    ensures var d := PathsCleaned(c, existing);
      && d.table.Keys == c.table.Keys && d.nextId == c.nextId
      && d.table[id] == if id in c.tracks && c.table[id].path in existing then Scrub(c.table[id], existing) else c.table[id]
  {
    var scrubbed := ScrubbedTable(c.table, c.tracks, existing);
    DetachAllShape(c.(table := scrubbed), MissingIds(c.tracks, scrubbed, existing));
  }

  /**
   * `cleanInvalidPaths()` on the collections: none is removed or pruned, and
   * each keeps its other fields, the order of its tracks and every copy of a
   * track whose file exists.
   */
  lemma PathsCleanedCollections(c: Catalog, existing: set<string>, w: Track, n: string)
    requires w.path in existing
    ensures var d := PathsCleaned(c, existing);
      && d.playlists.Keys == c.playlists.Keys && d.artists.Keys == c.artists.Keys && d.albums.Keys == c.albums.Keys
      && (n in c.playlists ==>
            Count(d.playlists[n].tracks, d.table, w) == Count(c.playlists[n].tracks, d.table, w)
            && Subseq(d.playlists[n].tracks, c.playlists[n].tracks)
            && SameButTracks(d.playlists[n], c.playlists[n]))
      && (n in c.artists ==>
            Count(d.artists[n].tracks, d.table, w) == Count(c.artists[n].tracks, d.table, w)
            && Subseq(d.artists[n].tracks, c.artists[n].tracks)
            && SameButTracks(d.artists[n], c.artists[n]))
      && (n in c.albums ==>
            Count(d.albums[n].tracks, d.table, w) == Count(c.albums[n].tracks, d.table, w)
            && Subseq(d.albums[n].tracks, c.albums[n].tracks)
            && SameButTracks(d.albums[n], c.albums[n]))
  {
    var scrubbed := ScrubbedTable(c.table, c.tracks, existing);
    var c1 := c.(table := scrubbed);
    var victims := MissingIds(c.tracks, scrubbed, existing);
    DetachAllShape(c1, victims);
    MissingIdsCount(c.tracks, scrubbed, existing, w);
    DetachAllKeeps(c1, victims, w, n);
  }

  /** Which ids survive depends only on the paths. */
  lemma {:induction false} SurvivingSamePaths(ids: seq<Id>, t1: map<Id, Track>, t2: map<Id, Track>, existing: set<string>)
    requires t1.Keys == t2.Keys && forall id | id in t1 :: t1[id].path == t2[id].path
    ensures Surviving(ids, t1, existing) == Surviving(ids, t2, existing)
  {
    if ids != [] {
      SurvivingSamePaths(ids[1..], t1, t2, existing);
    }
  }

  // ---------------------------------------------------------------- deduplicate

  /**
   * `toRemove` after the first loop of `deduplicate()` has visited `ids`: an
   * id joins when `all` holds its value at two different positions and no id
   * already chosen has that value.
   */
  function Duplicates(all: seq<Id>, ids: seq<Id>, table: map<Id, Track>): (r: seq<Id>)
    ensures forall i | 0 <= i < |r| :: r[i] in ids && r[i] in table
  {
    if ids == [] then []
    else
      var prev := Duplicates(all, ids[..|ids| - 1], table);
      var last := ids[|ids| - 1];
      if last in table && IndexOf(all, table, table[last]) != LastIndexOf(all, table, table[last])
         && IndexOf(prev, table, table[last]) == -1
      then prev + [last] else prev
  }

  /** The second loop of `deduplicate()`: `delete()` each chosen track in turn. */
  function DeleteAll(c: Catalog, ids: seq<Id>): Catalog {
    if ids == [] then c
    else
      var prev := DeleteAll(c, ids[..|ids| - 1]);
      var last := ids[|ids| - 1];
      if last in prev.table then Deleted(prev, last) else prev
  }

  /** `deduplicate()`. */
  function Deduplicated(c: Catalog): Catalog {
    DeleteAll(c, Duplicates(c.tracks, c.tracks, c.table))
  }

  /** Deleting tracks one by one keeps the catalog well formed. */
  lemma {:induction false} DeleteAllValid(c: Catalog, ids: seq<Id>)
    requires c.Valid()
    ensures DeleteAll(c, ids).Valid()
  {
    if ids != [] {
      var init := ids[..|ids| - 1];
      var last := ids[|ids| - 1];
      DeleteAllValid(c, init);
      var prev := DeleteAll(c, init);
      if last in prev.table {
        DeletedSpec(prev, last, prev.table[last], "");
      }
    }
  }

  /** `deduplicate()` keeps the catalog well formed, whatever file handles are open. */
  lemma DeduplicatedValid(c: Catalog)
    requires c.Valid()
    ensures Deduplicated(c).Valid()
  {
    DeleteAllValid(c, Duplicates(c.tracks, c.tracks, c.table));
  }

  /** Every track object is closed: its file handle is null. */
  predicate Closed(c: Catalog) {
    forall id | id in c.table :: c.table[id].file == None
  }

  /** The first copy of v and the copies after it are all the copies. */
  lemma CountFromFirst(ids: seq<Id>, table: map<Id, Track>, v: Track)
    requires IndexOf(ids, table, v) >= 0
    ensures var k := IndexOf(ids, table, v);
      Count(ids, table, v) == 1 + Count(ids[k + 1..], table, v)
  {
    var k := IndexOf(ids, table, v);
    assert ids == ids[..k] + [ids[k]] + ids[k + 1..];
    CountAppend(ids[..k] + [ids[k]], ids[k + 1..], table, v);
    CountAppend(ids[..k], [ids[k]], table, v);
    CountSingle(ids[k], table, v);
    CountZero(ids[..k], table, v);
  }

  /** The last copy is the first one exactly when no copy follows the first. */
  lemma LastIsFirst(ids: seq<Id>, table: map<Id, Track>, v: Track)
    requires IndexOf(ids, table, v) >= 0
    ensures var k := IndexOf(ids, table, v);
      LastIndexOf(ids, table, v) == k <==> Count(ids[k + 1..], table, v) == 0
  {
    var k := IndexOf(ids, table, v);
    var l := LastIndexOf(ids, table, v);
    var tail := ids[k + 1..];
    CountZero(tail, table, v);
    if l == k {
      forall j | 0 <= j < |tail| ensures !Eq(table, tail[j], v) {
        assert tail[j] == ids[k + 1 + j];
      }
    } else {
      assert k < l;
      assert tail[l - k - 1] == ids[l];
    }
  }

  /** `indexOf(v) != lastIndexOf(v)` exactly when the list holds v twice or more. */
  lemma IndexOfLastIndexOf(ids: seq<Id>, table: map<Id, Track>, v: Track)
    ensures IndexOf(ids, table, v) != LastIndexOf(ids, table, v) <==> Count(ids, table, v) >= 2
  {
    CountZero(ids, table, v);
    if IndexOf(ids, table, v) >= 0 {
      CountFromFirst(ids, table, v);
      LastIsFirst(ids, table, v);
    }
  }

  /**
   * The first loop chooses exactly one id for each value the master list
   * holds twice or more, once it has visited a copy of that value, and none
   * for any other value.
   */
  lemma {:induction false} DuplicatesCount(all: seq<Id>, ids: seq<Id>, table: map<Id, Track>, w: Track)
    ensures Count(Duplicates(all, ids, table), table, w)
         == if Count(all, table, w) >= 2 && Count(ids, table, w) > 0 then 1 else 0
  {
    if ids != [] {
      var init := ids[..|ids| - 1];
      var last := ids[|ids| - 1];
      assert ids == init + [last];
      var prev := Duplicates(all, init, table);
      DuplicatesCount(all, init, table, w);
      CountAppend(init, [last], table, w);
      CountSingle(last, table, w);
      if last in table {
        var v := table[last];
        DuplicatesCount(all, init, table, v);
        CountAppend(init, [last], table, v);
        CountSingle(last, table, v);
        IndexOfLastIndexOf(all, table, v);
        CountZero(prev, table, v);
        CountAppend(prev, [last], table, w);
      }
    }
  }

  /** The values the list holds twice or more. */
  function Repeated(ids: seq<Id>, table: map<Id, Track>): set<Track> {
    set d | d in ids && d in table && Count(ids, table, table[d]) >= 2 :: table[d]
  }

  /** The first loop chooses one id for each repeated value and for no other value. */
  lemma DuplicatesValues(ids: seq<Id>, table: map<Id, Track>)
    ensures ValuesOf(Duplicates(ids, ids, table), table) == Repeated(ids, table)
  {
    var dups := Duplicates(ids, ids, table);
    forall v ensures v in ValuesOf(dups, table) <==> v in Repeated(ids, table) {
      DuplicatesCount(ids, ids, table, v);
      CountZero(dups, table, v);
      CountZero(ids, table, v);
      if v in ValuesOf(dups, table) {
        var d :| d in dups && d in table && table[d] == v;
        var j :| 0 <= j < |dups| && dups[j] == d;
        assert Eq(table, dups[j], v);
        assert Count(ids, table, v) >= 2;
        var k :| 0 <= k < |ids| && Eq(table, ids[k], v);
        assert ids[k] in ids;
      }
      if v in Repeated(ids, table) {
        var d :| d in ids && d in table && Count(ids, table, table[d]) >= 2 && table[d] == v;
        var j :| 0 <= j < |ids| && ids[j] == d;
        assert Eq(table, ids[j], v);
        var k :| 0 <= k < |dups| && Eq(table, dups[k], v);
        assert dups[k] in dups;
      }
    }
  }

  /** With every track closed, deleting is detaching: `close()` changes no value. */
  lemma {:induction false} DeleteAllClosed(c: Catalog, ids: seq<Id>)
    requires Closed(c)
    requires forall i | 0 <= i < |ids| :: ids[i] in c.table
    ensures DeleteAll(c, ids) == DetachAll(c, ids)
  {
    if ids != [] {
      var init := ids[..|ids| - 1];
      DeleteAllClosed(c, init);
      DetachAllShape(c, init);
    }
  }

  /**
   * `deduplicate()`, when every track is closed (as `arrangeTracks` leaves
   * them): the master list loses the first copy of each value it holds twice
   * or more and nothing else, so a value held k >= 2 times keeps k - 1
   * copies, any other value keeps all of its copies, the remaining ids keep
   * their order, and no track object changes.
   */
  lemma DeduplicatedTracks(c: Catalog, w: Track)
    requires c.Valid() && Closed(c)
    ensures var d := Deduplicated(c);
      && d.table == c.table && d.nextId == c.nextId
      && Count(d.tracks, c.table, w) == Count(c.tracks, c.table, w) - (if Count(c.tracks, c.table, w) >= 2 then 1 else 0)
      && Subseq(d.tracks, c.tracks)
      && d.tracks == DropFirstOf(c.tracks, c.table, Repeated(c.tracks, c.table))
  {
    var dups := Duplicates(c.tracks, c.tracks, c.table);
    DeleteAllClosed(c, dups);
    DetachAllShape(c, dups);
    forall u ensures Count(dups, c.table, u) <= Count(c.tracks, c.table, u) && Count(dups, c.table, u) <= 1 {
      DuplicatesCount(c.tracks, c.tracks, c.table, u);
    }
    RemoveAllDropFirstOf(c.tracks, c.table, dups);
    DuplicatesValues(c.tracks, c.table);
    DuplicatesCount(c.tracks, c.tracks, c.table, w);
    RemoveAllCount(c.tracks, c.table, dups, w);
    RemoveAllSubseq(c.tracks, c.table, dups);
  }

  /**
   * `deduplicate()` on the collections, every track being closed: none is
   * removed or pruned, each keeps its other fields and the order of its
   * tracks, and a value the master list holds at most once keeps every copy.
   */
  lemma DeduplicatedCollections(c: Catalog, w: Track, n: string)
    requires c.Valid() && Closed(c)
    requires Count(c.tracks, c.table, w) <= 1
    ensures var d := Deduplicated(c);
      && d.playlists.Keys == c.playlists.Keys && d.artists.Keys == c.artists.Keys && d.albums.Keys == c.albums.Keys
      && (n in c.playlists ==>
            Count(d.playlists[n].tracks, c.table, w) == Count(c.playlists[n].tracks, c.table, w)
            && Subseq(d.playlists[n].tracks, c.playlists[n].tracks)
            && SameButTracks(d.playlists[n], c.playlists[n]))
      && (n in c.artists ==>
            Count(d.artists[n].tracks, c.table, w) == Count(c.artists[n].tracks, c.table, w)
            && Subseq(d.artists[n].tracks, c.artists[n].tracks)
            && SameButTracks(d.artists[n], c.artists[n]))
      && (n in c.albums ==>
            Count(d.albums[n].tracks, c.table, w) == Count(c.albums[n].tracks, c.table, w)
            && Subseq(d.albums[n].tracks, c.albums[n].tracks)
            && SameButTracks(d.albums[n], c.albums[n]))
  {
    var dups := Duplicates(c.tracks, c.tracks, c.table);
    DeleteAllClosed(c, dups);
    DetachAllShape(c, dups);
    DuplicatesCount(c.tracks, c.tracks, c.table, w);
    DetachAllKeeps(c, dups, w, n);
  }
}
