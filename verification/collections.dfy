/**
 * `SongCollection`, `Playlist` and `Artist` of utils/SupportData.kt. A playlist
 * (albums are playlists too) keeps an insertion-ordered map from artist to the
 * number of its tracks' artist credits; here it is an association list keyed by
 * artist name. An artist records the names of the albums it appears on.
 */
module Collections {
  import opened Wrappers
  import opened Durations
  import opened Lists
  import opened Entities

  datatype ArtistCount = ArtistCount(artist: string, count: nat)

  datatype Collection =
    | Playlist(tracks: seq<Id>, imgPath: Option<string>, primaryArtist: Option<string>,
               name: string, artists: seq<ArtistCount>, desc: Option<string>)
    | Artist(tracks: seq<Id>, name: string, imgPath: Option<string>, albums: set<string>,
             desc: Option<string>)
  {
    function ToSkeleton(): CollectionSkeleton {
      CollectionSkeleton(imgPath, name, desc)
    }
  }

  /** `SongCollectionSkeleton`: what is saved of a playlist, album or artist. */
  datatype CollectionSkeleton = CollectionSkeleton(imgPath: Option<string>, name: string, desc: Option<string>)
  {
    /** `toPlaylist()`: an empty playlist carrying the saved fields. */
    function ToPlaylist(): (p: Collection)
      ensures p.Playlist? && p.ToSkeleton() == this
      ensures p.tracks == [] && p.artists == [] && p.primaryArtist == None
    {
      Playlist([], imgPath, None, name, [], desc)
    }

    /** `toArtist()`: an empty artist carrying the saved fields. */
    function ToArtist(): (a: Collection)
      ensures a.Artist? && a.ToSkeleton() == this
      ensures a.tracks == [] && a.albums == {}
    {
      Artist([], name, imgPath, {}, desc)
    }
  }

  /** The two collections differ at most in their track lists. */
  predicate SameButTracks(a: Collection, b: Collection) {
    a == b.(tracks := a.tracks)
  }

  /** Replacing the track list twice keeps only the second list. */
  lemma RetrackTwice(q: Collection, a: seq<Id>, b: seq<Id>)
    ensures q.(tracks := a).(tracks := b) == q.(tracks := b)
  {
  }

  /** Replacing an artist's album set twice keeps only the second set. */
  lemma RealbumTwice(x: Collection, a: set<string>, b: set<string>)
    requires x.Artist?
    ensures x.(albums := a).(albums := b) == x.(albums := b)
  {
  }

  /** `Playlist(mutableListOf(track), name = name)`. */
  function NewPlaylist(id: Id, name: string): (p: Collection)
    ensures p.Playlist? && p.tracks == [id] && p.name == name && p.artists == []
  {
    Playlist([id], None, None, name, [], None)
  }

  /** `Artist(mutableListOf(track), name)`. */
  function NewArtist(id: Id, name: string): (a: Collection)
    ensures a.Artist? && a.tracks == [id] && a.name == name && a.albums == {}
  {
    Artist([id], name, None, {}, None)
  }

  // ---------------------------------------------------------------- artist counts

  /** The artist names of an association list, in iteration order. */
  function Keys(counts: seq<ArtistCount>): (ks: seq<string>)
    ensures |ks| == |counts| && forall i | 0 <= i < |counts| :: ks[i] == counts[i].artist
  {
    if counts == [] then [] else [counts[0].artist] + Keys(counts[1..])
  }

  predicate DistinctKeys(counts: seq<ArtistCount>) {
    forall i, j | 0 <= i < j < |counts| :: counts[i].artist != counts[j].artist
  }

  /** `artists[a]`, or 0 when a has no entry. */
  function CountOf(counts: seq<ArtistCount>, a: string): nat {
    if counts == [] then 0
    else if counts[0].artist == a then counts[0].count
    else CountOf(counts[1..], a)
  }

  /** One credit for artist a: `put(a, 1)` for a new key, else `artists[a] + 1` in place. */
  function Bump(counts: seq<ArtistCount>, a: string): seq<ArtistCount> {
    if counts == [] then [ArtistCount(a, 1)]
    else if counts[0].artist == a then [counts[0].(count := counts[0].count + 1)] + counts[1..]
    else [counts[0]] + Bump(counts[1..], a)
  }

  /** The counts after crediting every name of `names`, in order. */
  function Tally(counts: seq<ArtistCount>, names: seq<string>): seq<ArtistCount> {
    if names == [] then counts
    else Bump(Tally(counts, names[..|names| - 1]), names[|names| - 1])
  }

  /** Every artist credit of the tracks, track by track in list order. */
  function ArtistNames(tracks: seq<Id>, table: map<Id, Track>): seq<string> {
    if tracks == [] then []
    else
      var last := tracks[|tracks| - 1];
      ArtistNames(tracks[..|tracks| - 1], table) + (if last in table then table[last].artists else [])
  }

  /** The first entry whose count no other entry exceeds. */
  function FirstMax(counts: seq<ArtistCount>): (k: nat)
    requires counts != []
    ensures k < |counts|
    ensures forall j | 0 <= j < |counts| :: counts[j].count <= counts[k].count
    ensures forall j | 0 <= j < k :: counts[j].count < counts[k].count
  {
    if |counts| == 1 then 0
    else
      var k := FirstMax(counts[..|counts| - 1]);
      if counts[|counts| - 1].count > counts[k].count then |counts| - 1 else k
  }

  /** The playlist after `sortArtists()`: counts credited, primary artist inferred. */
  function Sorted(p: Collection, table: map<Id, Track>): Collection
    requires p.Playlist?
    requires Tally(p.artists, ArtistNames(p.tracks, table)) != []
  {
    var counts := Tally(p.artists, ArtistNames(p.tracks, table));
    p.(artists := counts, primaryArtist := Some(counts[FirstMax(counts)].artist))
  }

  /** One credit raises a's count by one and keeps the other counts. */
  lemma {:induction false} BumpCount(counts: seq<ArtistCount>, a: string, b: string)
    ensures CountOf(Bump(counts, a), b) == CountOf(counts, b) + (if a == b then 1 else 0)
  {
    if counts != [] && counts[0].artist != a {
      BumpCount(counts[1..], a, b);
    }
  }

  /** One credit appends a new key at the end, and only when the artist has none yet. */
  lemma {:induction false} BumpKeys(counts: seq<ArtistCount>, a: string)
    ensures Keys(Bump(counts, a)) == Keys(counts) + (if a in Keys(counts) then [] else [a])
  {
    if counts != [] && counts[0].artist != a {
      BumpKeys(counts[1..], a);
      assert Keys(counts) == [counts[0].artist] + Keys(counts[1..]);
    }
  }

  lemma DistinctKeysOf(counts: seq<ArtistCount>, other: seq<ArtistCount>)
    requires DistinctKeys(counts) && Keys(other) == Keys(counts)
    ensures DistinctKeys(other)
  {
    assert forall i | 0 <= i < |other| :: other[i].artist == Keys(counts)[i];
  }

  lemma BumpDistinct(counts: seq<ArtistCount>, a: string)
    requires DistinctKeys(counts)
    ensures DistinctKeys(Bump(counts, a))
  {
    var r := Bump(counts, a);
    BumpKeys(counts, a);
    assert forall i | 0 <= i < |r| :: r[i].artist == Keys(r)[i];
    assert forall i | 0 <= i < |counts| :: counts[i].artist == Keys(counts)[i];
  }

  /**
   * Crediting names raises every artist's count by the number of times the
   * artist is named; keys stay distinct, and existing keys keep their order.
   */
  lemma TallyCount(counts: seq<ArtistCount>, names: seq<string>, a: string)
    requires DistinctKeys(counts)
    ensures DistinctKeys(Tally(counts, names))
    ensures CountOf(Tally(counts, names), a) == CountOf(counts, a) + Occurrences(names, a)
    ensures Keys(counts) <= Keys(Tally(counts, names))
  {
    TallyDistinct(counts, names);
    TallyCountOf(counts, names, a);
    TallyKeys(counts, names);
  }

  lemma {:induction false} TallyDistinct(counts: seq<ArtistCount>, names: seq<string>)
    requires DistinctKeys(counts)
    ensures DistinctKeys(Tally(counts, names))
  {
    if names != [] {
      var init := names[..|names| - 1];
      TallyDistinct(counts, init);
      BumpDistinct(Tally(counts, init), names[|names| - 1]);
    }
  }

  lemma {:induction false} TallyCountOf(counts: seq<ArtistCount>, names: seq<string>, a: string)
    ensures CountOf(Tally(counts, names), a) == CountOf(counts, a) + Occurrences(names, a)
  {
    if names != [] {
      var init := names[..|names| - 1];
      var x := names[|names| - 1];
      TallyCountOf(counts, init, a);
      BumpCount(Tally(counts, init), x, a);
      OccurrencesLast(names, a);
    }
  }

  lemma {:induction false} TallyKeys(counts: seq<ArtistCount>, names: seq<string>)
    ensures Keys(counts) <= Keys(Tally(counts, names))
  {
    if names != [] {
      var init := names[..|names| - 1];
      TallyKeys(counts, init);
      BumpKeys(Tally(counts, init), names[|names| - 1]);
    }
  }

  lemma {:induction false} TallyConcat(counts: seq<ArtistCount>, a: seq<string>, b: seq<string>)
    ensures Tally(counts, a + b) == Tally(Tally(counts, a), b)
  {
    if b == [] {
      assert a + b == a;
    } else {
      TallyConcat(counts, a, b[..|b| - 1]);
      assert (a + b)[..|a + b| - 1] == a + b[..|b| - 1];
    }
  }

  /** A playlist whose tracks credit at least one artist ends up with a non-empty count list. */
  lemma {:induction false} TallyNonEmpty(counts: seq<ArtistCount>, names: seq<string>)
    requires names != []
    ensures Tally(counts, names) != []
  {
    var init := names[..|names| - 1];
    var x := names[|names| - 1];
    BumpKeys(Tally(counts, init), x);
  }

  /**
   * `sortArtists()`: every artist's count grows by the number of credits it has
   * on the playlist's tracks, and the primary artist is the first entry, in
   * iteration order, with the largest count. Nothing but these two fields changes.
   */
  lemma SortedSpec(p: Collection, table: map<Id, Track>, a: string)
    requires p.Playlist? && DistinctKeys(p.artists)
    requires Tally(p.artists, ArtistNames(p.tracks, table)) != []
    ensures var q := Sorted(p, table);
      && q.Playlist? && q.tracks == p.tracks && q.name == p.name && q.imgPath == p.imgPath && q.desc == p.desc
      && DistinctKeys(q.artists)
      && CountOf(q.artists, a) == CountOf(p.artists, a) + Occurrences(ArtistNames(p.tracks, table), a)
      && q.primaryArtist.Some?
      && exists k | 0 <= k < |q.artists| ::
           && q.primaryArtist.value == q.artists[k].artist
           && (forall j | 0 <= j < |q.artists| :: q.artists[j].count <= q.artists[k].count)
           && (forall j | 0 <= j < k :: q.artists[j].count < q.artists[k].count)
  {
    TallyCount(p.artists, ArtistNames(p.tracks, table), a);
    var q := Sorted(p, table);
    var k := FirstMax(q.artists);
    assert q.primaryArtist.value == q.artists[k].artist;
  }

  /** `inferPrimaryArtist()`: the loop keeps the artists tied for the highest count so far. */
  method InferPrimaryArtist(counts: seq<ArtistCount>) returns (primary: string)
    requires counts != []
    ensures primary == counts[FirstMax(counts)].artist
  {
    var tied: seq<string> := [];
    var best: nat := 0;
    for i := 0 to |counts|
      invariant i == 0 ==> tied == [] && best == 0
      invariant i > 0 ==> tied != [] && best == counts[FirstMax(counts[..i])].count
                          && tied[0] == counts[FirstMax(counts[..i])].artist
    {
      assert counts[..i + 1][..i] == counts[..i];
      if counts[i].count > best {
        tied := [counts[i].artist];
        best := counts[i].count;
      } else if counts[i].count == best {
        tied := tied + [counts[i].artist];
      }
    }
    assert counts[..|counts|] == counts;
    primary := tied[0];
  }

  /**
   * `sortArtists()`: credits every artist of every track, then infers the
   * primary artist. `known` is the set of names in the repository's artist map;
   * a credited name outside it makes the source's `!!` throw.
   */
  method SortArtists(p: Collection, table: map<Id, Track>, known: set<string>) returns (q: Collection)
    requires p.Playlist?
    requires forall a | a in ArtistNames(p.tracks, table) :: a in known
    requires Tally(p.artists, ArtistNames(p.tracks, table)) != []
    ensures q == Sorted(p, table)
  {
    var counts := p.artists;
    for i := 0 to |p.tracks|
      invariant counts == Tally(p.artists, ArtistNames(p.tracks[..i], table))
    {
      var t := p.tracks[i];
      var names := if t in table then table[t].artists else [];
      ghost var base := counts;
      for j := 0 to |names|
        invariant counts == Tally(base, names[..j])
      {
        assert names[..j + 1][..j] == names[..j];
        counts := Bump(counts, names[j]);
      }
      assert names[..|names|] == names;
      TallyConcat(p.artists, ArtistNames(p.tracks[..i], table), names);
      assert p.tracks[..i + 1][..i] == p.tracks[..i];
    }
    assert p.tracks[..|p.tracks|] == p.tracks;
    var primary := InferPrimaryArtist(counts);
    q := p.(artists := counts, primaryArtist := Some(primary));
  }

  /** The artist map once each artist named in `names` lists `album`. */
  function RegisteredUnder(artists: map<string, Collection>, names: seq<string>, album: string): (r: map<string, Collection>)
    ensures r.Keys == artists.Keys
  {
    map a | a in artists ::
      if a in names && artists[a].Artist? then artists[a].(albums := artists[a].albums + {album})
      else artists[a]
  }

  /** `addToArtists()` on the artist map: each credited artist lists the album. */
  function Registered(artists: map<string, Collection>, album: Collection): (r: map<string, Collection>)
    requires album.Playlist?
  {
    RegisteredUnder(artists, Keys(album.artists), album.name)
  }

  lemma RegisteredStep(artists: map<string, Collection>, names: seq<string>, a: string, album: string)
    ensures var r := RegisteredUnder(artists, names, album);
      RegisteredUnder(artists, names + [a], album)
      == if a in r && r[a].Artist? && album !in r[a].albums then r[a := r[a].(albums := r[a].albums + {album})] else r
  {
    var r := RegisteredUnder(artists, names, album);
    var r' := RegisteredUnder(artists, names + [a], album);
    if a in r && r[a].Artist? && album in r[a].albums {
      assert r[a].albums + {album} == r[a].albums;
    }
  }

  /** Registering under the first i + 1 credited artists is one more step after the first i. */
  lemma RegisteredPrefix(artists: map<string, Collection>, counts: seq<ArtistCount>, i: nat, album: string)
    requires i < |counts|
    ensures var r := RegisteredUnder(artists, Keys(counts[..i]), album); var a := counts[i].artist;
      RegisteredUnder(artists, Keys(counts[..i + 1]), album)
      == if a in r && r[a].Artist? && album !in r[a].albums then r[a := r[a].(albums := r[a].albums + {album})] else r
  {
    assert Keys(counts[..i + 1]) == Keys(counts[..i]) + [counts[i].artist];
    RegisteredStep(artists, Keys(counts[..i]), counts[i].artist, album);
  }

  /**
   * `addToArtists()`: puts the album's name into the album map of each artist
   * it credits. Existing entries are kept; an artist no longer in the
   * repository's map is left alone.
   */
  method AddToArtists(album: Collection, artists: map<string, Collection>) returns (r: map<string, Collection>)
    requires album.Playlist?
    ensures r == Registered(artists, album)
  {
    r := artists;
    assert r == RegisteredUnder(artists, [], album.name);
    for i := 0 to |album.artists|
      invariant r == RegisteredUnder(artists, Keys(album.artists[..i]), album.name)
    {
      RegisteredPrefix(artists, album.artists, i, album.name);
      var a := album.artists[i].artist;
      if a in r && r[a].Artist? && album.name !in r[a].albums {
        r := r[a := r[a].(albums := r[a].albums + {album.name})];
      }
    }
    assert album.artists[..|album.artists|] == album.artists;
  }

  /** Registration only adds album names; every credited artist lists the album afterwards. */
  lemma RegisteredSpec(artists: map<string, Collection>, album: Collection, a: string)
    requires album.Playlist? && a in artists && artists[a].Artist?
    ensures var r := Registered(artists, album);
      && r[a].Artist? && r[a].tracks == artists[a].tracks && artists[a].albums <= r[a].albums
      && (album.name in r[a].albums <==> album.name in artists[a].albums || a in Keys(album.artists))
  {
  }

  // ---------------------------------------------------------------- durations

  /** The sum of the tracks' `runtime.toMs()`, as exact integers. */
  function RuntimeSum(tracks: seq<Id>, table: map<Id, Track>): int {
    if tracks == [] then 0
    else
      var last := tracks[|tracks| - 1];
      RuntimeSum(tracks[..|tracks| - 1], table) + (if last in table then table[last].runtime.ToMs() else 0)
  }

  /** The Duration that `sumDuration()` builds over the given tracks. */
  function Accumulated(tracks: seq<Id>, table: map<Id, Track>): (d: Duration)
    ensures d.Valid()
  {
    if tracks == [] then Duration(0, 0, 0, 0)
    else
      var last := tracks[|tracks| - 1];
      var ms := if last in table then table[last].runtime.ToMs() else 0;
      Accumulated(tracks[..|tracks| - 1], table).Increment(ms)
  }

  lemma AccumulateStep(prev: Duration, ms: int, sum: int, next: Duration)
    requires IsInt(ms) && next == prev.Increment(ms) && Congruent(prev.Total(), sum)
    ensures Congruent(next.Total(), sum + ms)
  {
    IncrementTotal(prev, ms);
    CongruentAdd(prev.Total(), sum, ms, ms);
    CongruentShift(next.Total(), prev.Total() + ms, sum + ms);
  }

  /**
   * `sumDuration()` totals the runtimes: the weighted total of the Duration it
   * builds is the sum of the tracks' `toMs()` values, up to 32-bit wrap-around.
   */
  lemma {:induction false} AccumulatedTotal(tracks: seq<Id>, table: map<Id, Track>)
    ensures Congruent(Accumulated(tracks, table).Total(), RuntimeSum(tracks, table))
  {
    if tracks != [] {
      AccumulatedTotal(tracks[..|tracks| - 1], table);
      AccumulatedStep(tracks, table);
    }
  }

  /** The last track's runtime moves the total and the sum alike. */
  lemma AccumulatedStep(tracks: seq<Id>, table: map<Id, Track>)
    requires tracks != []
    requires var init := tracks[..|tracks| - 1];
      Congruent(Accumulated(init, table).Total(), RuntimeSum(init, table))
    ensures Congruent(Accumulated(tracks, table).Total(), RuntimeSum(tracks, table))
  {
    var init := tracks[..|tracks| - 1];
    var last := tracks[|tracks| - 1];
    var ms := if last in table then table[last].runtime.ToMs() else 0;
    AccumulateStep(Accumulated(init, table), ms, RuntimeSum(init, table), Accumulated(tracks, table));
  }

  /**
   * `sumDuration()`: starts from a zero Duration and increments it by each
   * track's `toMs()` in list order.
   */
  method SumDuration(c: Collection, table: map<Id, Track>) returns (time: Duration)
    requires forall id | id in c.tracks :: id in table
    ensures time == Accumulated(c.tracks, table)
  {
    time := Duration(0, 0, 0, 0);
    for i := 0 to |c.tracks|
      invariant time == Accumulated(c.tracks[..i], table)
    {
      var ms := table[c.tracks[i]].runtime.ToMs();
      assert c.tracks[..i + 1][..i] == c.tracks[..i];
      time := time.Increment(ms);
    }
    assert c.tracks[..|c.tracks|] == c.tracks;
  }
}
