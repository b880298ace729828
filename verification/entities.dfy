/**
 * The track-level records of utils/SupportData.kt: lyrics, dates, tracks, their
 * serialisable skeletons, and the language vocabulary `LangList`.
 */
module Entities {
  import opened Wrappers
  import opened Durations
  import opened Lists

  datatype LyricsType = Plaintext | Lrc | Elrc

  /**
   * `Lyrics`. `lrcFile` stands for the `File?` handle: Some(p) once `build()`
   * opened the file at p, None before.
   */
  datatype Lyrics = Lyrics(path: string, kind: LyricsType, autoType: LyricsType, visible: bool, lrcFile: Option<string>)
  {
    function ToSkeleton(): LyricsSkeleton {
      LyricsSkeleton(path, kind, autoType, visible)
    }
  }

  datatype LyricsSkeleton = LyricsSkeleton(path: string, kind: LyricsType, autoType: LyricsType, visible: bool)
  {
    /** `toLyrics()`: no file handle yet. */
    function ToLyrics(): (l: Lyrics)
      ensures l.ToSkeleton() == this && l.lrcFile == None
    {
      Lyrics(path, kind, autoType, visible, None)
    }
  }

  /** `Lyrics(path)` with the constructor's defaults. */
  function NewLyrics(path: string): (l: Lyrics)
    ensures l.path == path && l.lrcFile == None
    ensures l.kind == Plaintext && l.autoType == Plaintext && l.visible
  {
    Lyrics(path, Plaintext, Plaintext, true, None)
  }

  datatype Date = Date(day: int, month: int, year: int)

  /** `Track`: a data class, so two tracks are equal when all these fields are. */
  datatype Track = Track(
    path: string,
    name: string,
    originalName: Option<string>,
    lang: seq<string>,
    origin: string,
    originInfo: Option<string>,
    runtime: Duration,
    cover: bool,
    originalLang: seq<string>,
    album: Option<string>,
    playlists: seq<string>,
    artists: seq<string>,
    imgPath: Option<string>,
    dateAdded: Option<Date>,
    timesPlayed: int,
    stdLyrics: Option<Lyrics>,
    trnLyrics: Option<Lyrics>,
    romLyrics: Option<Lyrics>,
    selectedLyrics: int,
    file: Option<string>,
    desc: Option<string>)
  {
    /** No file handle is held, by the track or by any of its lyrics. */
    predicate Closed() {
      file == None && LyricsClosed(stdLyrics) && LyricsClosed(trnLyrics) && LyricsClosed(romLyrics)
    }

    function ToSkeleton(): TrackSkeleton {
      TrackSkeleton(path, name, originalName, lang, origin, originInfo, runtime, cover,
                    originalLang, album, playlists, artists, imgPath, dateAdded, timesPlayed,
                    SkeletonOf(stdLyrics), SkeletonOf(trnLyrics), SkeletonOf(romLyrics),
                    selectedLyrics, desc)
    }
  }

  predicate LyricsClosed(l: Option<Lyrics>) {
    l.Some? ==> l.value.lrcFile == None
  }

  function SkeletonOf(l: Option<Lyrics>): Option<LyricsSkeleton> {
    match l
    case None => None
    case Some(x) => Some(x.ToSkeleton())
  }

  function LyricsOf(s: Option<LyricsSkeleton>): Option<Lyrics> {
    match s
    case None => None
    case Some(x) => Some(x.ToLyrics())
  }

  /** `TrackSkeleton`: the serialised form of a track, without the file handle. */
  datatype TrackSkeleton = TrackSkeleton(
    path: string,
    name: string,
    originalName: Option<string>,
    lang: seq<string>,
    origin: string,
    originInfo: Option<string>,
    runtime: Duration,
    cover: bool,
    originalLang: seq<string>,
    album: Option<string>,
    playlists: seq<string>,
    artists: seq<string>,
    imgPath: Option<string>,
    dateAdded: Option<Date>,
    timesPlayed: int,
    stdLyrics: Option<LyricsSkeleton>,
    trnLyrics: Option<LyricsSkeleton>,
    romLyrics: Option<LyricsSkeleton>,
    selectedLyrics: int,
    desc: Option<string>)
  {
    /** `toTrack()`: every field copied, `file = null`, lyrics rebuilt without handles. */
    function ToTrack(): (t: Track)
      ensures t.Closed()
    {
      Track(path, name, originalName, lang, origin, originInfo, runtime, cover,
            originalLang, album, playlists, artists, imgPath, dateAdded, timesPlayed,
            LyricsOf(stdLyrics), LyricsOf(trnLyrics), LyricsOf(romLyrics),
            selectedLyrics, None, desc)
    }
  }

  lemma LyricsRoundTrip(l: Option<Lyrics>)
    requires LyricsClosed(l)
    ensures LyricsOf(SkeletonOf(l)) == l
  {
  }

  /** Saving a decoded skeleton gives the skeleton back. */
  lemma {:induction false} SkeletonRoundTrip(s: TrackSkeleton)
    ensures s.ToTrack().ToSkeleton() == s
  {
    assert SkeletonOf(LyricsOf(s.stdLyrics)) == s.stdLyrics;
    assert SkeletonOf(LyricsOf(s.trnLyrics)) == s.trnLyrics;
    assert SkeletonOf(LyricsOf(s.romLyrics)) == s.romLyrics;
  }

  /**
   * Decoding a saved track gives it back exactly when it holds no file handle:
   * the skeleton has no place for one.
   */
  lemma {:induction false} TrackRoundTrip(t: Track)
    ensures t.ToSkeleton().ToTrack() == t <==> t.Closed()
  {
    if t.Closed() {
      LyricsRoundTrip(t.stdLyrics);
      LyricsRoundTrip(t.trnLyrics);
      LyricsRoundTrip(t.romLyrics);
    }
  }

  /** The vocabulary after `createIfNotFound(key)` for each key in turn. */
  function Learned(vocab: seq<string>, keys: seq<string>): seq<string> {
    if keys == [] then vocab
    else
      var prev := Learned(vocab, keys[..|keys| - 1]);
      var key := keys[|keys| - 1];
      if key in prev then prev else prev + [key]
  }

  /** No entry occurs twice. */
  predicate NoDuplicates(s: seq<string>) {
    forall i, j | 0 <= i < j < |s| :: s[i] != s[j]
  }

  /**
   * Learning keys only appends: the old vocabulary stays a prefix, the new
   * one holds exactly the old entries and the keys, and no entry is added twice.
   */
  lemma {:induction false} LearnedSpec(vocab: seq<string>, keys: seq<string>, x: string)
    ensures vocab <= Learned(vocab, keys)
    ensures x in Learned(vocab, keys) <==> x in vocab || x in keys
    ensures NoDuplicates(vocab) ==> NoDuplicates(Learned(vocab, keys))
  {
    if keys != [] {
      var init := keys[..|keys| - 1];
      var key := keys[|keys| - 1];
      assert keys == init + [key];
      LearnedSpec(vocab, init, x);
      var prev := Learned(vocab, init);
      assert vocab <= prev;
      if key !in prev {
        assert prev <= prev + [key];
      }
    }
  }

  /**
   * `LangList`: the vocabulary of languages offered by the editor, and the
   * list a new track gets as its default languages.
   */
  class LangList {
    var langs: seq<string>
    var default: seq<string>

    constructor ()
      ensures langs == ["<unknown>"] && default == ["<unknown>"]
    {
      langs := ["<unknown>"];
      default := ["<unknown>"];
    }

    /** `createIfNotFound(key)`: appends key unless already present, and returns it. */
    method CreateIfNotFound(key: string) returns (r: string)
      modifies this
      ensures r == key && key in langs
      ensures langs == if key in old(langs) then old(langs) else old(langs) + [key]
      ensures default == old(default)
    {
      if key !in langs {
        langs := langs + [key];
      }
      r := key;
    }
  }
}
