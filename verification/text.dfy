/**
 * Text helpers of the catalog: Kotlin's `trim()`, `toBoolean()` and the
 * delimiter tokenizer `split` of utils/SupportData.kt.
 */
module Text {
  import opened Wrappers

  /** Kotlin's `Char.isWhitespace()`: Java whitespace plus the space separators. */
  predicate IsWhitespace(c: char) {
    c == ' ' || ('\t' <= c <= '\r') || ('\U{1C}' <= c <= '\U{1F}') ||
    c == '\U{A0}' || c == '\U{1680}' || ('\U{2000}' <= c <= '\U{200A}') ||
    c == '\U{2028}' || c == '\U{2029}' || c == '\U{202F}' || c == '\U{205F}' || c == '\U{3000}'
  }

  /** Neither starts nor ends with whitespace. */
  predicate Trimmed(s: string) {
    s == [] || (!IsWhitespace(s[0]) && !IsWhitespace(s[|s| - 1]))
  }

  function TrimStart(s: string): (r: string)
    ensures |r| <= |s| && r == s[|s| - |r|..]
    ensures forall k | 0 <= k < |s| - |r| :: IsWhitespace(s[k])
    ensures r == [] || !IsWhitespace(r[0])
  {
    if s == [] || !IsWhitespace(s[0]) then s else TrimStart(s[1..])
  }

  function TrimEnd(s: string): (r: string)
    ensures |r| <= |s| && r == s[..|r|]
    ensures forall k | |r| <= k < |s| :: IsWhitespace(s[k])
    ensures r == [] || !IsWhitespace(r[|r| - 1])
  {
    if s == [] || !IsWhitespace(s[|s| - 1]) then s else TrimEnd(s[..|s| - 1])
  }

  /** Kotlin's `String.trim()`: drops the whitespace at both ends and nothing else. */
  function Trim(s: string): (r: string)
    ensures Trimmed(r)
  {
    TrimEnd(TrimStart(s))
  }

  /**
   * What trim keeps is one slice of the input: it starts after the leading
   * whitespace, and only whitespace follows it.
   */
  lemma TrimSlice(s: string)
    ensures var i := |s| - |TrimStart(s)|; var j := i + |Trim(s)|;
      && j <= |s| && Trim(s) == s[i..j]
      && (forall k | 0 <= k < i :: IsWhitespace(s[k]))
      && (forall k | j <= k < |s| :: IsWhitespace(s[k]))
  {
    var t := TrimStart(s);
    var r := TrimEnd(t);
    var i := |s| - |t|;
    SliceOfSuffix(s, t, r, i);
    TrimEndAfter(s, t, i);
  }

  /** What TrimEnd drops from the suffix t = s[i..] is whitespace of s. */
  lemma TrimEndAfter(s: string, t: string, i: nat)
    requires i <= |s| && t == s[i..]
    ensures forall k | i + |TrimEnd(t)| <= k < |s| :: IsWhitespace(s[k])
  {
    var r := TrimEnd(t);
    forall k | i + |r| <= k < |s|
      ensures IsWhitespace(s[k])
    {
      assert s[k] == t[k - i];
    }
  }

  /** A prefix r of the suffix t = s[i..] is the slice s[i..i + |r|]. */
  lemma SliceOfSuffix(s: string, t: string, r: string, i: nat)
    requires i <= |s| && t == s[i..] && |r| <= |t| && r == t[..|r|]
    ensures s[i..i + |r|] == r
    ensures forall k | i + |r| <= k < |s| :: |r| <= k - i < |t| && s[k] == t[k - i]
  {
  }

  /** ASCII lower case; no other character folds onto a letter of "true". */
  function LowerAscii(c: char): char {
    if 'A' <= c <= 'Z' then (c as int + 32) as char else c
  }

  /** Kotlin's `String.toBoolean()`: equality with "true", ignoring case. */
  function ToBoolean(s: string): (b: bool)
    ensures b <==> |s| == 4 && forall k | 0 <= k < 4 :: s[k] == "true"[k] || s[k] == "TRUE"[k]
  {
    |s| == 4 && LowerAscii(s[0]) == 't' && LowerAscii(s[1]) == 'r' &&
    LowerAscii(s[2]) == 'u' && LowerAscii(s[3]) == 'e'
  }

  /*
   * split(source, delimiter, escape, strip)
   *
   * The loop state of the source: the piece being accumulated, whether the
   * previous character was an escape, and the pieces emitted so far.
   */
  datatype Scan = Scan(buffer: string, ignore: bool, result: seq<string>)

  function Tidy(piece: string, strip: bool): string {
    if strip then Trim(piece) else piece
  }

  /**
   * One iteration of the loop at character c; isLast is `pointer == source.length`.
   * None is the StringIndexOutOfBoundsException of `substring` when the buffer is
   * shorter than the delimiter.
   */
  function Step(st: Scan, c: char, isLast: bool, delimiter: string, escape: Option<string>, strip: bool): Option<Scan>
  {
    var buffer := st.buffer + [c];
    if |buffer| < |delimiter| then None
    else
      var consider := buffer[|buffer| - |delimiter|..];
      if consider == delimiter && !st.ignore then
        Some(Scan("", false, st.result + [Tidy(buffer[..|buffer| - |delimiter|], strip)]))
      else if isLast then
        Some(Scan(Tidy(buffer, strip), st.ignore, st.result + [Tidy(buffer, strip)]))
      else if escape.Some? && consider == escape.value then
        if st.ignore then Some(Scan(buffer + escape.value, false, st.result))
        else Some(Scan(buffer, true, st.result))
      else
        Some(Scan(buffer, false, st.result))
  }

  /** The pieces produced from position i on, starting in state st. */
  function ScanFrom(source: string, i: nat, st: Scan, delimiter: string, escape: Option<string>, strip: bool): Option<seq<string>>
    requires i <= |source|
    decreases |source| - i
  {
    if i == |source| then Some(st.result)
    else
      match Step(st, source[i], i + 1 == |source|, delimiter, escape, strip)
      case None => None
      case Some(next) => ScanFrom(source, i + 1, next, delimiter, escape, strip)
  }

  /** What split returns; None when it throws. */
  function Tokens(source: string, delimiter: string, escape: Option<string>, strip: bool): Option<seq<string>> {
    ScanFrom(source, 0, Scan("", false, []), delimiter, escape, strip)
  }

  /** The tokenizer loop as written. */
  method Split(source: string, delimiter: string, escape: Option<string>, strip: bool) returns (r: Option<seq<string>>)
    ensures r == Tokens(source, delimiter, escape, strip)
    ensures r.None? <==> source != [] && |delimiter| > 1
  {
    TokensFailure(source, delimiter, escape, strip);
    var result: seq<string> := [];
    var buffer := "";
    var ignore := false;
    var pointer := 0;
    while pointer < |source|
      invariant 0 <= pointer <= |source|
      invariant ScanFrom(source, pointer, Scan(buffer, ignore, result), delimiter, escape, strip)
             == Tokens(source, delimiter, escape, strip)
    {
      ScanFromStep(source, pointer, Scan(buffer, ignore, result), delimiter, escape, strip);
      var ok;
      ok, buffer, ignore, result := Advance(buffer, ignore, result, source[pointer], pointer + 1 == |source|, delimiter, escape, strip);
      pointer := pointer + 1;
      if !ok {
        return None;
      }
    }
    r := Some(result);
  }

  /** One pass of the loop body of split at character c; false where `substring` throws. */
  method Advance(buffer0: string, ignore0: bool, result0: seq<string>, c: char, isLast: bool,
                 delimiter: string, escape: Option<string>, strip: bool)
    returns (ok: bool, buffer: string, ignore: bool, result: seq<string>)
    ensures var next := Step(Scan(buffer0, ignore0, result0), c, isLast, delimiter, escape, strip);
      if ok then next == Some(Scan(buffer, ignore, result)) else next == None
  {
    buffer, ignore, result := buffer0 + [c], ignore0, result0;
    if |buffer| < |delimiter| {
      return false, buffer, ignore, result;
    }
    ok := true;
    var consider := buffer[|buffer| - |delimiter|..];
    if consider == delimiter && !ignore {
      buffer := buffer[..|buffer| - |delimiter|];
      if strip {
        buffer := Trim(buffer);
      }
      result := result + [buffer];
      buffer := "";
      ignore := false;
    } else if isLast {
      if strip {
        buffer := Trim(buffer);
      }
      result := result + [buffer];
    } else if escape.Some? && consider == escape.value {
      if ignore {
        buffer := buffer + escape.value;
        ignore := false;
      } else {
        ignore := true;
      }
    } else if ignore {
      ignore := false;
    }
  }

  lemma {:induction false} ScanTotal(source: string, i: nat, st: Scan, delimiter: string, escape: Option<string>, strip: bool)
    requires i <= |source| && |delimiter| <= 1
    ensures ScanFrom(source, i, st, delimiter, escape, strip).Some?
    decreases |source| - i
  {
    if i < |source| {
      var next := Step(st, source[i], i + 1 == |source|, delimiter, escape, strip);
      ScanTotal(source, i + 1, next.value, delimiter, escape, strip);
    }
  }

  /** split throws exactly when the source is non-empty and the delimiter longer than one character. */
  lemma TokensFailure(source: string, delimiter: string, escape: Option<string>, strip: bool)
    ensures Tokens(source, delimiter, escape, strip).None? <==> source != [] && |delimiter| > 1
  {
    if |delimiter| <= 1 {
      ScanTotal(source, 0, Scan("", false, []), delimiter, escape, strip);
    }
  }

  /** An empty source yields no piece at all. */
  lemma TokensOfEmpty(delimiter: string, escape: Option<string>, strip: bool)
    ensures Tokens("", delimiter, escape, strip) == Some([])
  {
  }

  /* A reference tokenizer: the pieces between the occurrences of c. */

  function Join(pieces: seq<string>, sep: string): string {
    if |pieces| == 0 then ""
    else if |pieces| == 1 then pieces[0]
    else pieces[0] + sep + Join(pieces[1..], sep)
  }

  /** The pieces between the occurrences of c, read from the front. */
  function SplitOn(s: string, c: char): (r: seq<string>)
    ensures |r| >= 1
    decreases |s|
  {
    if s == [] then [[]]
    else
      var r := SplitOn(s[1..], c);
      if s[0] == c then [[]] + r else [[s[0]] + r[0]] + r[1..]
  }

  /** Joining the reference pieces with the delimiter gives the string back. */
  lemma {:induction false} SplitOnJoin(s: string, c: char)
    ensures Join(SplitOn(s, c), [c]) == s
    decreases |s|
  {
    if s != [] {
      var r := SplitOn(s[1..], c);
      SplitOnJoin(s[1..], c);
      var tail := if |r| == 1 then [] else [c] + Join(r[1..], [c]);
      assert Join(r, [c]) == r[0] + tail;
      if s[0] == c {
        assert Join([[]] + r, [c]) == [] + [c] + Join(r, [c]);
      } else {
        var p := [[s[0]] + r[0]] + r[1..];
        assert p[1..] == r[1..];
        assert Join(p, [c]) == [s[0]] + r[0] + tail;
      }
      assert s == [s[0]] + s[1..];
    }
  }

  /** No reference piece holds the delimiter. */
  lemma {:induction false} SplitOnPiecesFree(s: string, c: char)
    ensures forall k | 0 <= k < |SplitOn(s, c)| :: c !in SplitOn(s, c)[k]
    decreases |s|
  {
    if s != [] {
      SplitOnPiecesFree(s[1..], c);
    }
  }

  /** A string without the delimiter is its own only piece. */
  lemma {:induction false} SplitOnAbsent(s: string, c: char)
    requires c !in s
    ensures SplitOn(s, c) == [s]
    decreases |s|
  {
    if s != [] {
      SplitOnAbsent(s[1..], c);
      assert [s[0]] + s[1..] == s;
    }
  }

  /** What split returns with no escape and no stripping: a trailing delimiter adds no final piece. */
  function Plain(t: string, c: char): seq<string> {
    var p := SplitOn(t, c);
    if t != [] && t[|t| - 1] == c then p[..|p| - 1] else p
  }

  lemma {:induction false} SplitOnAfterPiece(b: string, c: char, rest: string)
    requires c !in b
    ensures SplitOn(b + [c] + rest, c) == [b] + SplitOn(rest, c)
    decreases |b|
  {
    var t := b + [c] + rest;
    if b == [] {
      assert t == [c] + rest && t[1..] == rest;
    } else {
      assert t[0] == b[0] && t[1..] == b[1..] + [c] + rest;
      SplitOnAfterPiece(b[1..], c, rest);
      assert [b[0]] + b[1..] == b;
    }
  }

  lemma StepPlainDelimiter(b: string, c: char, isLast: bool, acc: seq<string>)
    ensures Step(Scan(b, false, acc), c, isLast, [c], None, false) == Some(Scan([], false, acc + [b]))
  {
    var buffer := b + [c];
    assert buffer[|buffer| - 1..] == [c];
    assert buffer[..|buffer| - 1] == b;
  }

  lemma StepPlainOther(b: string, x: char, c: char, isLast: bool, acc: seq<string>)
    requires x != c
    ensures Step(Scan(b, false, acc), x, isLast, [c], None, false)
      == Some(if isLast then Scan(b + [x], false, acc + [b + [x]]) else Scan(b + [x], false, acc))
  {
    var buffer := b + [x];
    assert buffer[|buffer| - 1..] == [x];
  }

  lemma {:induction false} PlainScan(s: string, c: char, i: nat, b: string, acc: seq<string>)
    requires i < |s| && c !in b
    ensures ScanFrom(s, i, Scan(b, false, acc), [c], None, false) == Some(acc + Plain(b + s[i..], c))
    decreases |s| - i, 1
  {
    if s[i] == c {
      ScanDelimiter(s, c, i, b, acc);
      PlainScanDelimiter(s, c, i, b, acc);
    } else {
      PlainScanOther(s, c, i, b, acc);
    }
  }

  lemma {:induction false} PlainScanDelimiter(s: string, c: char, i: nat, b: string, acc: seq<string>)
    requires i < |s| && c !in b && s[i] == c
    ensures ScanFrom(s, i + 1, Scan([], false, acc + [b]), [c], None, false) == Some(acc + Plain(b + s[i..], c))
    decreases |s| - i, 0
  {
    var rest := s[i + 1..];
    assert b + s[i..] == b + [c] + rest;
    if i + 1 == |s| {
      PlainAfterLast(b, c, acc);
      assert b + [c] + rest == b + [c];
    } else {
      PlainScan(s, c, i + 1, [], acc + [b]);
      PlainAfterMore(b, c, rest, acc);
    }
  }

  lemma PlainAfterLast(b: string, c: char, acc: seq<string>)
    requires c !in b
    ensures acc + Plain(b + [c], c) == acc + [b]
  {
    PlainAfterPiece(b, c, []);
    assert b + [c] + [] == b + [c];
  }

  lemma PlainAfterMore(b: string, c: char, rest: string, acc: seq<string>)
    requires c !in b && rest != []
    ensures acc + [b] + Plain([] + rest, c) == acc + Plain(b + [c] + rest, c)
  {
    PlainAfterPiece(b, c, rest);
    assert [] + rest == rest;
    assert acc + [b] + Plain(rest, c) == acc + ([b] + Plain(rest, c));
  }

  /** At a delimiter the buffer becomes a piece and the scan goes on with an empty buffer. */
  lemma ScanDelimiter(s: string, c: char, i: nat, b: string, acc: seq<string>)
    requires i < |s| && c !in b && s[i] == c
    ensures ScanFrom(s, i, Scan(b, false, acc), [c], None, false)
         == ScanFrom(s, i + 1, Scan([], false, acc + [b]), [c], None, false)
  {
    StepPlainDelimiter(b, c, i + 1 == |s|, acc);
    ScanFromStep(s, i, Scan(b, false, acc), [c], None, false);
  }

  lemma ScanFromStep(s: string, i: nat, st: Scan, delimiter: string, escape: Option<string>, strip: bool)
    requires i < |s|
    ensures ScanFrom(s, i, st, delimiter, escape, strip)
         == match Step(st, s[i], i + 1 == |s|, delimiter, escape, strip)
            case None => None
            case Some(next) => ScanFrom(s, i + 1, next, delimiter, escape, strip)
  {
  }

  lemma PlainAfterPiece(b: string, c: char, rest: string)
    requires c !in b
    ensures Plain(b + [c] + rest, c) == if rest == [] then [b] else [b] + Plain(rest, c)
  {
    var t := b + [c] + rest;
    SplitOnAfterPiece(b, c, rest);
    var q := SplitOn(rest, c);
    var p := [b] + q;
    assert SplitOn(t, c) == p;
    assert t != [] && |p| == |q| + 1;
    if rest == [] {
      assert q == [[]];
      assert t[|t| - 1] == c;
      assert Plain(t, c) == p[..|p| - 1];
      assert p[..|p| - 1] == [b];
    } else if rest[|rest| - 1] == c {
      assert t[|t| - 1] == c;
      assert Plain(t, c) == p[..|p| - 1];
      assert Plain(rest, c) == q[..|q| - 1];
      assert p[..|p| - 1] == [b] + q[..|q| - 1];
    } else {
      assert t[|t| - 1] != c;
      assert Plain(t, c) == p;
      assert Plain(rest, c) == q;
    }
  }

  lemma {:induction false} PlainScanOther(s: string, c: char, i: nat, b: string, acc: seq<string>)
    requires i < |s| && c !in b && s[i] != c
    ensures ScanFrom(s, i, Scan(b, false, acc), [c], None, false) == Some(acc + Plain(b + s[i..], c))
    decreases |s| - i, 0
  {
    var isLast := i + 1 == |s|;
    var buffer := b + [s[i]];
    assert b + s[i..] == buffer + s[i + 1..];
    StepPlainOther(b, s[i], c, isLast, acc);
    if isLast {
      assert buffer + s[i + 1..] == buffer;
      assert c !in buffer;
      SplitOnAbsent(buffer, c);
    } else {
      assert ScanFrom(s, i, Scan(b, false, acc), [c], None, false)
          == ScanFrom(s, i + 1, Scan(buffer, false, acc), [c], None, false);
      PlainScan(s, c, i + 1, buffer, acc);
    }
  }

  /**
   * Round trip: with a one-character delimiter, no escape and no stripping, a
   * non-empty source not ending in the delimiter is the join of its pieces, no
   * piece holds the delimiter, and a source without it is its only piece.
   */
  lemma SplitRoundTrip(s: string, c: char)
    requires s != [] && s[|s| - 1] != c
    ensures var r := Tokens(s, [c], None, false);
      && r == Some(SplitOn(s, c))
      && Join(r.value, [c]) == s
      && (forall k | 0 <= k < |r.value| :: c !in r.value[k])
      && (c !in s ==> r.value == [s])
  {
    PlainScan(s, c, 0, [], []);
    SplitOnJoin(s, c);
    SplitOnPiecesFree(s, c);
    if c !in s {
      SplitOnAbsent(s, c);
    }
    assert [] + s[0..] == s;
    assert Plain(s, c) == SplitOn(s, c);
    assert Tokens(s, [c], None, false) == Some([] + Plain(s, c));
    assert [] + Plain(s, c) == Plain(s, c);
  }

  /** A trailing delimiter closes the last piece and opens no empty one. */
  lemma SplitTrailingDelimiter(s: string, c: char)
    requires s != [] && s[|s| - 1] == c
    ensures var p := SplitOn(s, c);
      && p[|p| - 1] == []
      && Tokens(s, [c], None, false) == Some(p[..|p| - 1])
  {
    PlainScan(s, c, 0, [], []);
    assert [] + s[0..] == s;
    var p := SplitOn(s, c);
    assert Plain(s, c) == p[..|p| - 1];
    assert Tokens(s, [c], None, false) == Some([] + p[..|p| - 1]);
    assert [] + p[..|p| - 1] == p[..|p| - 1];
    SplitOnEndsEmpty(s, c);
  }

  lemma {:induction false} SplitOnEndsEmpty(s: string, c: char)
    requires s != [] && s[|s| - 1] == c
    ensures var p := SplitOn(s, c); |p| >= 2 && p[|p| - 1] == []
    decreases |s|
  {
    var rest := s[1..];
    var r := SplitOn(rest, c);
    if rest == [] {
      assert r == [[]] && s[0] == c;
      assert SplitOn(s, c) == [[]] + r;
    } else {
      assert rest[|rest| - 1] == s[|s| - 1];
      SplitOnEndsEmpty(rest, c);
      var p := if s[0] == c then [[]] + r else [[s[0]] + r[0]] + r[1..];
      assert SplitOn(s, c) == p;
      assert p[|p| - 1] == r[|r| - 1];
    }
  }

  /**
   * A trailing delimiter, for any escape and either strip setting and
   * whatever state the loop has reached before it: when it is not escaped it
   * closes the current piece without its own character and no empty piece
   * follows; when it is escaped it stays in the last piece.
   */
  lemma TrailingDelimiter(s: string, c: char, st: Scan, escape: Option<string>, strip: bool)
    requires s != [] && s[|s| - 1] == c
    ensures ScanFrom(s, |s| - 1, st, [c], escape, strip)
         == Some(st.result + [Tidy(if st.ignore then st.buffer + [c] else st.buffer, strip)])
  {
    var b := st.buffer + [c];
    assert b[|b| - 1..] == [c];
    assert b[..|b| - 1] == st.buffer;
  }

  /**
   * An escape character directly before the delimiter suppresses the split:
   * both characters stay in the piece.
   */
  lemma EscapedDelimiterKept(st: Scan, e: char, d: char, isLast: bool, strip: bool)
    requires e != d && !st.ignore
    ensures Step(st, e, false, [d], Some([e]), strip) == Some(Scan(st.buffer + [e], true, st.result))
    ensures var kept := st.buffer + [e] + [d];
      Step(Scan(st.buffer + [e], true, st.result), d, isLast, [d], Some([e]), strip)
      == Some(if isLast then Scan(Tidy(kept, strip), true, st.result + [Tidy(kept, strip)])
              else Scan(kept, false, st.result))
  {
    var b1 := st.buffer + [e];
    assert b1[|b1| - 1..] == [e];
    var b2 := b1 + [d];
    assert b2[|b2| - 1..] == [d];
  }

  /** Every piece is trimmed. */
  predicate AllTrimmed(pieces: seq<string>) {
    forall k | 0 <= k < |pieces| :: Trimmed(pieces[k])
  }

  /** With strip = true, one step only ever adds a trimmed piece. */
  lemma StepTrimmed(st: Scan, c: char, isLast: bool, delimiter: string, escape: Option<string>)
    requires AllTrimmed(st.result)
    ensures var next := Step(st, c, isLast, delimiter, escape, true);
      next.Some? ==> AllTrimmed(next.value.result)
  {
  }

  /** With strip = true every piece is trimmed. */
  lemma {:induction false} StripScan(s: string, i: nat, st: Scan, delimiter: string, escape: Option<string>)
    requires i <= |s| && AllTrimmed(st.result)
    ensures var r := ScanFrom(s, i, st, delimiter, escape, true);
      r.Some? ==> AllTrimmed(r.value)
    decreases |s| - i
  {
    if i < |s| {
      StepTrimmed(st, s[i], i + 1 == |s|, delimiter, escape);
      var next := Step(st, s[i], i + 1 == |s|, delimiter, escape, true);
      if next.Some? {
        StripScan(s, i + 1, next.value, delimiter, escape);
      }
    }
  }

  lemma SplitStripped(s: string, delimiter: string, escape: Option<string>)
    ensures var r := Tokens(s, delimiter, escape, true);
      r.Some? ==> forall k | 0 <= k < |r.value| :: Trimmed(r.value[k])
  {
    StripScan(s, 0, Scan("", false, []), delimiter, escape);
  }
}
