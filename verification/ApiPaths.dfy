/** Request paths: splitting them into segments, and rebuilding the rest of a path from them. */
module ApiPaths {

  import opened Wrappers

  predicate SlashFree(segment: string) {
    '/' !in segment
  }

  /** `base::SplitString` on slashes, keeping empty pieces. */
  function Split(p: string): (segments: seq<string>)
    ensures |segments| > 0
  {
    if p == "" then [""]
    else if p[0] == '/' then [""] + Split(p[1..])
    else
      var rest := Split(p[1..]);
      [[p[0]] + rest[0]] + rest[1..]
  }

  function StripSlash(path: string): string {
    if path != "" && path[0] == '/' then path[1..] else path
  }

  function ParsePath(path: string): seq<string> {
    if StripSlash(path) == "" then [] else Split(StripSlash(path))
  }

  /** The segments, each after a slash. */
  function Rebuilt(segments: seq<string>): string {
    if segments == [] then "" else "/" + segments[0] + Rebuilt(segments[1..])
  }

  lemma {:induction false} RebuiltAppend(a: seq<string>, b: seq<string>)
    ensures Rebuilt(a + b) == Rebuilt(a) + Rebuilt(b)
  {
    if a == [] {
      assert a + b == b;
    } else {
      RebuiltAppend(a[1..], b);
      assert (a + b)[1..] == a[1..] + b;
    }
  }

  lemma {:induction false} SplitRebuilt(p: string)
    ensures Rebuilt(Split(p)) == "/" + p
    ensures forall i :: 0 <= i < |Split(p)| ==> SlashFree(Split(p)[i])
  {
    if p == "" {
      assert Rebuilt([""]) == "/" + "" + Rebuilt([]);
    } else {
      SplitRebuilt(p[1..]);
      var rest := Split(p[1..]);
      assert p == [p[0]] + p[1..];
      if p[0] == '/' {
        assert Split(p)[1..] == rest;
      } else {
        assert Split(p) == [[p[0]] + rest[0]] + rest[1..];
        RebuiltLonger(p[0], rest);
        assert ("/" + p[1..])[1..] == p[1..];
      }
    }
  }

  lemma RebuiltHead(segments: seq<string>)
    requires segments != []
    ensures Rebuilt(segments) == "/" + Rebuilt(segments)[1..]
    ensures Rebuilt(segments)[1..] == segments[0] + Rebuilt(segments[1..])
  {
  }

  /** A character in front of the first segment comes right after the first slash. */
  lemma RebuiltLonger(c: char, segments: seq<string>)
    requires segments != []
    ensures Rebuilt([[c] + segments[0]] + segments[1..]) == "/" + ([c] + Rebuilt(segments)[1..])
  {
    hide Rebuilt;
    var longer := [[c] + segments[0]] + segments[1..];
    RebuiltHead(segments);
    RebuiltHead(longer);
    assert longer[1..] == segments[1..];
    assert [c] + segments[0] + Rebuilt(segments[1..]) == [c] + (segments[0] + Rebuilt(segments[1..]));
  }

  lemma {:induction false} SplitSegment(segment: string, rest: string)
    requires SlashFree(segment)
    ensures Split(segment) == [segment]
    ensures Split(segment + "/" + rest) == [segment] + Split(rest)
  {
    if segment == "" {
      assert segment + "/" + rest == "/" + rest;
    } else {
      SplitSegment(segment[1..], rest);
      assert segment == [segment[0]] + segment[1..];
      assert (segment + "/" + rest)[1..] == segment[1..] + "/" + rest;
    }
  }

  lemma {:induction false} SplitOfRebuilt(segments: seq<string>)
    requires segments != [] && forall i :: 0 <= i < |segments| ==> SlashFree(segments[i])
    ensures Split(Rebuilt(segments)[1..]) == segments
  {
    hide Rebuilt, Split;
    RebuiltHead(segments);
    var tail := Rebuilt(segments[1..]);
    if |segments| == 1 {
      assert segments[1..] == [] && segments == [segments[0]];
      RebuiltNone();
      assert segments[0] + "" == segments[0];
      SplitSegment(segments[0], "");
    } else {
      SplitOfRebuilt(segments[1..]);
      RebuiltHead(segments[1..]);
      assert segments[0] + tail == segments[0] + "/" + tail[1..];
      SplitSegment(segments[0], tail[1..]);
    }
  }

  lemma RebuiltNone()
    ensures Rebuilt([]) == ""
  {
  }

  /** Paths and their segments: a path with segments is their rebuilding, up to the slash in front that may be missing;
      and slash-free segments are parsed back from their path, except the single empty one. */
  lemma PathRoundTrip(path: string)
    ensures ParsePath(path) != [] ==> Rebuilt(ParsePath(path)) == "/" + StripSlash(path)
    ensures ParsePath(path) == [] <==> path == "" || path == "/"
  {
    SplitRebuilt(StripSlash(path));
  }

  lemma SegmentsRoundTrip(segments: seq<string>)
    requires forall i :: 0 <= i < |segments| ==> SlashFree(segments[i])
    ensures ParsePath(Rebuilt(segments)) == segments <==> segments != [""]
  {
    if segments != [] {
      SplitOfRebuilt(segments);
      assert Rebuilt(segments)[0] == '/';
      if segments == [""] {
        assert Rebuilt(segments) == "/" + "" + Rebuilt([]);
      }
    }
  }

  /** The loop that rebuilds what follows the first four segments; it yields the exact rest of the path. */
  method Subpath(path: string, segments: seq<string>) returns (subpath: string)
    requires segments == ParsePath(path) && |segments| >= 4
    ensures subpath == Rebuilt(segments[4..])
    ensures "/" + StripSlash(path) == Rebuilt(segments[..4]) + subpath
  {
    subpath := "";
    var i := 4;
    while i < |segments|
      invariant 4 <= i <= |segments| && subpath == Rebuilt(segments[4..i])
    {
      RebuiltAppend(segments[4..i], [segments[i]]);
      assert segments[4..i + 1] == segments[4..i] + [segments[i]];
      assert [segments[i]][1..] == [];
      subpath := subpath + ("/" + segments[i]);
      i := i + 1;
    }
    assert segments[4..i] == segments[4..] && segments == segments[..4] + segments[4..];
    PathRoundTrip(path);
    RebuiltAppend(segments[..4], segments[4..]);
  }

  // --- The parser of the unit test -------------------------------------------------------------------------

  function NonEmpty(segments: seq<string>): seq<string> {
    if segments == [] then []
    else (if segments[0] == "" then [] else [segments[0]]) + NonEmpty(segments[1..])
  }

  /** `path.find('/', start)`. */
  function FindSlash(path: string, start: nat): (end: Option<nat>)
    requires start <= |path|
    ensures end.None? ==> SlashFree(path[start..])
    ensures end.Some? ==> start <= end.value < |path| && path[end.value] == '/' && SlashFree(path[start..end.value])
    decreases |path| - start
  {
    if start == |path| then None
    else if path[start] == '/' then Some(start)
    else
      var end := FindSlash(path, start + 1);
      assert path[start..] == [path[start]] + path[start + 1..];
      assert end.Some? ==> path[start..end.value] == [path[start]] + path[start + 1..end.value];
      end
  }

  lemma ScanNothing()
    ensures NonEmpty([]) == [] && NonEmpty(Split("")) == []
  {
  }

  lemma ScanEnd(segment: string)
    requires SlashFree(segment) && segment != ""
    ensures NonEmpty(Split(segment)) == [segment]
  {
    SplitSegment(segment, "");
  }

  lemma ScanStep(segment: string, rest: string)
    requires SlashFree(segment)
    ensures NonEmpty(Split(segment + "/" + rest)) == (if segment == "" then [] else [segment]) + NonEmpty(Split(rest))
  {
    SplitSegment(segment, rest);
    assert ([segment] + Split(rest))[1..] == Split(rest);
  }

  /** The scanning parser the unit test holds as a copy of `ParsePath`. */
  method ScanPath(path: string) returns (segments: seq<string>)
    ensures segments == NonEmpty(ParsePath(path))
  {
    hide Split, NonEmpty;
    segments := [];
    assert NonEmpty([]) == [] && NonEmpty(Split("")) == [] by { ScanNothing(); }
    if path == "" || path == "/" {
      return;
    }
    var start := if path[0] == '/' then 1 else 0;
    assert path[start..] == StripSlash(path);
    while start < |path|
      invariant 0 <= start <= |path|
      invariant segments + NonEmpty(Split(path[start..])) == NonEmpty(ParsePath(path))
      decreases |path| - start
    {
      var end := FindSlash(path, start);
      if end.None? {
        ScanEnd(path[start..]);
        segments := segments + [path[start..]];
        return;
      }
      var segment, rest := path[start..end.value], path[end.value + 1..];
      assert path[start..] == segment + "/" + rest;
      ScanStep(segment, rest);
      if end.value > start {
        segments := segments + [segment];
      }
      start := end.value + 1;
    }
    assert path[start..] == "";
  }

  lemma {:induction false} NonEmptyKeepsAll(segments: seq<string>)
    ensures NonEmpty(segments) == segments <==> "" !in segments
    ensures |NonEmpty(segments)| <= |segments|
  {
    if segments == [] {
    } else {
      NonEmptyKeepsAll(segments[1..]);
      assert segments == [segments[0]] + segments[1..];
      if segments[0] == "" {
        assert |NonEmpty(segments)| < |segments|;
      } else {
        assert NonEmpty(segments)[1..] == NonEmpty(segments[1..]);
      }
    }
  }

  predicate Doubled(p: string) {
    exists i :: 0 <= i < |p| - 1 && p[i] == '/' == p[i + 1]
  }

  predicate EndsWithSlash(p: string) {
    p != "" && p[|p| - 1] == '/'
  }

  lemma DoubledTail(p: string)
    requires p != ""
    ensures Doubled(p) <==> (|p| > 1 && p[0] == '/' == p[1]) || Doubled(p[1..])
  {
    if i :| 0 <= i < |p| - 1 && p[i] == '/' == p[i + 1] {
      if i > 0 {
        assert p[1..][i - 1] == '/' == p[1..][i];
      }
    }
    if i :| 0 <= i < |p| - 2 && p[1..][i] == '/' == p[1..][i + 1] {
      assert p[i + 1] == '/' == p[i + 2];
    }
  }

  /** Which texts split into an empty piece, and which into one after the first. */
  lemma {:induction false} EmptyPieces(p: string)
    ensures "" in Split(p) <==> p == "" || p[0] == '/' || EndsWithSlash(p) || Doubled(p)
    ensures "" in Split(p)[1..] <==> EndsWithSlash(p) || Doubled(p)
  {
    if p == "" {
      assert !Doubled(p);
    } else {
      hide Doubled;
      var rest := Split(p[1..]);
      EmptyPieces(p[1..]);
      DoubledTail(p);
      assert |p| > 1 ==> p[1..][0] == p[1] && p[1..][|p| - 2] == p[|p| - 1];
      if p[0] == '/' {
        assert Split(p) == [""] + rest && Split(p)[1..] == rest;
      } else {
        assert Split(p) == [[p[0]] + rest[0]] + rest[1..] && Split(p)[1..] == rest[1..];
        assert p[1..] == "" ==> !Doubled(p[1..]) by { NothingDoubled(); }
      }
    }
  }

  lemma NothingDoubled()
    ensures !Doubled("")
  {
  }

  /** The copy is not faithful.  The two parsers agree exactly on the paths that, after the one slash they may start
      with, are empty or have no slash at either end and no two in a row. */
  lemma ParsersAgreeExactly(path: string)
    ensures var p := StripSlash(path);
            NonEmpty(ParsePath(path)) == ParsePath(path) <==>
              p == "" || (p[0] != '/' && !EndsWithSlash(p) && !Doubled(p))
  {
    hide Doubled, EndsWithSlash, Split;
    NonEmptyKeepsAll(ParsePath(path));
    EmptyPieces(StripSlash(path));
  }
}
