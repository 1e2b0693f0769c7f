/** `PurePosixPath` of Python's pathlib. */
module PosixPath {
  import opened Sequences

  /** The text up to the next slash, and what follows the slash. */
  function Segments(text: string, current: string): seq<string>
    decreases |text|
  {
    if |text| == 0 then [current]
    else if text[0] == '/' then [current] + Segments(text[1..], "")
    else Segments(text[1..], current + [text[0]])
  }

  function IsNamed(segment: string): bool {
    segment != "" && segment != "."
  }

  function LeadingSlashes(text: string): nat {
    if |text| > 0 && text[0] == '/' then 1 + LeadingSlashes(text[1..]) else 0
  }

  /** The root of a POSIX path: two slashes are kept, three or more are one. */
  function Root(filename: string): seq<string> {
    if LeadingSlashes(filename) == 0 then []
    else if LeadingSlashes(filename) == 2 then ["//"]
    else ["/"]
  }

  /** `PurePosixPath(filename).parts`. */
  function Parts(filename: string): seq<string> {
    Root(filename) + Filter(Segments(filename, ""), IsNamed)
  }

  predicate IsAbsolute(filename: string) {
    |Root(filename)| > 0
  }

  lemma {:induction false} SegmentsHaveNoSlash(text: string, current: string)
    requires '/' !in current
    ensures forall segment :: segment in Segments(text, current) ==> '/' !in segment
  {
    if |text| > 0 {
      SegmentsHaveNoSlash(text[1..], if text[0] == '/' then "" else current + [text[0]]);
    }
  }

  /** A path is absolute exactly when its first part starts with a slash. */
  lemma FirstPartShowsRoot(filename: string)
    ensures IsAbsolute(filename) <==> |Parts(filename)| > 0 && '/' in Parts(filename)[0]
  {
    hide LeadingSlashes;
    SegmentsHaveNoSlash(filename, "");
    FilterMeans(Segments(filename, ""), IsNamed);
    hide Segments, Filter;
    var root, rest := Root(filename), Filter(Segments(filename, ""), IsNamed);
    if |root| > 0 {
      assert root[0][0] == '/';
    } else {
      assert Parts(filename) == rest;
      if |rest| > 0 {
        assert rest[0] in rest;
      }
    }
  }

  function Joined(parts: seq<string>): string {
    if |parts| == 0 then ""
    else if |parts| == 1 then parts[0]
    else parts[0] + "/" + Joined(parts[1..])
  }

  /** `as_posix` of a relative path. */
  function AsPosix(parts: seq<string>): string {
    if |parts| == 0 then "." else Joined(parts)
  }

  function LastDot(name: string): int {
    if |name| == 0 then -1
    else if name[|name| - 1] == '.' then |name| - 1
    else LastDot(name[..|name| - 1])
  }

  /** `suffix` of a final path part: empty when the only dot is the first or the last character. */
  function Suffix(name: string): string {
    var dot := LastDot(name);
    if 0 < dot < |name| - 1 then name[dot..] else ""
  }

  // ---------------------------------------------------------------- what the functions above mean

  /** Pieces without a slash that give the text when slashes are put between them. */
  predicate AreSegments(text: string, segments: seq<string>) {
    && |segments| > 0
    && (forall i :: 0 <= i < |segments| ==> '/' !in segments[i])
    && Joined(segments) == text
  }

  lemma {:induction false} SegmentsJoin(text: string, current: string)
    requires '/' !in current
    ensures AreSegments(current + text, Segments(text, current))
    decreases |text|
  {
    if |text| == 0 {
      assert current + text == current;
    } else if text[0] == '/' {
      SegmentsJoin(text[1..], "");
      assert "" + text[1..] == text[1..];
      assert ([current] + Segments(text[1..], ""))[1..] == Segments(text[1..], "");
      assert current + "/" + text[1..] == current + text;
    } else {
      SegmentsJoin(text[1..], current + [text[0]]);
      assert (current + [text[0]]) + text[1..] == current + text;
    }
  }

  /** Where the first slash stands decides the first piece. */
  lemma FirstSlash(a: string, b: string, restA: string, restB: string)
    requires '/' !in a && '/' !in b && a + "/" + restA == b + "/" + restB
    ensures a == b && restA == restB
  {
    var whole := a + "/" + restA;
    assert forall i :: 0 <= i < |a| ==> whole[i] == a[i] != '/';
    assert forall i :: 0 <= i < |b| ==> whole[i] == b[i] != '/';
    assert whole[|a|] == '/' && whole[|b|] == '/';
    assert a == whole[..|a|] && b == whole[..|b|];
    assert restA == whole[|a| + 1..] && restB == whole[|b| + 1..];
  }

  lemma {:induction false} JoinedSlash(parts: seq<string>)
    requires forall i :: 0 <= i < |parts| ==> '/' !in parts[i]
    ensures '/' in Joined(parts) <==> |parts| > 1
  {
    if |parts| > 1 {
      assert Joined(parts)[|parts[0]|] == '/';
    }
  }

  lemma {:induction false} JoinedIsInjective(a: seq<string>, b: seq<string>)
    requires AreSegments(Joined(b), a) && AreSegments(Joined(a), b)
    ensures a == b
    decreases |a|
  {
    JoinedSlash(a);
    JoinedSlash(b);
    if |a| > 1 {
      FirstSlash(a[0], b[0], Joined(a[1..]), Joined(b[1..]));
      JoinedIsInjective(a[1..], b[1..]);
      assert a == [a[0]] + a[1..] && b == [b[0]] + b[1..];
    }
  }

  /** There is one way to cut a text at its slashes, and `Segments` finds it. */
  lemma SegmentsExactly(text: string, segments: seq<string>)
    ensures AreSegments(text, segments) <==> segments == Segments(text, "")
  {
    SegmentsJoin(text, "");
    assert "" + text == text;
    if AreSegments(text, segments) {
      JoinedIsInjective(segments, Segments(text, ""));
    }
  }

  /** The pieces that name something: empty ones and dots are dropped. */
  function WithoutDots(segments: seq<string>): (named: seq<string>) {
    if |segments| == 0 then []
    else if segments[0] in {"", "."} then WithoutDots(segments[1..])
    else [segments[0]] + WithoutDots(segments[1..])
  }

  lemma {:induction false} NamedAreKept(segments: seq<string>)
    ensures Filter(segments, IsNamed) == WithoutDots(segments)
  {
    if |segments| > 0 {
      NamedAreKept(segments[1..]);
    }
  }

  /** The parts of a path: its root, with two leading slashes kept apart from one and from more, and
      then the pieces between the slashes that name something. */
  lemma PartsMean(filename: string, segments: seq<string>)
    requires AreSegments(filename, segments)
    ensures Parts(filename) ==
      (if filename == "" || filename[0] != '/' then []
       else if |filename| >= 2 && filename[1] == '/' && (|filename| == 2 || filename[2] != '/') then ["//"]
       else ["/"]) + WithoutDots(segments)
  {
    SegmentsExactly(filename, segments);
    NamedAreKept(segments);
    hide Segments, Filter, WithoutDots, Joined, AreSegments;
    if |filename| >= 1 && filename[0] == '/' {
      assert LeadingSlashes(filename) == 1 + LeadingSlashes(filename[1..]);
      if |filename| >= 2 && filename[1] == '/' {
        assert filename[1..][0] == '/';
        assert filename[1..][1..] == filename[2..];
        assert LeadingSlashes(filename[1..]) == 1 + LeadingSlashes(filename[2..]);
        if |filename| >= 3 && filename[2] == '/' {
          assert filename[2..][0] == '/';
          assert LeadingSlashes(filename[2..]) >= 1;
        } else {
          assert LeadingSlashes(filename[2..]) == 0;
        }
      } else {
        assert LeadingSlashes(filename[1..]) == 0;
      }
    }
  }

  predicate AreNamed(parts: seq<string>) {
    forall i :: 0 <= i < |parts| ==> parts[i] !in {"", "."} && '/' !in parts[i]
  }

  lemma {:induction false} NothingIsDropped(parts: seq<string>)
    requires AreNamed(parts)
    ensures WithoutDots(parts) == parts
  {
    if |parts| > 0 {
      NothingIsDropped(parts[1..]);
      assert parts == [parts[0]] + parts[1..];
    }
  }

  /** Written out and read again, named parts come back; no part at all is written as a dot. */
  lemma AsPosixRoundTrips(parts: seq<string>)
    requires AreNamed(parts)
    ensures Parts(AsPosix(parts)) == parts
    ensures parts == [] ==> AsPosix(parts) == "."
    ensures parts != [] ==> AreSegments(AsPosix(parts), parts)
  {
    if parts == [] {
      assert AreSegments(".", ["."]);
      PartsMean(".", ["."]);
    } else {
      NothingIsDropped(parts);
      assert AreSegments(Joined(parts), parts);
      PartsMean(Joined(parts), parts);
      assert Joined(parts)[0] == parts[0][0];
    }
  }

  lemma {:induction false} LastDotIsLast(stem: string, rest: string)
    requires '.' !in rest
    ensures LastDot(stem + "." + rest) == |stem|
    decreases |rest|
  {
    var name := stem + "." + rest;
    if |rest| == 0 {
      assert name[|name| - 1] == '.';
    } else {
      assert name[|name| - 1] == rest[|rest| - 1];
      assert name[..|name| - 1] == stem + "." + rest[..|rest| - 1];
      LastDotIsLast(stem, rest[..|rest| - 1]);
    }
  }

  lemma {:induction false} NoDot(name: string)
    requires '.' !in name
    ensures LastDot(name) == -1
    decreases |name|
  {
    if |name| > 0 {
      NoDot(name[..|name| - 1]);
    }
  }

  /** The suffix is the last dot and what follows it, unless nothing stands on one side of the dot. */
  lemma SuffixMeans(stem: string, rest: string)
    requires '.' !in rest
    ensures Suffix(stem + "." + rest) == if stem == "" || rest == "" then "" else "." + rest
    ensures Suffix(rest) == ""
  {
    LastDotIsLast(stem, rest);
    NoDot(rest);
    assert (stem + "." + rest)[|stem|..] == "." + rest;
  }
}
