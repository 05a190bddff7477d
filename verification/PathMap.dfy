/** Translating paths between the upstream layout and the cleaned one. */
module PathMap {
  import opened Prelude

  // ----------------------------------------------------------------------
  // Strings

  predicate Without(s: string, c: char) { forall i :: 0 <= i < |s| ==> s[i] != c }

  function Replace(s: string): (r: string)
    ensures |r| == |s| && forall i :: 0 <= i < |s| ==> r[i] == if s[i] == '\\' then '/' else s[i]
  {
    if s == "" then "" else [if s[0] == '\\' then '/' else s[0]] + Replace(s[1..])
  }

  function StripLeft(s: string): string {
    if s != "" && s[0] == '/' then StripLeft(s[1..]) else s
  }

  function StripRight(s: string): string {
    if s != "" && s[|s| - 1] == '/' then StripRight(s[..|s| - 1]) else s
  }

  function Normalize(path: string): string { StripRight(StripLeft(Replace(path))) }

  /** A path that normalizing leaves alone: not empty, no backslash, no slash at an end. */
  predicate Clean(p: string) {
    p != "" && Without(p, '\\') && p[0] != '/' && p[|p| - 1] != '/'
  }

  lemma {:induction false} StripLeftShape(s: string)
    requires Without(s, '\\')
    ensures Without(StripLeft(s), '\\') && (StripLeft(s) != "" ==> StripLeft(s)[0] != '/')
    decreases |s|
  {
    if s != "" && s[0] == '/' {
      StripLeftShape(s[1..]);
    }
  }

  lemma {:induction false} StripRightShape(s: string)
    requires Without(s, '\\') && (s != "" ==> s[0] != '/')
    ensures StripRight(s) == "" || Clean(StripRight(s))
    decreases |s|
  {
    if s != "" && s[|s| - 1] == '/' {
      StripRightShape(s[..|s| - 1]);
    }
  }

  lemma {:induction false} NormalizeCleans(path: string)
    ensures Normalize(path) == "" || Clean(Normalize(path))
  {
    assert Without(Replace(path), '\\');
    StripLeftShape(Replace(path));
    StripRightShape(StripLeft(Replace(path)));
  }

  lemma {:induction false} NormalizeKeepsClean(p: string)
    requires Clean(p)
    ensures Normalize(p) == p
  {
    assert Replace(p) == p;
  }

  /** Where the first slash is, or the length. */
  function SlashAt(s: string): (at: nat)
    ensures at <= |s| && Without(s[..at], '/') && (at < |s| ==> s[at] == '/')
  {
    if s == "" || s[0] == '/' then 0
    else
      var at := SlashAt(s[1..]);
      assert s[..at + 1] == [s[0]] + s[1..][..at];
      at + 1
  }

  function First(s: string): string { s[..SlashAt(s)] }

  /** What `partition` leaves behind the first slash. */
  function Rest(s: string): string { if SlashAt(s) < |s| then s[SlashAt(s) + 1..] else "" }

  function Split(s: string): (parts: seq<string>)
    ensures parts != []
    decreases |s|
  {
    if SlashAt(s) < |s| then [First(s)] + Split(Rest(s)) else [s]
  }

  function Join(parts: seq<string>): string {
    if parts == [] then "" else if |parts| == 1 then parts[0] else parts[0] + "/" + Join(parts[1..])
  }

  lemma {:induction false} FirstAndRest(s: string)
    requires SlashAt(s) < |s|
    ensures s == First(s) + "/" + Rest(s)
  {
    var at := SlashAt(s);
    assert s == s[..at] + [s[at]] + s[at + 1..];
  }

  lemma {:induction false} JoinOnto(a: string, rest: seq<string>)
    requires rest != []
    ensures Join([a] + rest) == a + "/" + Join(rest)
  {
    assert ([a] + rest)[1..] == rest;
  }

  lemma {:induction false} JoinInvertsSplit(s: string)
    ensures Join(Split(s)) == s
    decreases |s|
  {
    if SlashAt(s) < |s| {
      JoinInvertsSplit(Rest(s));
      JoinOnto(First(s), Split(Rest(s)));
      FirstAndRest(s);
    }
  }

  lemma {:induction false} SlashBehind(a: string, b: string)
    requires Without(a, '/')
    ensures SlashAt(a) == |a| && SlashAt(a + "/" + b) == |a|
  {
    if a != "" {
      SlashBehind(a[1..], b);
      assert (a + "/" + b)[1..] == a[1..] + "/" + b;
    }
  }

  lemma {:induction false} FirstSlash(a: string, b: string)
    requires Without(a, '/')
    ensures First(a + "/" + b) == a && Rest(a + "/" + b) == b && First(a) == a && Rest(a) == ""
    ensures Split(a + "/" + b) == [a] + Split(b) && Split(a) == [a]
  {
    SlashBehind(a, b);
  }

  predicate StartsWith(s: string, prefix: string) { |prefix| <= |s| && s[..|prefix|] == prefix }

  ghost predicate Segments(parts: seq<string>) {
    parts != [] && forall i :: 0 <= i < |parts| ==> Without(parts[i], '/')
  }

  lemma {:induction false} SplitSegments(s: string)
    ensures Segments(Split(s))
    decreases |s|
  {
    if SlashAt(s) < |s| {
      SplitSegments(Rest(s));
    } else {
      assert s == s[..SlashAt(s)];
    }
  }

  /** Splitting undoes joining, so paths and lists of segments are the same thing. */
  lemma {:induction false} SplitInvertsJoin(parts: seq<string>)
    requires Segments(parts)
    ensures Split(Join(parts)) == parts
  {
    FirstSlash(parts[0], "");
    if 1 < |parts| {
      SplitInvertsJoin(parts[1..]);
      FirstSlash(parts[0], Join(parts[1..]));
      assert parts == [parts[0]] + parts[1..];
    }
  }

  lemma {:induction false} JoinInjective(a: seq<string>, b: seq<string>)
    requires Segments(a) && Segments(b)
    ensures Join(a) == Join(b) <==> a == b
  {
    SplitInvertsJoin(a);
    SplitInvertsJoin(b);
  }

  /** The segments of a path that normalizing leaves alone. */
  ghost predicate CleanSegments(parts: seq<string>) {
    && Segments(parts) && (forall i :: 0 <= i < |parts| ==> Without(parts[i], '\\'))
    && parts[0] != "" && parts[|parts| - 1] != ""
  }

  lemma {:induction false} JoinEnds(parts: seq<string>)
    requires Segments(parts) && parts[|parts| - 1] != ""
    ensures Join(parts) != "" && Join(parts)[|Join(parts)| - 1] != '/'
    ensures (forall i :: 0 <= i < |parts| ==> Without(parts[i], '\\')) ==> Without(Join(parts), '\\')
  {
    if 1 < |parts| {
      JoinEnds(parts[1..]);
    }
  }

  lemma {:induction false} JoinIsClean(parts: seq<string>)
    requires CleanSegments(parts)
    ensures Clean(Join(parts)) && Normalize(Join(parts)) == Join(parts)
  {
    JoinEnds(parts);
    assert Join(parts)[0] == parts[0][0];
    NormalizeKeepsClean(Join(parts));
  }

  lemma {:induction false} LastOfSplit(s: string)
    requires s != "" && s[|s| - 1] != '/'
    ensures Split(s)[|Split(s)| - 1] != ""
    decreases |s|
  {
    if SlashAt(s) < |s| {
      assert Rest(s) != "" && Rest(s)[|Rest(s)| - 1] == s[|s| - 1];
      LastOfSplit(Rest(s));
    }
  }

  lemma {:induction false} SplitWithout(s: string)
    requires Without(s, '\\')
    ensures forall i :: 0 <= i < |Split(s)| ==> Without(Split(s)[i], '\\')
    decreases |s|
  {
    if SlashAt(s) < |s| {
      SplitWithout(Rest(s));
    }
  }

  lemma {:induction false} SplitIsClean(p: string)
    requires Clean(p)
    ensures CleanSegments(Split(p)) && Join(Split(p)) == p
  {
    SplitSegments(p);
    LastOfSplit(p);
    SplitWithout(p);
    JoinInvertsSplit(p);
    assert SlashAt(p) != 0;
  }

  lemma {:induction false} PrefixSplits(p: string, a: string)
    requires Without(a, '/') && StartsWith(p, a + "/")
    ensures Split(p) == [a] + Split(p[|a| + 1..])
  {
    assert p == a + "/" + p[|a| + 1..];
    FirstSlash(a, p[|a| + 1..]);
  }

  lemma {:induction false} SplitStarts(p: string, a: string)
    requires 2 <= |Split(p)| && Split(p)[0] == a
    ensures StartsWith(p, a + "/")
  {
    JoinInvertsSplit(p);
  }

  lemma {:induction false} WholeSplit(p: string, a: string)
    requires Without(a, '/')
    ensures p == a <==> Split(p) == [a]
  {
    JoinInvertsSplit(p);
    FirstSlash(a, "");
  }

  /** A path starts with a segment and a slash exactly when the segment is its first of
      several; the rest of the path is then its other segments. */
  lemma {:induction false} PrefixTest(p: string, a: string)
    requires Without(a, '/')
    ensures p == a <==> Split(p) == [a]
    ensures StartsWith(p, a + "/") <==> 2 <= |Split(p)| && Split(p)[0] == a
    ensures StartsWith(p, a + "/") ==>
              p[|a| + 1..] == Join(Split(p)[1..]) && Split(p[|a| + 1..]) == Split(p)[1..]
  {
    WholeSplit(p, a);
    if StartsWith(p, a + "/") {
      PrefixSplits(p, a);
      JoinInvertsSplit(p[|a| + 1..]);
    } else if 2 <= |Split(p)| && Split(p)[0] == a {
      SplitStarts(p, a);
    }
  }

  lemma {:induction false} TwoPrefixes(p: string, a: string, b: string)
    ensures StartsWith(p, a + "/" + b + "/") <==> StartsWith(p, a + "/") && StartsWith(p[|a| + 1..], b + "/")
    ensures p == a + "/" + b <==> StartsWith(p, a + "/") && p[|a| + 1..] == b
    ensures StartsWith(p, a + "/" + b + "/") ==> p[|a| + |b| + 2..] == p[|a| + 1..][|b| + 1..]
  {
    var both := a + "/" + b + "/";
    if StartsWith(p, both) {
      assert p[..|a| + 1] == both[..|a| + 1] == a + "/";
      assert p[|a| + 1..][..|b| + 1] == both[|a| + 1..] == b + "/";
    }
    if StartsWith(p, a + "/") {
      assert p == (a + "/") + p[|a| + 1..];
      if StartsWith(p[|a| + 1..], b + "/") {
        assert p[|a| + 1..] == (b + "/") + p[|a| + 1..][|b| + 1..];
        assert p == both + p[|a| + 1..][|b| + 1..];
      }
    }
  }

  /** The same for two segments. */
  lemma {:induction false} PrefixTest2(p: string, a: string, b: string)
    requires Without(a, '/') && Without(b, '/')
    ensures p == a + "/" + b <==> Split(p) == [a, b]
    ensures StartsWith(p, a + "/" + b + "/") <==> 3 <= |Split(p)| && Split(p)[0] == a && Split(p)[1] == b
    ensures StartsWith(p, a + "/" + b + "/") ==> p[|a| + |b| + 2..] == Join(Split(p)[2..])
  {
    TwoPrefixes(p, a, b);
    PrefixTest(p, a);
    var parts := Split(p);
    if StartsWith(p, a + "/") {
      PrefixTest(p[|a| + 1..], b);
      assert parts == [a] + parts[1..];
      assert parts[1..][1..] == parts[2..];
    }
  }

  // ----------------------------------------------------------------------
  // The translation

  /** The directory names the two layouts use, and the mark on removed paths. */
  datatype Layout = Layout(
    bin: string,
    apps: string,
    crates: string,
    programs: string,
    removed: set<string>,
    mark: string)

  const LAYOUT := Layout("bin", "apps", "crates", "programs", {"examples", "ci", "infra", ".buildkite"}, "removed:")

  predicate IsName(s: string) { s != "" && Without(s, '/') && Without(s, '\\') }

  function Under(directory: string, rest: string): string {
    if rest != "" then directory + "/" + rest else directory
  }

  /** The translation of a normalized path that is not empty. */
  function PlaceNormalized(l: Layout, p: string, index: map<string, string>): string {
    var first, rest := First(p), Rest(p);
    if first in l.removed then l.mark + p
    else if first == l.apps then Under(l.bin, rest)
    else if first == l.programs then Under(l.crates + "/" + l.programs, rest)
    else if first in index then Under(index[first], rest)
    else p
  }

  function FromUpstream(l: Layout, path: string, index: map<string, string>): string {
    if Normalize(path) == "" then "." else PlaceNormalized(l, Normalize(path), index)
  }

  function UnmoveNormalized(l: Layout, p: string): string {
    if p == l.bin then l.apps
    else if StartsWith(p, l.bin + "/") then l.apps + "/" + p[|l.bin| + 1..]
    else if p == l.crates + "/" + l.programs then l.programs
    else if StartsWith(p, l.crates + "/" + l.programs + "/") then l.programs + "/" + p[|l.crates| + |l.programs| + 2..]
    else
      var parts := Split(p);
      if 3 <= |parts| && parts[0] == l.crates && parts[1] != l.programs
      then Under(parts[2], Join(parts[3..]))
      else p
  }

  function FromClean(l: Layout, path: string): string {
    if Normalize(path) == "" then "." else UnmoveNormalized(l, Normalize(path))
  }

  /** What the round trips need of a layout: plain, distinct names. */
  ghost predicate GoodLayout(l: Layout) {
    && IsName(l.bin) && IsName(l.apps) && IsName(l.crates) && IsName(l.programs) && IsName(l.mark)
    && l.bin != l.apps && l.bin != l.crates && l.bin != l.programs
    && l.apps != l.crates && l.apps != l.programs && l.crates != l.programs
    && l.bin !in l.removed && l.apps !in l.removed && l.crates !in l.removed && l.programs !in l.removed
    && !StartsWith(l.bin, l.mark) && !StartsWith(l.crates, l.mark)
  }

  lemma {:induction false} LayoutIsGood()
    ensures GoodLayout(LAYOUT)
  {
  }

  // ----------------------------------------------------------------------
  // The translation on segments

  lemma {:induction false} JoinAppend(a: seq<string>, b: seq<string>)
    requires a != [] && b != []
    ensures Join(a + b) == Join(a) + "/" + Join(b)
  {
    if |a| == 1 {
      assert (a + b)[1..] == b;
    } else {
      JoinAppend(a[1..], b);
      assert (a + b)[1..] == a[1..] + b;
    }
  }

  /** From the cleaned layout back to upstream. */
  function Unmoved(l: Layout, parts: seq<string>): seq<string>
    requires parts != []
  {
    if parts[0] == l.bin then [l.apps] + parts[1..]
    else if 2 <= |parts| && parts[0] == l.crates && parts[1] == l.programs then [l.programs] + parts[2..]
    else if 3 <= |parts| && parts[0] == l.crates then parts[2..]
    else parts
  }

  lemma {:induction false} RejoinTail(parts: seq<string>)
    requires CleanSegments(parts) && 3 <= |parts|
    ensures Join(parts[2..]) == Under(parts[2], Join(parts[3..]))
  {
    if 3 < |parts| {
      assert parts[2..][1..] == parts[3..];
      JoinEnds(parts[3..]);
    } else {
      assert parts[3..] == [] && parts[2..] == [parts[2]];
    }
  }

  lemma {:induction false} JoinCons(a: string, rest: seq<string>)
    ensures Join([a] + rest) == if rest == [] then a else a + "/" + Join(rest)
  {
    assert ([a] + rest)[1..] == rest;
  }

  lemma {:induction false} UnmoveBin(l: Layout, parts: seq<string>)
    requires GoodLayout(l) && CleanSegments(parts) && parts[0] == l.bin
    ensures UnmoveNormalized(l, Join(parts)) == Join([l.apps] + parts[1..])
  {
    SplitInvertsJoin(parts);
    PrefixTest(Join(parts), l.bin);
    JoinCons(l.apps, parts[1..]);
    assert |parts| == 1 ==> parts == [l.bin];
  }

  lemma {:induction false} NotUnderBin(l: Layout, parts: seq<string>)
    requires GoodLayout(l) && CleanSegments(parts) && parts[0] != l.bin
    ensures Join(parts) != l.bin && !StartsWith(Join(parts), l.bin + "/")
  {
    SplitInvertsJoin(parts);
    PrefixTest(Join(parts), l.bin);
  }

  /** The two program rules on a path that is not under `bin`. */
  lemma {:induction false} ProgramRules(l: Layout, p: string)
    requires p != l.bin && !StartsWith(p, l.bin + "/")
    ensures p == l.crates + "/" + l.programs ==> UnmoveNormalized(l, p) == l.programs
    ensures p != l.crates + "/" + l.programs && StartsWith(p, l.crates + "/" + l.programs + "/") ==>
              UnmoveNormalized(l, p) == l.programs + "/" + p[|l.crates| + |l.programs| + 2..]
  {
  }

  lemma {:induction false} UnmovePrograms(l: Layout, parts: seq<string>)
    requires GoodLayout(l) && CleanSegments(parts)
    requires 2 <= |parts| && parts[0] == l.crates && parts[1] == l.programs
    ensures UnmoveNormalized(l, Join(parts)) == Join([l.programs] + parts[2..])
  {
    NotUnderBin(l, parts);
    UnderPrograms(l, parts);
    ProgramRules(l, Join(parts));
    JoinCons(l.programs, parts[2..]);
  }

  lemma {:induction false} UnderPrograms(l: Layout, parts: seq<string>)
    requires GoodLayout(l) && CleanSegments(parts)
    requires 2 <= |parts| && parts[0] == l.crates && parts[1] == l.programs
    ensures
      var path := Join(parts);
      if |parts| == 2 then path == l.crates + "/" + l.programs
      else
        && path != l.crates + "/" + l.programs
        && StartsWith(path, l.crates + "/" + l.programs + "/")
        && path[|l.crates| + |l.programs| + 2..] == Join(parts[2..])
  {
    SplitInvertsJoin(parts);
    PrefixTest2(Join(parts), l.crates, l.programs);
    assert |parts| == 2 ==> parts == [l.crates, l.programs];
  }

  lemma {:induction false} UnmoveOther(l: Layout, parts: seq<string>)
    requires GoodLayout(l) && CleanSegments(parts) && parts[0] != l.bin
    requires 2 <= |parts| && parts[0] == l.crates ==> parts[1] != l.programs
    ensures UnmoveNormalized(l, Join(parts)) ==
              if 3 <= |parts| && parts[0] == l.crates then Join(parts[2..]) else Join(parts)
  {
    SplitInvertsJoin(parts);
    PrefixTest(Join(parts), l.bin);
    PrefixTest2(Join(parts), l.crates, l.programs);
    if 3 <= |parts| {
      RejoinTail(parts);
    }
  }

  lemma {:induction false} UnmoveSegments(l: Layout, parts: seq<string>)
    requires GoodLayout(l) && CleanSegments(parts)
    ensures UnmoveNormalized(l, Join(parts)) == Join(Unmoved(l, parts))
  {
    if parts[0] == l.bin {
      UnmoveBin(l, parts);
    } else if 2 <= |parts| && parts[0] == l.crates && parts[1] == l.programs {
      UnmovePrograms(l, parts);
    } else {
      UnmoveOther(l, parts);
    }
  }

  /** Every entry of the crate index leads to `crates/<domain>/<crate>` with a domain
      other than programs. */
  ghost predicate GoodIndex(l: Layout, index: map<string, string>) {
    forall c :: c in index ==> IsName(c) && exists domain :: IsHome(l, index[c], domain, c)
  }

  ghost predicate IsHome(l: Layout, home: string, domain: string, c: string) {
    IsName(domain) && domain != l.programs && home == Join([l.crates, domain, c])
  }

  /** From upstream to the cleaned layout. */
  function Placed(l: Layout, parts: seq<string>, index: map<string, string>): seq<string>
    requires parts != []
  {
    if parts[0] in l.removed then [l.mark + parts[0]] + parts[1..]
    else if parts[0] == l.apps then [l.bin] + parts[1..]
    else if parts[0] == l.programs then [l.crates, l.programs] + parts[1..]
    else if parts[0] in index then Split(index[parts[0]]) + parts[1..]
    else parts
  }

  lemma {:induction false} FirstOfJoin(parts: seq<string>)
    requires CleanSegments(parts)
    ensures First(Join(parts)) == parts[0] && Rest(Join(parts)) == Join(parts[1..])
    ensures Rest(Join(parts)) == "" <==> |parts| == 1
  {
    FirstSlash(parts[0], Join(parts[1..]));
    if 1 < |parts| {
      JoinEnds(parts[1..]);
    } else {
      assert parts[1..] == [];
    }
  }

  lemma {:induction false} UnderJoin(directory: seq<string>, parts: seq<string>)
    requires CleanSegments(parts) && directory != []
    ensures Under(Join(directory), Join(parts[1..])) == Join(directory + parts[1..])
  {
    if 1 < |parts| {
      JoinEnds(parts[1..]);
      JoinAppend(directory, parts[1..]);
    } else {
      assert directory + parts[1..] == directory;
    }
  }

  lemma {:induction false} PlaceSegments(l: Layout, parts: seq<string>, index: map<string, string>)
    requires GoodLayout(l) && CleanSegments(parts)
    ensures PlaceNormalized(l, Join(parts), index) == Join(Placed(l, parts, index))
  {
    FirstOfJoin(parts);
    var first := parts[0];
    if first in l.removed {
      MarkJoin(l.mark, parts);
    } else if first == l.apps {
      UnderJoin([l.bin], parts);
    } else if first == l.programs {
      UnderJoin([l.crates, l.programs], parts);
      JoinCons(l.crates, [l.programs]);
      assert [l.crates] + [l.programs] == [l.crates, l.programs];
    } else if first in index {
      JoinInvertsSplit(index[first]);
      UnderJoin(Split(index[first]), parts);
    }
  }

  lemma {:induction false} MarkJoin(mark: string, parts: seq<string>)
    requires parts != []
    ensures mark + Join(parts) == Join([mark + parts[0]] + parts[1..])
  {
    JoinCons(parts[0], parts[1..]);
    JoinCons(mark + parts[0], parts[1..]);
    assert parts == [parts[0]] + parts[1..];
  }

  /** A path that does not normalize to nothing, as segments. */
  lemma {:induction false} NormalizedSegments(path: string)
    requires Normalize(path) != ""
    ensures CleanSegments(Split(Normalize(path))) && Join(Split(Normalize(path))) == Normalize(path)
  {
    NormalizeCleans(path);
    SplitIsClean(Normalize(path));
  }

  /** The segments of an indexed crate's home. */
  lemma {:induction false} HomeSegments(l: Layout, index: map<string, string>, c: string) returns (domain: string)
    requires GoodLayout(l)
    requires GoodIndex(l, index) && c in index
    ensures IsHome(l, index[c], domain, c) && Split(index[c]) == [l.crates, domain, c]
  {
    domain :| IsHome(l, index[c], domain, c);
    SplitInvertsJoin([l.crates, domain, c]);
  }

  lemma {:induction false} NewHead(head: seq<string>, parts: seq<string>)
    requires CleanSegments(parts) && head != [] && forall i :: 0 <= i < |head| ==> IsName(head[i])
    ensures CleanSegments(head + parts[1..])
  {
    var r := head + parts[1..];
    assert forall i :: |head| <= i < |r| ==> r[i] == parts[i - |head| + 1];
  }

  lemma {:induction false} PlacedIsClean(l: Layout, parts: seq<string>, index: map<string, string>)
    requires GoodLayout(l)
    requires CleanSegments(parts) && GoodIndex(l, index)
    ensures CleanSegments(Placed(l, parts, index))
  {
    if parts[0] in l.removed {
      NewHead([l.mark + parts[0]], parts);
    } else if parts[0] == l.apps {
      NewHead([l.bin], parts);
    } else if parts[0] == l.programs {
      NewHead([l.crates, l.programs], parts);
    } else if parts[0] in index {
      var domain := HomeSegments(l, index, parts[0]);
      NewHead([l.crates, domain, parts[0]], parts);
    }
  }

  /** The cleaned layout means something else by paths under `bin`, under
      `crates/programs`, and under `crates` with two more segments. */
  predicate Moved(l: Layout, parts: seq<string>)
    requires parts != []
  {
    || parts[0] == l.bin
    || (parts[0] == l.crates && 2 <= |parts| && (parts[1] == l.programs || 3 <= |parts|))
  }

  lemma {:induction false} SegmentsRoundTrip(l: Layout, parts: seq<string>, index: map<string, string>)
    requires GoodLayout(l)
    requires CleanSegments(parts) && GoodIndex(l, index)
    ensures Placed(l, parts, index) != []
    ensures Unmoved(l, Placed(l, parts, index)) == parts <==>
              && parts[0] !in l.removed
              && (parts[0] == l.apps || parts[0] == l.programs || parts[0] in index || !Moved(l, parts))
  {
    if parts[0] in l.removed {
      RemovedStays(l, parts);
    } else if parts[0] == l.apps || parts[0] == l.programs || parts[0] in index {
      TranslatedComesBack(l, parts, index);
    } else {
      UnmovedChanges(l, parts);
    }
  }

  lemma {:induction false} TranslatedComesBack(l: Layout, parts: seq<string>, index: map<string, string>)
    requires GoodLayout(l) && GoodIndex(l, index) && CleanSegments(parts) && parts[0] !in l.removed
    requires parts[0] == l.apps || parts[0] == l.programs || parts[0] in index
    ensures Placed(l, parts, index) != [] && Unmoved(l, Placed(l, parts, index)) == parts
  {
    var first, tail := parts[0], parts[1..];
    assert parts == [first] + tail;
    if first == l.apps {
      assert ([l.bin] + tail)[1..] == tail;
    } else if first == l.programs {
      assert ([l.crates, l.programs] + tail)[2..] == tail;
    } else {
      var domain := HomeSegments(l, index, first);
      assert ([l.crates, domain, first] + tail)[2..] == [first] + tail;
    }
  }

  lemma {:induction false} RemovedStays(l: Layout, parts: seq<string>)
    requires GoodLayout(l) && parts != []
    ensures Unmoved(l, [l.mark + parts[0]] + parts[1..]) != parts
  {
    RemovedPrefix(l, parts[0]);
    var marked := [l.mark + parts[0]] + parts[1..];
    assert Unmoved(l, marked) == marked;
    assert |marked[0]| != |parts[0]|;
  }

  lemma {:induction false} RemovedPrefix(l: Layout, first: string)
    requires GoodLayout(l)
    ensures l.mark + first != l.bin && l.mark + first != l.crates
  {
    var s := l.mark + first;
    assert s[..|l.mark|] == l.mark;
  }

  lemma {:induction false} UnmovedChanges(l: Layout, parts: seq<string>)
    requires GoodLayout(l)
    requires parts != []
    ensures Unmoved(l, parts) == parts <==> !Moved(l, parts)
  {
    if parts[0] == l.bin {
      assert Unmoved(l, parts)[0] == l.apps;
    }
  }

  /** Upstream paths come back exactly when there is something to translate, their first
      segment was not removed and is either translated or not something the cleaned
      layout would move. */
  lemma {:induction false} UpstreamRoundTrip(l: Layout, path: string, index: map<string, string>)
    requires GoodLayout(l) && GoodIndex(l, index)
    ensures
      var parts := Split(Normalize(path));
      FromClean(l, FromUpstream(l, path, index)) == Normalize(path) <==>
        && Normalize(path) != ""
        && parts[0] !in l.removed
        && (parts[0] == l.apps || parts[0] == l.programs || parts[0] in index || !Moved(l, parts))
  {
    if Normalize(path) == "" {
      FromCleanNotEmpty(l, FromUpstream(l, path, index));
    } else {
      var parts := Split(Normalize(path));
      var placed := Placed(l, parts, index);
      NormalizedSegments(path);
      PlaceSegments(l, parts, index);
      PlacedIsClean(l, parts, index);
      JoinIsClean(placed);
      UnmoveSegments(l, placed);
      SegmentsRoundTrip(l, parts, index);
      UnmovedSegments(l, placed);
      JoinInjective(Unmoved(l, placed), parts);
    }
  }

  lemma {:induction false} FromCleanNotEmpty(l: Layout, path: string)
    requires GoodLayout(l)
    ensures FromClean(l, path) != ""
  {
    if Normalize(path) != "" {
      var parts := Split(Normalize(path));
      NormalizedSegments(path);
      UnmoveSegments(l, parts);
      UnmovedSegments(l, parts);
      JoinEnds(Unmoved(l, parts));
    }
  }

  lemma {:induction false} FromUpstreamNotEmpty(l: Layout, path: string, index: map<string, string>)
    requires GoodLayout(l) && GoodIndex(l, index)
    ensures FromUpstream(l, path, index) != ""
  {
    if Normalize(path) != "" {
      var parts := Split(Normalize(path));
      NormalizedSegments(path);
      PlaceSegments(l, parts, index);
      PlacedIsClean(l, parts, index);
      JoinIsClean(Placed(l, parts, index));
    }
  }

  lemma {:induction false} UnmovedSegments(l: Layout, parts: seq<string>)
    requires GoodLayout(l)
    requires CleanSegments(parts)
    ensures Segments(Unmoved(l, parts)) && Unmoved(l, parts)[|Unmoved(l, parts)| - 1] != ""
  {
  }

  /** What the other direction needs: under `bin` and `crates/programs` nothing; under
      `crates` that the index maps the crate's name back to this very directory and the
      name is not one that upstream reserves; elsewhere that upstream leaves it alone. */
  ghost predicate ComesBack(l: Layout, parts: seq<string>, index: map<string, string>)
    requires parts != []
  {
    if parts[0] == l.bin || (2 <= |parts| && parts[0] == l.crates && parts[1] == l.programs) then true
    else if 3 <= |parts| && parts[0] == l.crates then
      && parts[2] !in l.removed && parts[2] != l.apps && parts[2] != l.programs
      && parts[2] in index && index[parts[2]] == Join([l.crates, parts[1], parts[2]])
    else
      parts[0] !in l.removed && parts[0] != l.apps && parts[0] != l.programs && parts[0] !in index
  }

  /** A crate directory with an empty name. */
  ghost predicate Nameless(l: Layout, parts: seq<string>) {
    3 <= |parts| && parts[0] == l.crates && parts[1] != l.programs && parts[2] == ""
  }

  lemma {:induction false} UnmovedIsClean(l: Layout, parts: seq<string>)
    requires GoodLayout(l) && CleanSegments(parts) && !Nameless(l, parts)
    ensures CleanSegments(Unmoved(l, parts))
  {
    if parts[0] == l.bin {
      NewHead([l.apps], parts);
    } else if 2 <= |parts| && parts[0] == l.crates && parts[1] == l.programs {
      assert parts[1..][1..] == parts[2..];
      NewHead([l.programs], parts[1..]);
    }
  }

  lemma {:induction false} SegmentsComeBack(l: Layout, parts: seq<string>, index: map<string, string>)
    requires GoodLayout(l) && GoodIndex(l, index)
    requires CleanSegments(parts) && !Nameless(l, parts)
    ensures Unmoved(l, parts) != []
    ensures Placed(l, Unmoved(l, parts), index) == parts <==> ComesBack(l, parts, index)
  {
    if parts[0] == l.bin {
      assert ([l.apps] + parts[1..])[1..] == parts[1..];
      assert parts == [l.bin] + parts[1..];
    } else if 2 <= |parts| && parts[0] == l.crates && parts[1] == l.programs {
      assert ([l.programs] + parts[2..])[1..] == parts[2..];
      assert parts == [l.crates, l.programs] + parts[2..];
    } else if 3 <= |parts| && parts[0] == l.crates {
      CrateComesBack(l, parts, index);
    } else {
      PlacedChanges(l, parts, index);
    }
  }

  /** Normalizing drops the empty segments in front. */
  lemma {:induction false} LeadingEmpties(parts: seq<string>) returns (j: nat)
    requires Segments(parts) && parts[|parts| - 1] != "" && forall i :: 0 <= i < |parts| ==> Without(parts[i], '\\')
    ensures j < |parts| && CleanSegments(parts[j..]) && Normalize(Join(parts)) == Join(parts[j..])
    decreases |parts|
  {
    if parts[0] != "" {
      JoinIsClean(parts);
      j := 0;
      assert parts[0..] == parts;
    } else {
      var i := LeadingEmpties(parts[1..]);
      NormalizeDropsSlash(Join(parts[1..]));
      j := i + 1;
      assert parts[1..][i..] == parts[j..];
    }
  }

  lemma {:induction false} NormalizeDropsSlash(p: string)
    ensures Normalize("" + "/" + p) == Normalize(p)
  {
    var s := "" + "/" + p;
    assert s[1..] == p;
    assert Replace(s)[0] == '/' && Replace(s)[1..] == Replace(p);
  }

  lemma {:induction false} PlacedGrowsLittle(l: Layout, parts: seq<string>, index: map<string, string>)
    requires GoodLayout(l) && GoodIndex(l, index) && parts != []
    ensures |Placed(l, parts, index)| <= |parts| + 2
  {
    if parts[0] in index {
      var domain := HomeSegments(l, index, parts[0]);
    }
  }

  /** A path under a nameless crate loses at least three segments and gains at most two. */
  lemma {:induction false} NamelessIsLost(l: Layout, parts: seq<string>, index: map<string, string>)
    requires GoodLayout(l) && GoodIndex(l, index)
    requires CleanSegments(parts) && Nameless(l, parts)
    ensures FromUpstream(l, Join(parts[2..]), index) != Join(parts)
  {
    var unmoved := parts[2..];
    var j := LeadingEmpties(unmoved);
    var kept := unmoved[j..];
    assert j != 0;
    JoinIsClean(kept);
    PlaceSegments(l, kept, index);
    PlacedIsClean(l, kept, index);
    PlacedGrowsLittle(l, kept, index);
    JoinInjective(Placed(l, kept, index), parts);
  }

  lemma {:induction false} CrateComesBack(l: Layout, parts: seq<string>, index: map<string, string>)
    requires GoodLayout(l)
    requires CleanSegments(parts) && GoodIndex(l, index)
    requires 3 <= |parts| && parts[0] == l.crates && parts[1] != l.programs && parts[2] != ""
    ensures Placed(l, parts[2..], index) == parts <==> ComesBack(l, parts, index)
  {
    var c, tail := parts[2], parts[3..];
    assert parts[2..][1..] == tail;
    assert parts == [l.crates, parts[1], c] + tail;
    if c in l.removed {
      RemovedPrefix(l, c);
      assert Placed(l, parts[2..], index)[0] != l.crates;
    } else if c == l.apps {
      assert Placed(l, parts[2..], index)[0] == l.bin;
    } else if c == l.programs {
      assert |Placed(l, parts[2..], index)| < |parts|;
    } else if c in index {
      var domain := HomeSegments(l, index, c);
      JoinInjective([l.crates, domain, c], [l.crates, parts[1], c]);
      assert Placed(l, parts[2..], index)[1] == domain;
    } else {
      assert |Placed(l, parts[2..], index)| < |parts|;
    }
  }

  lemma {:induction false} PlacedChanges(l: Layout, parts: seq<string>, index: map<string, string>)
    requires GoodLayout(l)
    requires CleanSegments(parts) && GoodIndex(l, index)
    ensures Placed(l, parts, index) == parts <==>
              parts[0] !in l.removed && parts[0] != l.apps && parts[0] != l.programs && parts[0] !in index
  {
    if parts[0] in l.removed {
      assert |Placed(l, parts, index)[0]| != |parts[0]|;
    } else if parts[0] == l.apps {
      assert Placed(l, parts, index)[0] == l.bin;
    } else if parts[0] == l.programs {
      assert |Placed(l, parts, index)| > |parts|;
    } else if parts[0] in index {
      var domain := HomeSegments(l, index, parts[0]);
      assert |Placed(l, parts, index)| > |parts|;
    }
  }

  /** Paths of the cleaned layout come back exactly under that condition. */
  lemma {:induction false} CleanRoundTrip(l: Layout, path: string, index: map<string, string>)
    requires GoodLayout(l) && GoodIndex(l, index)
    ensures FromUpstream(l, FromClean(l, path), index) == Normalize(path) <==>
              Normalize(path) != "" && ComesBack(l, Split(Normalize(path)), index)
  {
    if Normalize(path) == "" {
      FromUpstreamNotEmpty(l, FromClean(l, path), index);
    } else {
      var parts := Split(Normalize(path));
      NormalizedSegments(path);
      UnmoveSegments(l, parts);
      if Nameless(l, parts) {
        NamelessIsLost(l, parts, index);
      } else {
        NamedRoundTrip(l, parts, index);
      }
    }
  }

  lemma {:induction false} NamedRoundTrip(l: Layout, parts: seq<string>, index: map<string, string>)
    requires GoodLayout(l) && GoodIndex(l, index)
    requires CleanSegments(parts) && !Nameless(l, parts)
    ensures FromUpstream(l, Join(Unmoved(l, parts)), index) == Join(parts) <==> ComesBack(l, parts, index)
  {
    var unmoved := Unmoved(l, parts);
    UnmovedIsClean(l, parts);
    SegmentsComeBack(l, parts, index);
    JoinIsClean(unmoved);
    PlaceSegments(l, unmoved, index);
    PlacedIsClean(l, unmoved, index);
    JoinInjective(Placed(l, unmoved, index), parts);
  }

  // ----------------------------------------------------------------------
  // The crate index

  datatype Domain = Domain(name: string, crates: seq<string>)

  /** The domain whose entry for the crate is written last, in the sorted order. */
  function LastDomain(l: Layout, domains: seq<Domain>, c: string): Option<string> {
    if domains == [] then None
    else
      var last := domains[|domains| - 1];
      if last.name != l.programs && c in last.crates then Some(last.name)
      else LastDomain(l, domains[..|domains| - 1], c)
  }

  ghost predicate Indexes(l: Layout, index: map<string, string>, domains: seq<Domain>) {
    forall c :: (c in index <==> LastDomain(l, domains, c).Some?)
                && (c in index ==> index[c] == l.crates + "/" + LastDomain(l, domains, c).value + "/" + c)
  }

  /** The two nested loops over the directories. */
  method CrateIndex(l: Layout, domains: seq<Domain>) returns (index: map<string, string>)
    ensures Indexes(l, index, domains)
  {
    index := map[];
    for k := 0 to |domains|
      invariant Indexes(l, index, domains[..k])
    {
      var domain := domains[k];
      assert domains[..k + 1][..k] == domains[..k];
      if domain.name != l.programs {
        ghost var before := index;
        for j := 0 to |domain.crates|
          invariant forall c :: c in index <==> c in before || c in domain.crates[..j]
          invariant forall c :: c in index ==>
                      index[c] == if c in domain.crates[..j] then l.crates + "/" + domain.name + "/" + c else before[c]
        {
          assert domain.crates[..j + 1] == domain.crates[..j] + [domain.crates[j]];
          index := index[domain.crates[j] := l.crates + "/" + domain.name + "/" + domain.crates[j]];
        }
        assert domain.crates[..|domain.crates|] == domain.crates;
      }
    }
    assert domains[..|domains|] == domains;
  }

  lemma {:induction false} LastDomainIsThere(l: Layout, domains: seq<Domain>, c: string)
    requires GoodLayout(l)
    requires LastDomain(l, domains, c).Some?
    ensures exists k :: 0 <= k < |domains| && domains[k].name == LastDomain(l, domains, c).value
                        && domains[k].name != l.programs && c in domains[k].crates
  {
    var last := domains[|domains| - 1];
    if last.name == l.programs || c !in last.crates {
      LastDomainIsThere(l, domains[..|domains| - 1], c);
      var k :| 0 <= k < |domains| - 1 && domains[..|domains| - 1][k].name == LastDomain(l, domains, c).value
               && domains[..|domains| - 1][k].name != l.programs && c in domains[..|domains| - 1][k].crates;
      assert domains[k].name == LastDomain(l, domains, c).value;
    }
  }

  lemma {:induction false} JoinOfThree(a: string, b: string, c: string)
    ensures Join([a, b, c]) == a + "/" + b + "/" + c
  {
    assert [a] + [b, c] == [a, b, c] && [b] + [c] == [b, c];
    JoinCons(a, [b, c]);
    JoinCons(b, [c]);
    assert a + "/" + (b + "/" + c) == a + "/" + b + "/" + c;
  }

  /** Over directory names without slashes the index has the form the round trips need. */
  lemma {:induction false} IndexIsGood(l: Layout, index: map<string, string>, domains: seq<Domain>)
    requires GoodLayout(l)
    requires Indexes(l, index, domains)
    requires forall k :: 0 <= k < |domains| ==>
               IsName(domains[k].name) && forall c :: c in domains[k].crates ==> IsName(c)
    ensures GoodIndex(l, index)
  {
    forall c | c in index ensures IsName(c) && exists domain :: IsHome(l, index[c], domain, c) {
      LastDomainIsThere(l, domains, c);
      var domain := LastDomain(l, domains, c).value;
      JoinOfThree(l.crates, domain, c);
      assert IsHome(l, index[c], domain, c);
    }
  }

  /** Both directions, for the repository's own layout and the index built from its
      directories. */
  lemma {:induction false} RoundTrips(path: string, index: map<string, string>, domains: seq<Domain>)
    requires Indexes(LAYOUT, index, domains)
    requires forall k :: 0 <= k < |domains| ==>
               IsName(domains[k].name) && forall c :: c in domains[k].crates ==> IsName(c)
    ensures
      var parts := Split(Normalize(path));
      && (FromClean(LAYOUT, FromUpstream(LAYOUT, path, index)) == Normalize(path) <==>
            && Normalize(path) != "" && parts[0] !in LAYOUT.removed
            && (parts[0] == LAYOUT.apps || parts[0] == LAYOUT.programs || parts[0] in index || !Moved(LAYOUT, parts)))
      && (FromUpstream(LAYOUT, FromClean(LAYOUT, path), index) == Normalize(path) <==>
            Normalize(path) != "" && ComesBack(LAYOUT, parts, index))
  {
    LayoutIsGood();
    IndexIsGood(LAYOUT, index, domains);
    UpstreamRoundTrip(LAYOUT, path, index);
    CleanRoundTrip(LAYOUT, path, index);
  }

  /** A path of upstream that does not come back: without such a crate in the index,
      `crates/x/y` is left alone on the way and loses two segments on the way back. */
  lemma {:induction false} CratesDoNotComeBack()
    ensures
      var path := Join([LAYOUT.crates, "x", "y"]);
      Normalize(path) == path && FromClean(LAYOUT, FromUpstream(LAYOUT, path, map[])) != path
  {
    LayoutIsGood();
    LosesSegments(LAYOUT, "x", "y");
  }

  lemma {:induction false} LosesSegments(l: Layout, x: string, y: string)
    requires GoodLayout(l) && IsName(x) && IsName(y)
    ensures
      var path := Join([l.crates, x, y]);
      Normalize(path) == path && FromClean(l, FromUpstream(l, path, map[])) != path
  {
    var parts := [l.crates, x, y];
    JoinIsClean(parts);
    SplitInvertsJoin(parts);
    UpstreamRoundTrip(l, Join(parts), map[]);
  }

  lemma {:induction false} BelowDirectory(directory: string, rest: string)
    requires IsName(directory) && Clean(rest)
    ensures
      var p := directory + "/" + rest;
      Normalize(p) == p && p != "" && First(p) == directory && Rest(p) == rest
  {
    NormalizeKeepsClean(directory + "/" + rest);
    FirstSlash(directory, rest);
  }

  /** What becomes of a path below each directory that upstream treats in its own way. */
  lemma {:induction false} PlacedBelow(l: Layout, directory: string, rest: string, index: map<string, string>)
    requires GoodLayout(l) && IsName(directory) && Clean(rest)
    ensures
      FromUpstream(l, directory + "/" + rest, index) ==
        if directory in l.removed then l.mark + (directory + "/" + rest)
        else if directory == l.apps then l.bin + "/" + rest
        else if directory == l.programs then l.crates + "/" + l.programs + "/" + rest
        else if directory in index then index[directory] + "/" + rest
        else directory + "/" + rest
  {
    BelowDirectory(directory, rest);
  }

  /** And back from each directory of the cleaned layout. */
  lemma {:induction false} UnmovedBelowBin(l: Layout, rest: string)
    requires GoodLayout(l) && Clean(rest)
    ensures FromClean(l, l.bin + "/" + rest) == l.apps + "/" + rest
  {
    SplitIsClean(rest);
    var parts := Split(rest);
    UnmovedFrom(l, [l.bin], parts);
    JoinOnto(l.apps, parts);
    assert ([l.bin] + parts)[1..] == parts;
  }

  lemma {:induction false} UnmovedBelowCrates(l: Layout, domain: string, rest: string)
    requires GoodLayout(l) && IsName(domain) && Clean(rest)
    ensures FromClean(l, l.crates + "/" + domain + "/" + rest) ==
              if domain == l.programs then l.programs + "/" + rest else rest
  {
    SplitIsClean(rest);
    var parts, head := Split(rest), [l.crates, domain];
    UnmovedFrom(l, head, parts);
    JoinCons(l.crates, [domain]);
    assert [l.crates] + [domain] == head;
    JoinOnto(l.programs, parts);
    assert (head + parts)[2..] == parts;
  }

  lemma {:induction false} UnmovedFrom(l: Layout, head: seq<string>, parts: seq<string>)
    requires GoodLayout(l) && head != [] && CleanSegments(parts) && forall i :: 0 <= i < |head| ==> IsName(head[i])
    ensures FromClean(l, Join(head) + "/" + Join(parts)) == Join(Unmoved(l, head + parts))
  {
    JoinAppend(head, parts);
    NewHead(head, [head[0]] + parts);
    assert ([head[0]] + parts)[1..] == parts;
    JoinIsClean(head + parts);
    UnmoveSegments(l, head + parts);
  }

  /** In the repository's own names. */
  lemma {:induction false} AppsAndPrograms(rest: string, index: map<string, string>)
    requires Clean(rest)
    ensures FromUpstream(LAYOUT, "apps" + "/" + rest, index) == "bin" + "/" + rest
    ensures FromUpstream(LAYOUT, "programs" + "/" + rest, index) == "crates" + "/" + "programs" + "/" + rest
  {
    LayoutIsGood();
    PlacedBelow(LAYOUT, LAYOUT.apps, rest, index);
    PlacedBelow(LAYOUT, LAYOUT.programs, rest, index);
  }

  lemma {:induction false} RemovedDirectories(directory: string, rest: string, index: map<string, string>)
    requires Clean(rest) && directory in {"examples", "ci", "infra", ".buildkite"}
    ensures FromUpstream(LAYOUT, directory + "/" + rest, index) == "removed:" + (directory + "/" + rest)
  {
    LayoutIsGood();
    assert IsName(directory);
    PlacedBelow(LAYOUT, directory, rest, index);
  }

  lemma {:induction false} BackToApps(rest: string, domain: string)
    requires Clean(rest) && IsName(domain) && domain != "programs"
    ensures FromClean(LAYOUT, "bin" + "/" + rest) == "apps" + "/" + rest
    ensures FromClean(LAYOUT, "crates" + "/" + "programs" + "/" + rest) == "programs" + "/" + rest
    ensures FromClean(LAYOUT, "crates" + "/" + domain + "/" + rest) == rest
  {
    LayoutIsGood();
    UnmovedBelowBin(LAYOUT, rest);
    UnmovedBelowCrates(LAYOUT, LAYOUT.programs, rest);
    UnmovedBelowCrates(LAYOUT, domain, rest);
  }
}
