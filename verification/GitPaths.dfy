/** NUL-separated path listings from Git (src/git.rs) and the canonical file list they give. */
module GitPaths {
  import opened Basics
  import opened Model
  import opened Order
  import Workspace

  /** UTF-8 decoding, as a function. */
  type Utf8 = Bytes -> Option<string>

  /** The non-empty runs between NUL bytes; `current` is the run being read. */
  function Segments(bytes: Bytes, current: Bytes): seq<Bytes> {
    if bytes == [] then (if current == [] then [] else [current])
    else if bytes[0] == 0 then (if current == [] then [] else [current]) + Segments(bytes[1..], [])
    else Segments(bytes[1..], current + [bytes[0]])
  }

  /** Some '/'-separated component is "..", where `current` is the component being read. */
  predicate HasParent(path: string, current: string) {
    if path == "" then current == ".."
    else if path[0] == '/' then current == ".." || HasParent(path[1..], "")
    else HasParent(path[1..], current + [path[0]])
  }

  /** Somewhere in the path a component is "..". */
  predicate Climbs(path: string) {
    exists i :: 0 <= i <= |path| - 2 && ClimbsAt(path, i)
  }

  predicate ClimbsAt(path: string, i: nat)
    requires i + 2 <= |path|
  {
    && path[i] == '.' && path[i + 1] == '.'
    && (i == 0 || path[i - 1] == '/') && (i + 2 == |path| || path[i + 2] == '/')
  }

  lemma ClimbsAfter(first: string, rest: string)
    requires '/' !in first
    ensures Climbs(first + ("/" + rest)) <==> first == ".." || Climbs(rest)
  {
    var all, n := first + ("/" + rest), |first| + 1;
    assert all[|first|] == '/' && forall k :: 0 <= k < |rest| ==> all[n + k] == rest[k];
    assert forall k :: 0 <= k < |first| ==> all[k] == first[k] && all[k] in first;
    if first == ".." {
      assert ClimbsAt(all, 0);
    }
    if i :| 0 <= i <= |rest| - 2 && ClimbsAt(rest, i) {
      assert ClimbsAt(all, n + i);
    }
    if i :| 0 <= i <= |all| - 2 && ClimbsAt(all, i) {
      if i >= n {
        assert ClimbsAt(rest, i - n);
      } else {
        assert i == 0 && |first| == 2;
      }
    }
  }

  lemma ClimbsWhole(component: string)
    requires '/' !in component
    ensures Climbs(component) <==> component == ".."
  {
    if component == ".." {
      assert ClimbsAt(component, 0);
    }
    assert forall c :: c in component ==> c != '/';
    if i :| 0 <= i <= |component| - 2 && ClimbsAt(component, i) {
      assert forall k :: 0 <= k < |component| ==> component[k] != '/';
      assert i == 0 && |component| == 2;
    }
  }

  /** Reading component by component finds exactly the paths that climb. */
  lemma {:induction false} HasParentMeans(path: string, current: string)
    requires '/' !in current
    ensures HasParent(path, current) <==> Climbs(current + path)
  {
    if path == "" {
      ClimbsWhole(current);
      assert current + path == current;
    } else if path[0] == '/' {
      HasParentMeans(path[1..], "");
      ClimbsAfter(current, path[1..]);
      assert path == "/" + path[1..] && "" + path[1..] == path[1..];
    } else {
      HasParentMeans(path[1..], current + [path[0]]);
      assert current + [path[0]] + path[1..] == current + path;
    }
  }

  /** `validate_git_path` accepts exactly the relative paths without a ".." component. */
  lemma SafeMeans(path: string)
    ensures Safe(path) <==> (path == "" || path[0] != '/') && !Climbs(path)
  {
    HasParentMeans(path, "");
    assert "" + path == path;
  }

  /** `validate_git_path`: relative, and never climbing. */
  predicate Safe(path: string) {
    !(path != "" && path[0] == '/') && !HasParent(path, "")
  }

  predicate Acceptable(utf8: Utf8, segment: Bytes) {
    utf8(segment).Some? && Safe(utf8(segment).value)
  }

  /** What `parse_nul_paths` stands for: all segments acceptable, or an error; then their strictly sorted set. */
  ghost predicate Parses(utf8: Utf8, segments: seq<Bytes>, paths: seq<string>) {
    && (forall segment :: segment in segments ==> Acceptable(utf8, segment))
    && StrictlySorted(paths)
    && forall path :: path in paths <==> exists segment :: segment in segments && utf8(segment) == Some(path)
  }

  method ParseNulPaths(utf8: Utf8, bytes: Bytes) returns (r: Result<seq<string>, TaskError>)
    ensures r.Ok? <==> forall segment :: segment in Segments(bytes, []) ==> Acceptable(utf8, segment)
    ensures r.Ok? ==> Parses(utf8, Segments(bytes, []), r.value)
    ensures r.Err? ==> r.error == GIT_ERROR
  {
    var paths: seq<string>, current: Bytes := [], [];
    ghost var seen: seq<Bytes> := [];
    for i := 0 to |bytes|
      invariant Segments(bytes, []) == seen + Segments(bytes[i..], current)
      invariant Parses(utf8, seen, paths)
    {
      assert bytes[i..][1..] == bytes[i + 1..];
      if bytes[i] != 0 {
        current := current + [bytes[i]];
      } else if current != [] {
        if !Acceptable(utf8, current) {
          assert current in Segments(bytes, []);
          return Err(GIT_ERROR);
        }
        ParsesInsert(utf8, seen, paths, current);
        paths := Insert(paths, utf8(current).value);
        seen := seen + [current];
        current := [];
      }
    }
    assert bytes[|bytes|..] == [];
    if current != [] {
      if !Acceptable(utf8, current) {
        assert current in Segments(bytes, []);
        return Err(GIT_ERROR);
      }
      ParsesInsert(utf8, seen, paths, current);
      paths := Insert(paths, utf8(current).value);
      seen := seen + [current];
    }
    assert Segments(bytes, []) == seen;
    r := Ok(paths);
  }

  lemma ParsesInsert(utf8: Utf8, segments: seq<Bytes>, paths: seq<string>, segment: Bytes)
    requires Parses(utf8, segments, paths) && Acceptable(utf8, segment)
    ensures Parses(utf8, segments + [segment], Insert(paths, utf8(segment).value))
  {
    InsertSorted(paths, utf8(segment).value);
    var all := segments + [segment];
    forall path
      ensures path in Insert(paths, utf8(segment).value) <==> exists s :: s in all && utf8(s) == Some(path)
    {
      if path in paths {
        var s :| s in segments && utf8(s) == Some(path);
        assert s in all;
      }
      if path == utf8(segment).value {
        assert segment in all;
      }
    }
  }

  /** One sequence of paths at most is what a set of segments parses to: order and repetition are invisible. */
  lemma ParseIsCanonical(utf8: Utf8, a: seq<Bytes>, b: seq<Bytes>, pa: seq<string>, pb: seq<string>)
    requires forall segment :: segment in a <==> segment in b
    requires Parses(utf8, a, pa) && Parses(utf8, b, pb)
    ensures pa == pb
  {
    SortedUnique(pa, pb);
  }

  /** Git's listing of some names: each followed by a NUL. */
  function Listing(names: seq<Bytes>): Bytes {
    if names == [] then [] else names[0] + [0] + Listing(names[1..])
  }

  predicate Nameable(name: Bytes) {
    name != [] && 0 !in name
  }

  lemma {:induction false} SegmentsSkip(name: Bytes, rest: Bytes, current: Bytes)
    requires 0 !in name
    ensures Segments(name + rest, current) == Segments(rest, current + name)
  {
    if name == [] {
      assert name + rest == rest && current + name == current;
    } else {
      assert name == [name[0]] + name[1..];
      assert (name + rest)[1..] == name[1..] + rest;
      SegmentsSkip(name[1..], rest, current + [name[0]]);
      assert current + [name[0]] + name[1..] == current + name;
    }
  }

  /** Parsing inverts the listing: the segments are the listed names. */
  lemma {:induction false} ListingRoundTrip(names: seq<Bytes>)
    requires forall i :: 0 <= i < |names| ==> Nameable(names[i])
    ensures Segments(Listing(names), []) == names
  {
    if names != [] {
      var rest := [0] + Listing(names[1..]);
      assert Listing(names) == names[0] + rest;
      SegmentsSkip(names[0], rest, []);
      assert [] + names[0] == names[0] && rest[1..] == Listing(names[1..]);
      ListingRoundTrip(names[1..]);
    }
  }

  function NonEmpty(names: seq<Bytes>): seq<Bytes> {
    if names == [] then [] else (if names[0] == [] then [] else [names[0]]) + NonEmpty(names[1..])
  }

  /** Every listing, whatever its runs: empty ones are skipped, and a last one without a NUL counts. Any bytes are such
      a listing followed by such a run. */
  lemma {:induction false} SegmentsAre(names: seq<Bytes>, last: Bytes)
    requires 0 !in last && forall i :: 0 <= i < |names| ==> 0 !in names[i]
    ensures Segments(Listing(names) + last, []) == NonEmpty(names) + if last == [] then [] else [last]
  {
    if names == [] {
      SegmentsSkip(last, [], []);
      assert Listing(names) + last == last + [] && [] + last == last;
    } else {
      var rest := [0] + (Listing(names[1..]) + last);
      assert Listing(names) + last == names[0] + rest;
      SegmentsSkip(names[0], rest, []);
      assert [] + names[0] == names[0] && rest[1..] == Listing(names[1..]) + last;
      SegmentsAre(names[1..], last);
    }
  }

  lemma {:induction false} BytesAreListing(bytes: Bytes) returns (names: seq<Bytes>, last: Bytes)
    ensures 0 !in last && (forall i :: 0 <= i < |names| ==> 0 !in names[i]) && bytes == Listing(names) + last
  {
    if bytes == [] {
      names, last := [], [];
    } else {
      var tail, end := BytesAreListing(bytes[1..]);
      assert bytes == [bytes[0]] + bytes[1..];
      if bytes[0] == 0 {
        names, last := [[]] + tail, end;
        assert names[1..] == tail && Listing(names) == [] + [0] + Listing(tail);
      } else if tail == [] {
        names, last := [], [bytes[0]] + end;
      } else {
        names, last := [[bytes[0]] + tail[0]] + tail[1..], end;
        assert names[1..] == tail[1..] && Listing(names) == [bytes[0]] + Listing(tail);
      }
    }
  }

  /** The workspace entries of a file list, for whatever is on disk at each path. */
  function Entries(onDisk: string -> Workspace.Entry, paths: seq<string>): (r: seq<Workspace.Entry>)
    ensures |r| == |paths| && forall i :: 0 <= i < |paths| ==> r[i] == onDisk(paths[i])
  {
    seq(|paths|, i requires 0 <= i < |paths| => onDisk(paths[i]))
  }

  /** Any reordering or repetition of Git's listing gives the same file count and workspace preimage. */
  lemma WorkspaceIdentityCanonical(utf8: Utf8, onDisk: string -> Workspace.Entry, a: seq<Bytes>, b: seq<Bytes>,
                                   pa: seq<string>, pb: seq<string>)
    requires forall i :: 0 <= i < |a| ==> Nameable(a[i])
    requires forall i :: 0 <= i < |b| ==> Nameable(b[i])
    requires forall name :: name in a <==> name in b
    requires Parses(utf8, Segments(Listing(a), []), pa) && Parses(utf8, Segments(Listing(b), []), pb)
    ensures |pa| == |pb| && Workspace.Preimage(Entries(onDisk, pa)) == Workspace.Preimage(Entries(onDisk, pb))
  {
    ListingRoundTrip(a);
    ListingRoundTrip(b);
    ParseIsCanonical(utf8, a, b, pa, pb);
  }

  /** `changed_paths`: without a commit every workspace file, otherwise the union of three listings. */
  method ChangedPaths(utf8: Utf8, hasHead: bool, files: Bytes, listings: seq<Bytes>)
    returns (r: Result<seq<string>, TaskError>)
    ensures var read := if hasHead then listings else [files];
            && (r.Ok? <==> forall k, segment :: 0 <= k < |read| && segment in Segments(read[k], []) ==> Acceptable(utf8, segment))
            && (r.Ok? ==> StrictlySorted(r.value) && forall path :: path in r.value <==>
                 exists k, segment :: 0 <= k < |read| && segment in Segments(read[k], []) && utf8(segment) == Some(path))
  {
    if !hasHead {
      r := ParseNulPaths(utf8, files);
      return;
    }
    var paths: seq<string> := [];
    for k := 0 to |listings|
      invariant forall j, segment :: 0 <= j < k && segment in Segments(listings[j], []) ==> Acceptable(utf8, segment)
      invariant StrictlySorted(paths)
      invariant forall path :: path in paths <==>
        exists j, segment :: 0 <= j < k && segment in Segments(listings[j], []) && utf8(segment) == Some(path)
    {
      var parsed := ParseNulPaths(utf8, listings[k]);
      if parsed.Err? {
        return Err(parsed.error);
      }
      SortedSetSorts(paths + parsed.value);
      paths := SortedSet(paths + parsed.value);
    }
    r := Ok(paths);
  }
}
