/** Distribution names and check identifiers (src/discover.rs). */
module Names {
  import opened Basics
  import opened Hex
  import opened Order

  predicate IsLower(c: char) {
    'a' <= c <= 'z'
  }

  predicate IsDigit(c: char) {
    '0' <= c <= '9'
  }

  predicate IsUpper(c: char) {
    'A' <= c <= 'Z'
  }

  predicate IsAlphanumeric(c: char) {
    IsLower(c) || IsDigit(c) || IsUpper(c)
  }

  predicate IsSeparator(c: char) {
    c == '-' || c == '_' || c == '.'
  }

  function ToLower(c: char): char {
    if IsUpper(c) then (c as int + 32) as char else c
  }

  function TrimStart(s: string, drop: char -> bool): string {
    if s != "" && drop(s[0]) then TrimStart(s[1..], drop) else s
  }

  function TrimEnd(s: string, drop: char -> bool): string {
    if s != "" && drop(s[|s| - 1]) then TrimEnd(s[..|s| - 1], drop) else s
  }

  function Trim(s: string, drop: char -> bool): string {
    TrimEnd(TrimStart(s, drop), drop)
  }

  function TrimHyphens(s: string): string {
    Trim(s, c => c == '-')
  }

  /** What the loop appends for the rest of the input; `separator` tells whether a hyphen was the last thing kept. */
  function Collapse(s: string, separator: bool): string {
    if s == "" then ""
    else if IsAlphanumeric(s[0]) then [ToLower(s[0])] + Collapse(s[1..], false)
    else if IsSeparator(s[0]) && !separator then "-" + Collapse(s[1..], true)
    else Collapse(s[1..], separator)
  }

  function Normalize(value: string): string {
    TrimHyphens(Collapse(value, false))
  }

  /** `normalize_python_distribution`. */
  method NormalizePythonDistribution(value: string) returns (r: string)
    ensures r == Normalize(value)
  {
    var normalized, separator := "", false;
    for i := 0 to |value|
      invariant Collapse(value, false) == normalized + Collapse(value[i..], separator)
    {
      var character := value[i];
      assert value[i..][1..] == value[i + 1..];
      if IsAlphanumeric(character) {
        normalized := normalized + [ToLower(character)];
        separator := false;
      } else if IsSeparator(character) && !separator {
        normalized := normalized + "-";
        separator := true;
      }
    }
    assert value[|value|..] == "" && normalized + "" == normalized;
    r := TrimHyphens(normalized);
  }

  predicate SlugCharacter(c: char) {
    IsLower(c) || IsDigit(c) || c == '-'
  }

  /** Lower-case letters, digits and single hyphens. */
  predicate Slug(s: string) {
    && (forall i :: 0 <= i < |s| ==> SlugCharacter(s[i]))
    && (forall i :: 0 <= i < |s| - 1 ==> s[i] != '-' || s[i + 1] != '-')
  }

  /** A slug with no hyphen at either edge. */
  predicate Clean(s: string) {
    Slug(s) && (s != "" ==> s[0] != '-' && s[|s| - 1] != '-')
  }

  lemma {:induction false} CollapseSlug(s: string, separator: bool)
    ensures Slug(Collapse(s, separator))
    ensures separator && Collapse(s, separator) != "" ==> Collapse(s, separator)[0] != '-'
  {
    if s != "" {
      if IsAlphanumeric(s[0]) {
        CollapseSlug(s[1..], false);
      } else if IsSeparator(s[0]) && !separator {
        CollapseSlug(s[1..], true);
      } else {
        CollapseSlug(s[1..], separator);
      }
    }
  }

  lemma {:induction false} TrimStartSlug(s: string)
    requires Slug(s)
    ensures var r := TrimStart(s, c => c == '-'); Slug(r) && |r| <= |s| && (r != "" ==> r[0] != '-')
  {
    if s != "" && s[0] == '-' {
      TrimStartSlug(s[1..]);
    }
  }

  lemma {:induction false} TrimEndClean(s: string)
    requires Slug(s) && (s != "" ==> s[0] != '-')
    ensures Clean(TrimEnd(s, c => c == '-')) && |TrimEnd(s, c => c == '-')| <= |s|
  {
    if s != "" && s[|s| - 1] == '-' {
      TrimEndClean(s[..|s| - 1]);
    }
  }

  lemma TrimHyphensClean(s: string)
    requires Slug(s)
    ensures Clean(TrimHyphens(s)) && |TrimHyphens(s)| <= |s|
  {
    TrimStartSlug(s);
    TrimEndClean(TrimStart(s, c => c == '-'));
  }

  lemma {:induction false} CollapseFixed(s: string, separator: bool)
    requires Slug(s) && (separator && s != "" ==> s[0] != '-')
    ensures Collapse(s, separator) == s
  {
    if s != "" {
      CollapseFixed(s[1..], s[0] == '-');
      assert s == [s[0]] + s[1..];
    }
  }

  /** Normalisation yields clean names, and leaves exactly the clean names alone: it is idempotent on all strings. */
  lemma NormalizeIdempotent(value: string)
    ensures Clean(Normalize(value)) && Normalize(Normalize(value)) == Normalize(value)
    ensures Normalize(value) == value <==> Clean(value)
  {
    CollapseSlug(value, false);
    TrimHyphensClean(Collapse(value, false));
    CollapseFixed(Normalize(value), false);
    if Clean(value) {
      CollapseFixed(value, false);
    }
  }

  /** A name in the sense of PEP 508: ASCII letters, digits, '.', '_' and '-', alphanumeric at both ends. */
  predicate ValidName(s: string) {
    && s != "" && IsAlphanumeric(s[0]) && IsAlphanumeric(s[|s| - 1])
    && forall i :: 0 <= i < |s| ==> IsAlphanumeric(s[i]) || IsSeparator(s[i])
  }

  /** "Normalized Names" of PEP 503: every run of '-', '_' and '.' becomes one '-', and letters become lower case. */
  function Pep503(s: string): string
    decreases |s|
  {
    if s == "" then ""
    else if IsSeparator(s[0]) then "-" + Pep503(AfterRun(s))
    else [ToLower(s[0])] + Pep503(s[1..])
  }

  function AfterRun(s: string): (r: string)
    requires s != "" && IsSeparator(s[0])
    ensures |r| < |s|
  {
    if |s| > 1 && IsSeparator(s[1]) then AfterRun(s[1..]) else s[1..]
  }

  predicate NameCharacters(s: string) {
    forall i :: 0 <= i < |s| ==> IsAlphanumeric(s[i]) || IsSeparator(s[i])
  }

  lemma {:induction false} CollapseIsPep503(s: string)
    requires NameCharacters(s)
    ensures Collapse(s, false) == Pep503(s)
    ensures s != "" && IsSeparator(s[0]) ==> NameCharacters(AfterRun(s)) && Collapse(s, true) == Collapse(AfterRun(s), true)
                                             && (AfterRun(s) != "" ==> !IsSeparator(AfterRun(s)[0]))
    decreases |s|
  {
    if s != "" {
      CollapseIsPep503(s[1..]);
      if IsSeparator(s[0]) {
        var rest := AfterRun(s);
        assert NameCharacters(rest) && Collapse(s[1..], true) == Collapse(rest, true);
        assert Collapse(rest, true) == Collapse(rest, false);
        CollapseIsPep503(rest);
      }
    }
  }

  lemma {:induction false} Pep503Edges(s: string)
    requires NameCharacters(s) && s != "" && IsAlphanumeric(s[|s| - 1])
    ensures Pep503(s) != "" && Pep503(s)[|Pep503(s)| - 1] == ToLower(s[|s| - 1])
    decreases |s|
  {
    if |s| > 1 {
      if IsSeparator(s[0]) {
        AfterRunEnd(s);
        Pep503Edges(AfterRun(s));
      } else {
        Pep503Edges(s[1..]);
      }
    }
  }

  lemma {:induction false} AfterRunEnd(s: string)
    requires NameCharacters(s) && s != "" && IsSeparator(s[0]) && IsAlphanumeric(s[|s| - 1])
    ensures AfterRun(s) != "" && NameCharacters(AfterRun(s)) && AfterRun(s)[|AfterRun(s)| - 1] == s[|s| - 1]
  {
    if |s| > 1 && IsSeparator(s[1]) {
      AfterRunEnd(s[1..]);
    }
  }

  /** On every valid name the normaliser computes the PEP 503 normal form. */
  lemma NormalizeIsPep503(name: string)
    requires ValidName(name)
    ensures Normalize(name) == Pep503(name)
  {
    CollapseIsPep503(name);
    Pep503Edges(name);
    var r := Pep503(name);
    assert r[0] != '-' && r[|r| - 1] != '-';
  }

  function TakeWhile(s: string, keep: char -> bool): (r: string)
    ensures |r| <= |s| && r == s[..|r|]
    ensures forall i :: 0 <= i < |r| ==> keep(r[i])
    ensures |r| < |s| ==> !keep(s[|r|])
  {
    if s != "" && keep(s[0]) then [s[0]] + TakeWhile(s[1..], keep) else ""
  }

  predicate Contains(s: string, part: string) {
    exists i :: 0 <= i <= |s| && part <= s[i..]
  }

  /** `split_once('@')`: the parts before and after the first '@'. */
  function SplitAt(s: string): Option<(string, string)> {
    var before := TakeWhile(s, c => c != '@');
    if |before| == |s| then None else Some((before, s[|before| + 1..]))
  }

  /** A URL or a Git reference. */
  predicate Remote(s: string) {
    Contains(s, "://") || "git+" <= s
  }

  predicate NotAName(requirement: string) {
    requirement == "" || requirement[0] == '-' || requirement[0] == '.' || requirement[0] == '/' || requirement[0] == '\\'
  }

  /** The part of a requirement that starts with the distribution's name. */
  function NameSource(requirement: string, space: char -> bool): Option<string> {
    match SplitAt(requirement)
    case Some((distribution, reference)) =>
      Some(if Remote(Trim(reference, space)) then Trim(distribution, space) else requirement)
    case None => if Remote(requirement) then None else Some(requirement)
  }

  function LeadingName(s: string): Option<string> {
    var name := TakeWhile(s, c => IsAlphanumeric(c) || IsSeparator(c));
    if name == "" then None else Some(Normalize(name))
  }

  /** `python_distribution_name`; `space` is the trimmed white space. */
  function PythonDistributionName(line: string, space: char -> bool): Option<string> {
    var requirement := Trim(line, space);
    if NotAName(requirement) then None
    else
      var source := NameSource(requirement, space);
      if source.None? then None else LeadingName(source.value)
  }

  lemma {:induction false} TakeWhileExactly(name: string, rest: string, keep: char -> bool)
    requires forall i :: 0 <= i < |name| ==> keep(name[i])
    requires rest != "" ==> !keep(rest[0])
    ensures TakeWhile(name + rest, keep) == name
  {
    if name != "" {
      assert (name + rest)[1..] == name[1..] + rest;
      TakeWhileExactly(name[1..], rest, keep);
    } else {
      assert name + rest == rest;
    }
  }

  lemma {:induction false} TrimEndSpaces(name: string, blanks: string, space: char -> bool)
    requires name != "" && !space(name[|name| - 1])
    requires forall i :: 0 <= i < |blanks| ==> space(blanks[i])
    ensures TrimEnd(name + blanks, space) == name
  {
    if blanks != "" {
      assert (name + blanks)[..|name + blanks| - 1] == name + blanks[..|blanks| - 1];
      TrimEndSpaces(name, blanks[..|blanks| - 1], space);
    } else {
      assert name + blanks == name;
    }
  }

  lemma LeadingNameIs(name: string, rest: string)
    requires ValidName(name) && (rest != "" ==> !IsAlphanumeric(rest[0]) && !IsSeparator(rest[0]))
    ensures LeadingName(name + rest) == Some(Pep503(name))
  {
    TakeWhileExactly(name, rest, c => IsAlphanumeric(c) || IsSeparator(c));
    NormalizeIsPep503(name);
  }

  /** A requirement that is a valid name and a specifier yields the PEP 503 form of the name. */
  lemma PlainRequirement(name: string, rest: string, space: char -> bool)
    requires ValidName(name) && (rest != "" ==> !IsAlphanumeric(rest[0]) && !IsSeparator(rest[0]))
    requires !space(name[0]) && !space((name + rest)[|name + rest| - 1])
    requires forall i :: 0 <= i < |name + rest| ==> (name + rest)[i] != '@'
    requires !Remote(name + rest)
    ensures PythonDistributionName(name + rest, space) == Some(Pep503(name))
  {
    var all := name + rest;
    assert all[0] == name[0];
    TrimKeeps(all, space);
    assert all + "" == all;
    TakeWhileExactly(all, "", c => c != '@');
    FromSource(all, all, space);
    LeadingNameIs(name, rest);
  }

  lemma FromSource(requirement: string, source: string, space: char -> bool)
    requires Trim(requirement, space) == requirement && !NotAName(requirement)
    requires NameSource(requirement, space) == Some(source)
    ensures PythonDistributionName(requirement, space) == LeadingName(source)
  {
  }

  lemma DirectSource(name: string, blanks: string, url: string, space: char -> bool)
    requires name != "" && !space(name[0]) && !space(name[|name| - 1])
    requires forall i :: 0 <= i < |name + blanks| ==> (name + blanks)[i] != '@'
    requires forall i :: 0 <= i < |blanks| ==> space(blanks[i])
    requires Remote(Trim(url, space))
    ensures NameSource((name + blanks) + ("@" + url), space) == Some(name)
  {
    SplitAtFirst(name + blanks, url);
    TrimBlanks(name, blanks, space);
  }

  /** A direct reference, `name @ url`, yields the PEP 503 form of the name, and nothing of the URL. */
  lemma DirectReference(name: string, blanks: string, url: string, space: char -> bool)
    requires ValidName(name) && url != ""
    requires !space(name[0]) && !space(name[|name| - 1]) && !space(url[|url| - 1])
    requires forall i :: 0 <= i < |blanks| ==> space(blanks[i]) && blanks[i] != '@'
    requires Remote(Trim(url, space))
    ensures PythonDistributionName((name + blanks) + ("@" + url), space) == Some(Pep503(name))
  {
    var all := (name + blanks) + ("@" + url);
    Edges(name, blanks, url);
    TrimKeeps(all, space);
    NoAt(name, blanks);
    DirectSource(name, blanks, url, space);
    FromSource(all, name, space);
    assert name + "" == name;
    LeadingNameIs(name, "");
  }

  lemma Edges(name: string, blanks: string, url: string)
    requires name != "" && url != ""
    ensures var all := (name + blanks) + ("@" + url); all[0] == name[0] && all[|all| - 1] == url[|url| - 1]
  {
  }

  lemma NoAt(name: string, blanks: string)
    requires NameCharacters(name) && forall i :: 0 <= i < |blanks| ==> blanks[i] != '@'
    ensures forall i :: 0 <= i < |name + blanks| ==> (name + blanks)[i] != '@'
  {
  }

  lemma TrimBlanks(name: string, blanks: string, space: char -> bool)
    requires name != "" && !space(name[0]) && !space(name[|name| - 1])
    requires forall i :: 0 <= i < |blanks| ==> space(blanks[i])
    ensures Trim(name + blanks, space) == name
  {
    assert (name + blanks)[0] == name[0];
    TrimEndSpaces(name, blanks, space);
  }

  lemma TrimKeeps(s: string, space: char -> bool)
    requires s != "" && !space(s[0]) && !space(s[|s| - 1])
    ensures Trim(s, space) == s
  {
  }

  lemma SplitAtFirst(before: string, after: string)
    requires forall i :: 0 <= i < |before| ==> before[i] != '@'
    ensures SplitAt(before + ("@" + after)) == Some((before, after))
  {
    var all := before + ("@" + after);
    TakeWhileExactly(before, "@" + after, c => c != '@');
    assert all[|before| + 1..] == after;
  }

  const MAX_FRAGMENT: nat := 55

  predicate Portable(b: byte) {
    IsLower(ToLower(b as char)) || IsDigit(b as char)
  }

  /** What an unbounded loop over the bytes would append. */
  function Hyphenate(value: Bytes, separator: bool): string {
    if value == [] then ""
    else if Portable(value[0]) then [ToLower(value[0] as char)] + Hyphenate(value[1..], false)
    else if !separator then "-" + Hyphenate(value[1..], true)
    else Hyphenate(value[1..], separator)
  }

  /** The fragment: the first 55 characters, trimmed, or a digest prefix when nothing is left. */
  function Fragment(sha: Sha256, value: Bytes): string {
    var all := Hyphenate(value, false);
    var trimmed := TrimHyphens(all[..Min(MAX_FRAGMENT, |all|)]);
    EncodeRoundTrip(sha(value));
    if trimmed == "" then Sha256Hex(sha, value)[..12] else trimmed
  }

  /** `portable_id_fragment`: the loop that stops at 55 bytes computes exactly that prefix. */
  method PortableIdFragment(sha: Sha256, value: Bytes) returns (r: string)
    ensures r == Fragment(sha, value)
  {
    var result := HyphenatePrefix(value);
    result := TrimHyphens(result);
    EncodeRoundTrip(sha(value));
    r := if result == "" then Sha256Hex(sha, value)[..12] else result;
  }

  /** Its loop. */
  method HyphenatePrefix(value: Bytes) returns (result: string)
    ensures var all := Hyphenate(value, false); result == all[..Min(MAX_FRAGMENT, |all|)]
  {
    ghost var all := Hyphenate(value, false);
    var previousSeparator, i := false, 0;
    result := "";
    while i < |value| && |result| < MAX_FRAGMENT
      invariant 0 <= i <= |value| && |result| <= MAX_FRAGMENT
      invariant all == result + Hyphenate(value[i..], previousSeparator)
    {
      ghost var before, rest := result, value[i..];
      assert rest[0] == value[i] && rest[1..] == value[i + 1..];
      if Portable(value[i]) {
        assert all == (before + [ToLower(value[i] as char)]) + Hyphenate(value[i + 1..], false);
        result := result + [ToLower(value[i] as char)];
        previousSeparator := false;
      } else if !previousSeparator {
        result := result + "-";
        previousSeparator := true;
      }
      i := i + 1;
    }
    assert result == all[..Min(MAX_FRAGMENT, |all|)];
  }

  lemma {:induction false} HyphenateSlug(value: Bytes, separator: bool)
    ensures Slug(Hyphenate(value, separator))
    ensures separator && Hyphenate(value, separator) != "" ==> Hyphenate(value, separator)[0] != '-'
  {
    if value != [] {
      HyphenateSlug(value[1..], !Portable(value[0]));
      HyphenateSlug(value[1..], separator);
    }
  }

  /** Every fragment is a non-empty clean name of at most 55 characters. */
  lemma FragmentIsClean(sha: Sha256, value: Bytes)
    ensures Clean(Fragment(sha, value)) && 0 < |Fragment(sha, value)| <= MAX_FRAGMENT
  {
    var all := Hyphenate(value, false);
    HyphenateSlug(value, false);
    TrimHyphensClean(all[..Min(MAX_FRAGMENT, |all|)]);
    EncodeRoundTrip(sha(value));
    assert forall i :: 0 <= i < 12 ==> IsLowerHex(Sha256Hex(sha, value)[..12][i]);
  }

  function Text(value: Bytes): (r: string)
    ensures |r| == |value|
  {
    seq(|value|, i requires 0 <= i < |value| => value[i] as char)
  }

  /** A clean name is its own fragment. */
  lemma CleanNamesStay(sha: Sha256, value: Bytes)
    requires value != [] && |value| <= MAX_FRAGMENT && Clean(Text(value))
    ensures Fragment(sha, value) == Text(value)
  {
    HyphenateClean(value, false);
    TrimKeeps(Text(value), c => c == '-');
  }

  lemma {:induction false} HyphenateClean(value: Bytes, separator: bool)
    requires Slug(Text(value)) && (separator && value != [] ==> value[0] as char != '-')
    ensures Hyphenate(value, separator) == Text(value)
  {
    if value != [] {
      var c := value[0] as char;
      assert Text(value)[0] == c && Text(value)[1..] == Text(value[1..]);
      assert |value| > 1 ==> Text(value)[1] == value[1] as char;
      assert forall i :: 0 <= i < |value| - 1 ==> Text(value[1..])[i] == Text(value)[i + 1];
      HyphenateClean(value[1..], c == '-');
    }
  }

  /** Twelve digits of the digest stand for a name without any letter or digit. */
  lemma {:induction false} NothingPortable(sha: Sha256, value: Bytes)
    requires forall b :: b in value ==> !Portable(b)
    ensures |Sha256Hex(sha, value)| == 64 && Fragment(sha, value) == Sha256Hex(sha, value)[..12]
  {
    EncodeRoundTrip(sha(value));
    OnlyHyphens(value, false);
    assert "-"[..0] == "" && "-"[1..] == "";
  }

  lemma {:induction false} OnlyHyphens(value: Bytes, separator: bool)
    requires forall b :: b in value ==> !Portable(b)
    ensures Hyphenate(value, separator) == if value == [] || separator then "" else "-"
  {
    if value != [] {
      assert value[0] in value && forall b :: b in value[1..] ==> b in value;
      OnlyHyphens(value[1..], true);
    }
  }

  /** The letters and digits of a text, without what separates them. */
  function WithoutHyphens(s: string): string {
    if s == "" then "" else (if s[0] == '-' then "" else [s[0]]) + WithoutHyphens(s[1..])
  }

  function PortableCharacters(value: Bytes): string {
    if value == [] then ""
    else (if Portable(value[0]) then [ToLower(value[0] as char)] else "") + PortableCharacters(value[1..])
  }

  /** The loop keeps every letter and digit, lower-cased, in order. */
  lemma {:induction false} LettersStay(value: Bytes, separator: bool)
    ensures WithoutHyphens(Hyphenate(value, separator)) == PortableCharacters(value)
  {
    if value != [] {
      LettersStay(value[1..], !Portable(value[0]));
      LettersStay(value[1..], separator);
    }
  }

  predicate ValidCheckId(id: string) {
    && 1 <= |id| <= 64
    && (forall i :: 0 <= i < |id| ==> IsLower(id[i]) || IsDigit(id[i]) || id[i] == '-' || id[i] == '_')
    && (IsLower(id[0]) || IsDigit(id[0]))
  }
}
