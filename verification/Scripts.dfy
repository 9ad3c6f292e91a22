/** The check ids of JavaScript package scripts (`discover_javascript`, src/discover.rs).

    Scripts that verify something get an id made from their name; an id that is already taken is disambiguated with
    eight digits of the name's digest. Neither the length of the longer id nor whether it is taken in its turn is
    looked at again, and both can make validation refuse the workspace. */
module Scripts {
  import opened Basics
  import opened Hex
  import opened Order
  import opened Names
  import M = Model

  // Which scripts are verification scripts.

  /** The bytes of a name as characters; every marker and separator below is ASCII. */
  function Chars(bytes: Bytes): (r: string)
    ensures |r| == |bytes|
  {
    seq(|bytes|, i requires 0 <= i < |bytes| => bytes[i] as char)
  }

  function LowerText(s: string): (r: string)
    ensures |r| == |s|
  {
    seq(|s|, i requires 0 <= i < |s| => ToLower(s[i]))
  }

  predicate IsPartEnd(c: char) {
    c == ':' || c == '-' || c == '_'
  }

  /** Some part of the name is in `words`, where `current` is the part being read. */
  predicate HasPart(name: string, current: string, words: set<string>) {
    if name == "" then current in words
    else if IsPartEnd(name[0]) then current in words || HasPart(name[1..], "", words)
    else HasPart(name[1..], current + [name[0]], words)
  }

  function LongRunning(): set<string> {
    {"watch", "dev", "serve", "start", "update", "snapshot"}
  }

  /** `javascript_script_kind`: what a package script verifies, if anything. */
  function ScriptKind(script: string, commandText: string): Option<M.CheckKind> {
    var name, command := LowerText(script), LowerText(commandText);
    var base := TakeWhile(name, c => c != ':');
    if HasPart(name, "", LongRunning()) || Contains(command, "--watch") || Contains(command, "--fix") || Contains(command, "--write")
    then None
    else if base == "typecheck" || base == "type-check" || base == "check-types" || base == "tsc" then Some(M.TypeCheck)
    else if base == "test" then Some(M.Test)
    else if base == "lint" then Some(M.Lint)
    else if base == "build" then Some(M.Build)
    else if (base == "format" || base == "fmt") && (Contains(name, "check") || Contains(command, "--check")) then Some(M.Format)
    else None
  }

  /** A script of a package: its name and its command text. */
  datatype Script = Script(name: Bytes, command: string)

  predicate Verifies(script: Script) {
    ScriptKind(Chars(script.name), script.command).Some?
  }

  function NamesOf(scripts: seq<Script>, keep: Script -> bool): seq<Bytes> {
    if scripts == [] then []
    else (if keep(scripts[0]) then [scripts[0].name] else []) + NamesOf(scripts[1..], keep)
  }

  /** The names of the scripts that get a check, in order. */
  function Verifying(scripts: seq<Script>): seq<Bytes> {
    NamesOf(scripts, Verifies)
  }

  // The ids they get.

  function ScriptId(sha: Sha256, script: Bytes): string {
    "js-" + Fragment(sha, script)
  }

  function DisambiguatedId(sha: Sha256, script: Bytes): string {
    EncodeRoundTrip(sha(script));
    ScriptId(sha, script) + "-" + Sha256Hex(sha, script)[..8]
  }

  lemma ScriptIdValid(sha: Sha256, script: Bytes)
    ensures ValidCheckId(ScriptId(sha, script))
    ensures ValidCheckId(DisambiguatedId(sha, script)) <==> |Fragment(sha, script)| <= 52
  {
    FragmentIsClean(sha, script);
    EncodeRoundTrip(sha(script));
    var id, hex := ScriptId(sha, script), Sha256Hex(sha, script);
    assert forall i :: 0 <= i < 8 ==> IsLowerHex(hex[..8][i]);
    var long := DisambiguatedId(sha, script);
    assert long == id + "-" + hex[..8];
    assert long[0] == 'j';
    forall i | 0 <= i < |long| ensures IsLower(long[i]) || IsDigit(long[i]) || long[i] == '-' {
      if i >= |id| + 1 {
        assert long[i] == hex[..8][i - |id| - 1];
      }
    }
  }

  function PlainIds(sha: Sha256, names: seq<Bytes>): (r: seq<string>)
    ensures |r| == |names|
  {
    seq(|names|, i requires 0 <= i < |names| => ScriptId(sha, names[i]))
  }

  function LongIds(sha: Sha256, names: seq<Bytes>): (r: seq<string>)
    ensures |r| == |names|
  {
    seq(|names|, i requires 0 <= i < |names| => DisambiguatedId(sha, names[i]))
  }

  /** The id of a script when the ids in `seen` have been given before. */
  function NextId(plain: string, long: string, seen: set<string>): string {
    if plain in seen then long else plain
  }

  /** The ids given in order, for the plain and the disambiguated id of each script. */
  function Allocation(plain: seq<string>, long: seq<string>, seen: set<string>): seq<string>
    requires |plain| == |long|
  {
    if plain == [] then []
    else
      var id := NextId(plain[0], long[0], seen);
      [id] + Allocation(plain[1..], long[1..], seen + {id})
  }

  function ScriptIds(sha: Sha256, names: seq<Bytes>, seen: set<string>): seq<string> {
    Allocation(PlainIds(sha, names), LongIds(sha, names), seen)
  }

  lemma NamesNext(scripts: seq<Script>, keep: Script -> bool, i: nat)
    requires i < |scripts|
    ensures NamesOf(scripts[i..], keep)
            == (if keep(scripts[i]) then [scripts[i].name] else []) + NamesOf(scripts[i + 1..], keep)
  {
    assert scripts[i..][1..] == scripts[i + 1..] && scripts[i..][0] == scripts[i];
  }

  lemma ScriptIdsNext(sha: Sha256, name: Bytes, rest: seq<Bytes>, seen: set<string>)
    ensures var id := NextId(ScriptId(sha, name), DisambiguatedId(sha, name), seen);
            ScriptIds(sha, [name] + rest, seen) == [id] + ScriptIds(sha, rest, seen + {id})
  {
    var names := [name] + rest;
    assert forall i :: 0 <= i < |rest| ==> names[i + 1] == rest[i];
    assert PlainIds(sha, names)[1..] == PlainIds(sha, rest) && LongIds(sha, names)[1..] == LongIds(sha, rest);
  }

  /** The loop of `discover_javascript` over the scripts of a package, as far as ids go. */
  method AllocateScriptIds(sha: Sha256, scripts: seq<Script>) returns (given: seq<string>)
    ensures given == ScriptIds(sha, Verifying(scripts), {})
  {
    var ids: set<string> := {};
    given := [];
    assert scripts[0..] == scripts;
    for i := 0 to |scripts|
      invariant ScriptIds(sha, Verifying(scripts), {}) == given + ScriptIds(sha, Verifying(scripts[i..]), ids)
    {
      NamesNext(scripts, Verifies, i);
      if !Verifies(scripts[i]) {
        assert [] + Verifying(scripts[i + 1..]) == Verifying(scripts[i + 1..]);
        continue;
      }
      ScriptIdsNext(sha, scripts[i].name, Verifying(scripts[i + 1..]), ids);
      var id := AllocateId(sha, scripts[i].name, ids);
      ids := ids + {id};
      given := given + [id];
    }
    assert scripts[|scripts|..] == [];
    assert given + [] == given;
  }

  method AllocateId(sha: Sha256, script: Bytes, ids: set<string>) returns (id: string)
    ensures id == NextId(ScriptId(sha, script), DisambiguatedId(sha, script), ids)
  {
    var fragment := PortableIdFragment(sha, script);
    id := "js-" + fragment;
    if id in ids {
      EncodeRoundTrip(sha(script));
      id := id + "-" + Sha256Hex(sha, script)[..8];
    }
  }

  /** The plain id of the k-th script is the plain id of an earlier one, or the disambiguated id an earlier one needs. */
  predicate Taken(plain: seq<string>, long: seq<string>, k: nat)
    requires k < |plain| == |long|
    decreases k
  {
    exists i :: 0 <= i < k && (plain[i] == plain[k] || (Taken(plain, long, i) && long[i] == plain[k]))
  }

  function GivenId(plain: seq<string>, long: seq<string>, k: nat): string
    requires k < |plain| == |long|
  {
    if Taken(plain, long, k) then long[k] else plain[k]
  }

  /** `seen` holds what the first `n` scripts can collide with. */
  ghost predicate SeenAfter(plain: seq<string>, long: seq<string>, n: nat, seen: set<string>)
    requires n <= |plain| == |long|
  {
    forall id :: id in seen <==> exists i :: 0 <= i < n && (id == plain[i] || (Taken(plain, long, i) && id == long[i]))
  }

  lemma SeenNext(plain: seq<string>, long: seq<string>, n: nat, seen: set<string>)
    requires n < |plain| == |long| && SeenAfter(plain, long, n, seen)
    ensures NextId(plain[n], long[n], seen) == GivenId(plain, long, n)
    ensures SeenAfter(plain, long, n + 1, seen + {GivenId(plain, long, n)})
  {
    assert plain[n] in seen <==> Taken(plain, long, n);
    var after := seen + {GivenId(plain, long, n)};
    forall id
      ensures id in after <==> exists i :: 0 <= i < n + 1 && (id == plain[i] || (Taken(plain, long, i) && id == long[i]))
    {
    }
  }

  lemma {:induction false} IdsGiven(plain: seq<string>, long: seq<string>, n: nat, seen: set<string>)
    requires n <= |plain| == |long| && SeenAfter(plain, long, n, seen)
    ensures |Allocation(plain[n..], long[n..], seen)| == |plain| - n
    ensures forall k :: n <= k < |plain| ==> Allocation(plain[n..], long[n..], seen)[k - n] == GivenId(plain, long, k)
    decreases |plain| - n
  {
    if n < |plain| {
      SeenNext(plain, long, n, seen);
      assert plain[n..][1..] == plain[n + 1..] && long[n..][1..] == long[n + 1..];
      IdsGiven(plain, long, n + 1, seen + {GivenId(plain, long, n)});
    }
  }

  /** One id per script: its disambiguated id exactly when its plain id was taken. */
  lemma IdsAre(plain: seq<string>, long: seq<string>)
    requires |plain| == |long|
    ensures |Allocation(plain, long, {})| == |plain|
    ensures forall k :: 0 <= k < |plain| ==> Allocation(plain, long, {})[k] == GivenId(plain, long, k)
  {
    assert plain[0..] == plain && long[0..] == long;
    IdsGiven(plain, long, 0, {});
  }

  /** One id per script. It is rejected by validation exactly when the script's plain id was taken and its fragment is
      longer than 52 characters. */
  lemma AllocatedIdsValid(sha: Sha256, names: seq<Bytes>, k: nat)
    requires k < |names|
    ensures |ScriptIds(sha, names, {})| == |names|
    ensures ValidCheckId(ScriptIds(sha, names, {})[k])
            <==> !Taken(PlainIds(sha, names), LongIds(sha, names), k) || |Fragment(sha, names[k])| <= 52
  {
    IdsAre(PlainIds(sha, names), LongIds(sha, names));
    ScriptIdValid(sha, names[k]);
  }

  /** Some script gets the plain id of the i-th one. */
  lemma {:induction false} Holder(plain: seq<string>, long: seq<string>, i: nat) returns (j: nat)
    requires i < |plain| == |long|
    ensures j <= i && GivenId(plain, long, j) == plain[i]
  {
    if !Taken(plain, long, i) {
      j := i;
    } else {
      var k :| 0 <= k < i && (plain[k] == plain[i] || (Taken(plain, long, k) && long[k] == plain[i]));
      if plain[k] == plain[i] {
        j := Holder(plain, long, k);
      } else {
        j := k;
      }
    }
  }

  /** The k-th script needs its disambiguated id, and that is the plain or the disambiguated id of the i-th. */
  predicate Clashes(plain: seq<string>, long: seq<string>, i: nat, k: nat)
    requires i < k < |plain| == |long|
  {
    Taken(plain, long, k) && (long[k] == plain[i] || (Taken(plain, long, i) && long[k] == long[i]))
  }

  predicate NoClash(plain: seq<string>, long: seq<string>)
    requires |plain| == |long|
  {
    forall i, k :: 0 <= i < k < |plain| ==> !Clashes(plain, long, i, k)
  }

  lemma {:induction false} DistinctExactly(plain: seq<string>, long: seq<string>)
    requires |plain| == |long|
    ensures Distinct(Allocation(plain, long, {})) <==> NoClash(plain, long)
  {
    var ids := Allocation(plain, long, {});
    IdsAre(plain, long);
    forall i, k | 0 <= i < k < |plain| ensures ids[i] == ids[k] ==> Clashes(plain, long, i, k) {
      assert ids[i] == GivenId(plain, long, i) && ids[k] == GivenId(plain, long, k);
    }
    if i, k :| 0 <= i < k < |plain| && Clashes(plain, long, i, k) {
      var j := i;
      if long[k] == plain[i] {
        j := Holder(plain, long, i);
      }
      assert ids[j] == GivenId(plain, long, j) && ids[k] == GivenId(plain, long, k);
    }
  }

  /** The allocation does not look again after disambiguating: the ids are distinct exactly when no disambiguated id
      clashes with an id of an earlier script. */
  lemma AllocatedIdsDistinct(sha: Sha256, names: seq<Bytes>)
    ensures Distinct(ScriptIds(sha, names, {})) <==> NoClash(PlainIds(sha, names), LongIds(sha, names))
  {
    DistinctExactly(PlainIds(sha, names), LongIds(sha, names));
  }

  /** The rejected family: two scripts sharing a fragment of 53 to 55 characters get one id validation refuses. */
  lemma LongFragmentsAreRejected(sha: Sha256, one: Bytes, two: Bytes)
    requires Fragment(sha, one) == Fragment(sha, two) && |Fragment(sha, one)| > 52
    ensures var ids := ScriptIds(sha, [one, two], {}); |ids| == 2 && ValidCheckId(ids[0]) && !ValidCheckId(ids[1])
  {
    var names := [one, two];
    var plain, long := PlainIds(sha, names), LongIds(sha, names);
    IdsAre(plain, long);
    assert !Taken(plain, long, 0) && plain[0] == plain[1] && Taken(plain, long, 1);
    AllocatedIdsValid(sha, names, 0);
    AllocatedIdsValid(sha, names, 1);
  }

  // Scripts a package can have for which this goes wrong.

  /** "test:" */
  const TEST_PREFIX: Bytes := [116, 101, 115, 116, 58]

  function LetterA(n: nat): Bytes {
    if n == 0 then [] else [97] + LetterA(n - 1)
  }

  lemma {:induction false} LettersSpell(n: nat, separator: bool)
    ensures Hyphenate(LetterA(n), separator) == Chars(LetterA(n)) && |LetterA(n)| == n
    ensures forall i :: 0 <= i < n ==> Chars(LetterA(n))[i] == 'a'
  {
    if n > 0 {
      LettersSpell(n - 1, false);
      assert LetterA(n)[1..] == LetterA(n - 1);
      assert Chars(LetterA(n)) == "a" + Chars(LetterA(n - 1));
    }
  }

  lemma TestSpells(rest: Bytes)
    ensures Hyphenate(TEST_PREFIX + rest, false) == "test-" + Hyphenate(rest, true)
  {
    var all := TEST_PREFIX + rest;
    assert all[1..][1..][1..][1..][1..] == rest;
    assert Hyphenate(all[1..][1..][1..][1..], false) == "-" + Hyphenate(rest, true);
    assert Hyphenate(all[1..][1..][1..], false) == "t" + ("-" + Hyphenate(rest, true));
    assert Hyphenate(all[1..][1..], false) == "s" + ("t" + ("-" + Hyphenate(rest, true)));
    assert Hyphenate(all[1..], false) == "e" + ("s" + ("t" + ("-" + Hyphenate(rest, true))));
  }

  lemma {:induction false} PlainPart(text: string, current: string, words: set<string>)
    requires forall i :: 0 <= i < |text| ==> !IsPartEnd(text[i])
    ensures HasPart(text, current, words) <==> current + text in words
  {
    if text == "" {
      assert current + text == current;
    } else {
      PlainPart(text[1..], current + [text[0]], words);
      assert current + [text[0]] + text[1..] == current + text;
    }
  }

  lemma {:induction false} PartThen(text: string, rest: string, current: string, words: set<string>)
    requires forall i :: 0 <= i < |text| ==> !IsPartEnd(text[i])
    requires rest != "" && IsPartEnd(rest[0])
    ensures HasPart(text + rest, current, words) <==> current + text in words || HasPart(rest[1..], "", words)
  {
    if text == "" {
      assert text + rest == rest && current + text == current;
    } else {
      assert (text + rest)[1..] == text[1..] + rest;
      PartThen(text[1..], rest, current + [text[0]], words);
      assert current + [text[0]] + text[1..] == current + text;
    }
  }

  predicate LowerName(s: string) {
    forall i :: 0 <= i < |s| ==> !IsUpper(s[i])
  }

  /** A script whose name is "test:" and something without a long-running part verifies. */
  lemma TestScriptVerifies(rest: Bytes)
    requires LowerName(Chars(rest)) && !HasPart(Chars(rest), "", LongRunning())
    ensures Verifies(Script(TEST_PREFIX + rest, ""))
  {
    var name := Chars(TEST_PREFIX + rest);
    assert name == "test" + (":" + Chars(rest));
    assert LowerText(name) == name;
    assert LowerText("") == "";
    TakeWhileExactly("test", ":" + Chars(rest), c => c != ':');
    PartThen("test", ":" + Chars(rest), "", LongRunning());
    assert "" + "test" == "test" && (":" + Chars(rest))[1..] == Chars(rest);
    NotLongRunning("test");
  }

  lemma NotLongRunning(word: string)
    requires |word| < 3 || |word| == 4 || |word| > 8 || (|word| == 8 && word[0] != 's')
    ensures word !in LongRunning()
  {
  }

  /** The rejected family is not empty: "test:" followed by fifty letters, and the same with one letter more. */
  lemma LongFragmentsExist(sha: Sha256)
    ensures var one, two := TEST_PREFIX + LetterA(50), TEST_PREFIX + LetterA(51);
            && Verifies(Script(one, "")) && Verifies(Script(two, "")) && Less(Chars(one), Chars(two))
            && Fragment(sha, one) == Fragment(sha, two) && |Fragment(sha, one)| == 55
  {
    LongTestVerifies(50);
    LongTestVerifies(51);
    LongFragment(sha, 50, 50);
    LongFragment(sha, 51, 50);
    LongerTestIsLater(50);
  }

  lemma LongerTestIsLater(n: nat)
    ensures Less(Chars(TEST_PREFIX + LetterA(n)), Chars(TEST_PREFIX + LetterA(n + 1)))
  {
    var one, two := TEST_PREFIX + LetterA(n), TEST_PREFIX + LetterA(n + 1);
    LettersAppend(n);
    assert Chars(two) == Chars(one) + "a";
    LessLonger(Chars(one), "a");
  }

  function TestText(n: nat): string {
    "test-" + Chars(LetterA(n))
  }

  lemma {:induction false} LettersAppend(n: nat)
    ensures LetterA(n + 1) == LetterA(n) + [97]
  {
    if n > 0 {
      LettersAppend(n - 1);
    }
  }

  lemma {:induction false} LettersPrefix(n: nat, m: nat)
    requires n <= m
    ensures |LetterA(n)| == n <= |LetterA(m)| && LetterA(m)[..n] == LetterA(n)
  {
    if n > 0 {
      LettersPrefix(n - 1, m - 1);
    }
  }

  lemma TestTextTrims(n: nat)
    requires n > 0
    ensures |TestText(n)| == 5 + n && TrimHyphens(TestText(n)) == TestText(n)
  {
    LettersSpell(n, true);
    var text := TestText(n);
    assert text[0] == 't' && text[|text| - 1] == Chars(LetterA(n))[n - 1];
    TrimKeeps(text, c => c == '-');
  }

  lemma LongSpells(n: nat, kept: nat)
    requires n >= kept
    ensures var all := Hyphenate(TEST_PREFIX + LetterA(n), false); |all| == 5 + n && all[..5 + kept] == TestText(kept)
  {
    LettersSpell(n, true);
    LettersPrefix(kept, n);
    TestSpells(LetterA(n));
    CharsPrefix(LetterA(n), kept);
    TakeAppend("test-", Chars(LetterA(n)), kept);
  }

  lemma CharsPrefix(bytes: Bytes, n: nat)
    requires n <= |bytes|
    ensures Chars(bytes)[..n] == Chars(bytes[..n])
  {
  }

  lemma TakeAppend(a: string, b: string, n: nat)
    requires n <= |b|
    ensures (a + b)[..|a| + n] == a + b[..n]
  {
  }

  lemma LongFragment(sha: Sha256, n: nat, kept: nat)
    requires n >= kept && 5 + kept == MAX_FRAGMENT
    ensures Fragment(sha, TEST_PREFIX + LetterA(n)) == TestText(kept) && |TestText(kept)| == MAX_FRAGMENT
  {
    LongSpells(n, kept);
    TestTextTrims(kept);
  }

  lemma LongTestVerifies(n: nat)
    requires n > 8
    ensures Verifies(Script(TEST_PREFIX + LetterA(n), ""))
  {
    LettersSpell(n, true);
    PlainPart(Chars(LetterA(n)), "", LongRunning());
    assert "" + Chars(LetterA(n)) == Chars(LetterA(n));
    NotLongRunning(Chars(LetterA(n)));
    TestScriptVerifies(LetterA(n));
  }

  lemma {:induction false} LessLonger(s: string, more: string)
    requires more != ""
    ensures Less(s, s + more)
  {
    if s != "" {
      assert (s + more)[1..] == s[1..] + more;
      LessLonger(s[1..], more);
    }
  }

  lemma {:induction false} LessAfter(common: string, a: string, b: string)
    requires Less(a, b)
    ensures Less(common + a, common + b)
  {
    if common == "" {
      assert common + a == a && common + b == b;
    } else {
      assert (common + a)[1..] == common[1..] + a && (common + b)[1..] == common[1..] + b;
      LessAfter(common[1..], a, b);
    }
  }

  /** Hexadecimal digits as the bytes of a name. */
  function HexBytes(text: string): (bytes: Bytes)
    requires AllLowerHex(text)
    ensures Chars(bytes) == text
  {
    seq(|text|, i requires 0 <= i < |text| => text[i] as int)
  }

  lemma {:induction false} HexSpells(text: string, separator: bool)
    requires AllLowerHex(text)
    ensures Hyphenate(HexBytes(text), separator) == text
  {
    if text != "" {
      HexSpells(text[1..], false);
      assert HexBytes(text)[1..] == HexBytes(text[1..]);
      assert text == [text[0]] + text[1..];
    }
  }

  /** "test::a", "test::a-" and the digest prefix of "test:a", and "test:a". */
  function CollidingScripts(sha: Sha256): seq<Script> {
    var three := TEST_PREFIX + [97];
    EncodeRoundTrip(sha(three));
    [Script(TEST_PREFIX + [58, 97], ""), Script(TEST_PREFIX + ([58, 97, 45] + HexBytes(Sha256Hex(sha, three)[..8])), ""),
     Script(three, "")]
  }

  lemma ShortSpells(separator: bool)
    ensures Hyphenate([97], separator) == "a" && Hyphenate([58, 97], true) == "a"
  {
    assert [97][1..] == [] && [58, 97][1..] == [97];
  }

  lemma ClashingSpells(digits: string)
    requires AllLowerHex(digits)
    ensures Hyphenate([58, 97, 45] + HexBytes(digits), true) == "a-" + digits
  {
    var all := [58, 97, 45] + HexBytes(digits);
    HexSpells(digits, true);
    assert all[1..][1..][1..] == HexBytes(digits);
    assert Hyphenate(all[1..][1..], false) == "-" + digits;
    assert Hyphenate(all[1..], true) == "a" + ("-" + digits);
  }

  /** A fragment that is short and already trimmed. */
  lemma ShortFragment(sha: Sha256, value: Bytes)
    requires var text := Hyphenate(value, false); 0 < |text| <= 55 && text[0] != '-' && text[|text| - 1] != '-'
    ensures Fragment(sha, value) == Hyphenate(value, false)
  {
    var text := Hyphenate(value, false);
    assert text[..|text|] == text;
    TrimKeeps(text, c => c == '-');
  }

  lemma CollidingFragments(sha: Sha256, digits: string)
    requires AllLowerHex(digits) && |digits| == 8
    ensures Fragment(sha, TEST_PREFIX + [97]) == "test-a" && Fragment(sha, TEST_PREFIX + [58, 97]) == "test-a"
    ensures Fragment(sha, TEST_PREFIX + ([58, 97, 45] + HexBytes(digits))) == "test-a" + "-" + digits
  {
    ShortSpells(true);
    ClashingSpells(digits);
    TestSpells([97]);
    TestSpells([58, 97]);
    TestSpells([58, 97, 45] + HexBytes(digits));
    assert "test-" + "a" == "test-a" && "test-" + ("a-" + digits) == "test-a" + "-" + digits;
    ShortFragment(sha, TEST_PREFIX + [97]);
    ShortFragment(sha, TEST_PREFIX + [58, 97]);
    ShortFragment(sha, TEST_PREFIX + ([58, 97, 45] + HexBytes(digits)));
  }

  lemma PlainTestVerifies()
    ensures Verifies(Script(TEST_PREFIX + [97], ""))
  {
    assert Chars([97]) == "a" && "" + "a" == "a";
    NotLongRunning("a");
    PlainPart("a", "", LongRunning());
    TestScriptVerifies([97]);
  }

  lemma DoubledTestVerifies()
    ensures Verifies(Script(TEST_PREFIX + [58, 97], ""))
  {
    assert Chars([58, 97]) == "" + ":a" && ":a"[1..] == "a";
    NotLongRunning("");
    NotLongRunning("a");
    assert "" + "a" == "a" && "" + "" == "";
    PlainPart("a", "", LongRunning());
    PartThen("", ":a", "", LongRunning());
    TestScriptVerifies([58, 97]);
  }

  lemma DigitsParts(digits: string)
    requires AllLowerHex(digits) && |digits| == 8
    ensures !HasPart(":" + ("a" + ("-" + digits)), "", LongRunning())
  {
    NotLongRunning("");
    NotLongRunning("a");
    NotLongRunning(digits);
    var rest := "-" + digits;
    assert "" + "a" == "a" && "" + "" == "" && "" + digits == digits;
    PlainPart(digits, "", LongRunning());
    assert rest[1..] == digits;
    PartThen("a", rest, "", LongRunning());
    var tail := "a" + rest;
    assert (":" + tail)[1..] == tail && "" + (":" + tail) == ":" + tail;
    PartThen("", ":" + tail, "", LongRunning());
  }

  lemma DigitsVerify(digits: string)
    requires AllLowerHex(digits) && |digits| == 8
    ensures Verifies(Script(TEST_PREFIX + ([58, 97, 45] + HexBytes(digits)), ""))
  {
    var name := [58, 97, 45] + HexBytes(digits);
    DigitsParts(digits);
    assert Chars(name) == ":" + ("a" + ("-" + digits));
    TestScriptVerifies(name);
  }

  lemma CollidingVerify(digits: string)
    requires AllLowerHex(digits) && |digits| == 8
    ensures Verifies(Script(TEST_PREFIX + [97], "")) && Verifies(Script(TEST_PREFIX + [58, 97], ""))
    ensures Verifies(Script(TEST_PREFIX + ([58, 97, 45] + HexBytes(digits)), ""))
  {
    PlainTestVerifies();
    DoubledTestVerifies();
    DigitsVerify(digits);
  }

  lemma CollidingIds(sha: Sha256, names: seq<Bytes>, digits: string)
    requires |names| == 3 && AllLowerHex(digits) && |digits| == 8
    requires names[0] == TEST_PREFIX + [58, 97] && names[2] == TEST_PREFIX + [97]
    requires names[1] == TEST_PREFIX + ([58, 97, 45] + HexBytes(digits))
    requires digits == (EncodeRoundTrip(sha(names[2])); Sha256Hex(sha, names[2])[..8])
    ensures !Distinct(ScriptIds(sha, names, {}))
  {
    CollidingFragments(sha, digits);
    AppendDigest(digits);
    AllocatedIdsDistinct(sha, names);
    ThreeClash(PlainIds(sha, names), LongIds(sha, names));
  }

  lemma AppendDigest(digits: string)
    ensures "js-" + "test-a" + "-" + digits == "js-" + ("test-a" + "-" + digits)
  {
  }

  lemma ThreeClash(plain: seq<string>, long: seq<string>)
    requires |plain| == |long| == 3 && plain[0] == plain[2] && long[2] == plain[1]
    ensures !NoClash(plain, long)
  {
    assert Taken(plain, long, 2);
    assert Clashes(plain, long, 1, 2);
  }

  lemma ThreeNames(scripts: seq<Script>, keep: Script -> bool)
    requires |scripts| == 3 && forall i :: 0 <= i < 3 ==> keep(scripts[i])
    ensures NamesOf(scripts, keep) == [scripts[0].name, scripts[1].name, scripts[2].name]
  {
    assert scripts[0..] == scripts && scripts[3..] == [];
    NamesNext(scripts, keep, 0);
    NamesNext(scripts, keep, 1);
    NamesNext(scripts, keep, 2);
  }

  /** Whatever the hash function, these three verification scripts, in the order a package lists them, get two equal
      ids, which validation refuses. */
  lemma IdsCollide(sha: Sha256)
    ensures var scripts := CollidingScripts(sha);
            && (forall i :: 0 <= i < 3 ==> Verifies(scripts[i]))
            && Less(Chars(scripts[0].name), Chars(scripts[1].name)) && Less(Chars(scripts[1].name), Chars(scripts[2].name))
            && !Distinct(ScriptIds(sha, Verifying(scripts), {}))
  {
    var scripts := CollidingScripts(sha);
    EncodeRoundTrip(sha(scripts[2].name));
    var digits := Sha256Hex(sha, scripts[2].name)[..8];
    CollidingVerify(digits);
    CollidingOrder(digits);
    ThreeNames(scripts, Verifies);
    CollidingIds(sha, [scripts[0].name, scripts[1].name, scripts[2].name], digits);
  }

  lemma CollidingOrder(digits: string)
    requires AllLowerHex(digits) && |digits| == 8
    ensures var one, two := TEST_PREFIX + [58, 97], TEST_PREFIX + ([58, 97, 45] + HexBytes(digits));
            Less(Chars(one), Chars(two)) && Less(Chars(two), Chars(TEST_PREFIX + [97]))
  {
    var one, two := TEST_PREFIX + [58, 97], TEST_PREFIX + ([58, 97, 45] + HexBytes(digits));
    assert Chars(two) == Chars(one) + ("-" + digits);
    LessLonger(Chars(one), "-" + digits);
    assert Chars(two) == Chars(TEST_PREFIX) + (":a-" + digits);
    assert Chars(TEST_PREFIX + [97]) == Chars(TEST_PREFIX) + "a";
    LessAfter(Chars(TEST_PREFIX), ":a-" + digits, "a");
  }
}
