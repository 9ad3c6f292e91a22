/** The workspace identity (`hash_workspace`, src/source.rs): what is fed to SHA-256, and when it can be decoded. */
module Workspace {
  import opened Basics
  import opened Hex
  import opened Model

  const HASH_BUFFER_BYTES: nat := 65536

  /** A workspace entry; `Refused` is any entry the tool reports as an error. */
  datatype Kind =
    | Symlink(target: Bytes)
    | File(content: Bytes, executable: bool)
    | Submodule(head: Bytes, status: Bytes)
    | Refused(error: TaskError)

  datatype Entry = Entry(path: Bytes, kind: Kind)

  function Ascii(text: string): Bytes
    requires forall i :: 0 <= i < |text| ==> text[i] < 128 as char
  {
    seq(|text|, i requires 0 <= i < |text| => text[i] as int)
  }

  const TAG: Bytes := Ascii("taskattest-workspace-v1") + [0]

  const SYMLINK: Bytes := Ascii("symlink") + [0]

  const FILE: Bytes := Ascii("file") + [0]

  const SUBMODULE: Bytes := Ascii("submodule") + [0]

  /** The `width` low bytes of n, least significant first. */
  function LittleEndian(n: nat, width: nat): (r: Bytes)
    ensures |r| == width
  {
    if width == 0 then [] else [n % 256] + LittleEndian(n / 256, width - 1)
  }

  function FromLittleEndian(bytes: Bytes): nat {
    if bytes == [] then 0 else bytes[0] + 256 * FromLittleEndian(bytes[1..])
  }

  function Power256(width: nat): nat {
    if width == 0 then 1 else 256 * Power256(width - 1)
  }

  function LengthPrefixed(bytes: Bytes): Bytes {
    LittleEndian(Min(|bytes|, U64_MAX), 8) + bytes
  }

  function Encode(e: Entry): Bytes {
    LengthPrefixed(e.path) + EncodeKind(e.kind)
  }

  function EncodeKind(kind: Kind): Bytes {
    match kind
    case Symlink(target) => SYMLINK + LengthPrefixed(target)
    case File(content, executable) => FILE + content + [if executable then 1 else 0]
    case Submodule(head, status) => SUBMODULE + LengthPrefixed(head) + LengthPrefixed(status)
    case Refused(_) => []
  }

  function EncodeAll(entries: seq<Entry>): Bytes {
    if entries == [] then [] else Encode(entries[0]) + EncodeAll(entries[1..])
  }

  function Preimage(entries: seq<Entry>): Bytes {
    TAG + EncodeAll(entries)
  }

  lemma {:induction false} EncodeAllAppend(entries: seq<Entry>, e: Entry)
    ensures EncodeAll(entries + [e]) == EncodeAll(entries) + Encode(e)
  {
    var all := entries + [e];
    if entries == [] {
      assert all == [e] && [e][1..] == [] && EncodeAll([e]) == Encode(e) + [];
    } else {
      EncodeAllAppend(entries[1..], e);
      assert all[0] == entries[0] && all[1..] == entries[1..] + [e];
      Regroup(Encode(entries[0]), EncodeAll(entries[1..]), Encode(e), []);
      assert EncodeAll(all) == Encode(entries[0]) + (EncodeAll(entries[1..]) + Encode(e));
    }
  }

  /** The tool can read the first i entries. */
  predicate Readable(entries: seq<Entry>, i: nat)
    requires i <= |entries|
  {
    i > 0 ==> !entries[i - 1].kind.Refused? && Readable(entries, i - 1)
  }

  lemma {:induction false} UnreadableStays(entries: seq<Entry>, i: nat, j: nat)
    requires i <= j <= |entries| && !Readable(entries, i)
    ensures !Readable(entries, j)
  {
    if i < j {
      UnreadableStays(entries, i, j - 1);
    }
  }

  /** What has been fed after the first i entries. */
  ghost function Fed(start: Bytes, entries: seq<Entry>, i: nat): Bytes
    requires i <= |entries|
  {
    start + EncodeAll(entries[..i])
  }

  lemma FedNext(start: Bytes, entries: seq<Entry>, i: nat)
    requires i < |entries|
    ensures Fed(start, entries, i + 1) == Fed(start, entries, i) + Encode(entries[i])
  {
    EncodeAllAppend(entries[..i], entries[i]);
    assert entries[..i + 1] == entries[..i] + [entries[i]];
    Regroup(start, EncodeAll(entries[..i]), Encode(entries[i]), []);
  }

  lemma FedAll(start: Bytes, entries: seq<Entry>)
    ensures Fed(start, entries, 0) == start && Fed(start, entries, |entries|) == start + EncodeAll(entries)
  {
    assert entries[..0] == [] && entries[..|entries|] == entries;
  }

  lemma Regroup(start: Bytes, a: Bytes, b: Bytes, c: Bytes)
    ensures start + a + b + c == start + (a + b + c)
    ensures start + a + b == start + (a + b)
  {
  }

  /** The incremental hasher: what has been fed to it so far. */
  class Hasher {
    var fed: Bytes

    constructor ()
      ensures fed == []
    {
      fed := [];
    }

    method Update(bytes: Bytes)
      modifies this
      ensures fed == old(fed) + bytes
    {
      fed := fed + bytes;
    }

    method UpdateLengthPrefixed(bytes: Bytes)
      modifies this
      ensures fed == old(fed) + LengthPrefixed(bytes)
    {
      Update(LittleEndian(Min(|bytes|, U64_MAX), 8));
      Update(bytes);
    }

    /** `hash_file_into`: reads of any positive size up to the buffer. */
    method HashFileInto(content: Bytes, counts: nat -> nat)
      modifies this
      ensures fed == old(fed) + content
    {
      var offset := 0;
      while offset < |content|
        invariant offset <= |content| && fed == old(fed) + content[..offset]
      {
        var count := Min(1 + counts(offset), Min(HASH_BUFFER_BYTES, |content| - offset));
        assert content[..offset] + content[offset..offset + count] == content[..offset + count];
        Update(content[offset..offset + count]);
        offset := offset + count;
      }
      assert content[..|content|] == content;
    }

    method HashEntry(e: Entry, counts: nat -> nat) returns (r: Result<Unit, TaskError>)
      modifies this
      ensures r.Ok? <==> !e.kind.Refused?
      ensures r.Ok? ==> fed == old(fed) + Encode(e)
      ensures r.Err? ==> r.error == e.kind.error
    {
      UpdateLengthPrefixed(e.path);
      r := HashKind(e.kind, counts);
    }

    method HashKind(kind: Kind, counts: nat -> nat) returns (r: Result<Unit, TaskError>)
      modifies this
      ensures r.Ok? <==> !kind.Refused?
      ensures r.Ok? ==> fed == old(fed) + EncodeKind(kind)
      ensures r.Err? ==> r.error == kind.error
    {
      ghost var start := fed;
      match kind {
      case Symlink(target) =>
        Update(SYMLINK);
        UpdateLengthPrefixed(target);
        Regroup(start, SYMLINK, LengthPrefixed(target), []);
      case File(content, executable) =>
        Update(FILE);
        HashFileInto(content, counts);
        Update([if executable then 1 else 0]);
        Regroup(start, FILE, content, [if executable then 1 else 0]);
      case Submodule(head, status) =>
        Update(SUBMODULE);
        UpdateLengthPrefixed(head);
        UpdateLengthPrefixed(status);
        Regroup(start, SUBMODULE, LengthPrefixed(head), LengthPrefixed(status));
      case Refused(error) =>
        return Err(error);
      }
      r := Ok(Unit);
    }

    /** The loop of `hash_workspace`. */
    method HashEntries(entries: seq<Entry>, counts: nat -> nat) returns (r: Result<Unit, TaskError>)
      modifies this
      ensures r.Ok? <==> Readable(entries, |entries|)
      ensures r.Ok? ==> fed == old(fed) + EncodeAll(entries)
    {
      FedAll(fed, entries);
      for i := 0 to |entries|
        invariant fed == Fed(old(fed), entries, i)
        invariant Readable(entries, i)
      {
        FedNext(old(fed), entries, i);
        var hashed := HashEntry(entries[i], counts);
        if hashed.Err? {
          UnreadableStays(entries, i + 1, |entries|);
          return Err(hashed.error);
        }
      }
      r := Ok(Unit);
    }
  }

  /** `hash_workspace`: the digest of the preimage, however the files were read. */
  method HashWorkspace(sha: Sha256, entries: seq<Entry>, counts: nat -> nat) returns (r: Result<string, TaskError>)
    ensures r.Ok? <==> Readable(entries, |entries|)
    ensures r.Ok? ==> r.value == Sha256Hex(sha, Preimage(entries))
  {
    var hasher := new Hasher();
    hasher.Update(TAG);
    var hashed := hasher.HashEntries(entries, counts);
    if hashed.Err? {
      return Err(hashed.error);
    }
    TagFirst(hasher.fed, entries);
    r := Ok(EncodeLower(sha(hasher.fed)));
  }

  lemma TagFirst(fed: Bytes, entries: seq<Entry>)
    requires fed == [] + TAG + EncodeAll(entries)
    ensures fed == Preimage(entries)
  {
  }

  lemma {:induction false} LittleEndianRoundTrip(n: nat, width: nat)
    requires n < Power256(width)
    ensures FromLittleEndian(LittleEndian(n, width)) == n
  {
    if width > 0 {
      LittleEndianRoundTrip(n / 256, width - 1);
      assert LittleEndian(n, width)[1..] == LittleEndian(n / 256, width - 1);
    }
  }

  /** Every length below 2^64 survives its 8-byte framing. */
  lemma LengthRoundTrip(n: nat)
    requires n < U64_MODULUS
    ensures FromLittleEndian(LittleEndian(n, 8)) == n
  {
    assert Power256(4) == 0x1_0000_0000;
    assert Power256(8) == U64_MODULUS;
    LittleEndianRoundTrip(n, 8);
  }

  lemma SplitEqual(a: Bytes, x: Bytes, b: Bytes, y: Bytes)
    requires |a| == |b| && a + x == b + y
    ensures a == b && x == y
  {
    assert (a + x)[..|a|] == a && (b + y)[..|b|] == b;
    assert (a + x)[|a|..] == x && (b + y)[|b|..] == y;
  }

  /** Length framing is prefix-free: what follows a framed field is determined too. */
  lemma PrefixFree(a: Bytes, x: Bytes, b: Bytes, y: Bytes)
    requires |a| < U64_MODULUS && |b| < U64_MODULUS
    requires LengthPrefixed(a) + x == LengthPrefixed(b) + y
    ensures a == b && x == y
  {
    var la, lb := LittleEndian(|a|, 8), LittleEndian(|b|, 8);
    assert LengthPrefixed(a) + x == la + (a + x);
    assert LengthPrefixed(b) + y == lb + (b + y);
    SplitEqual(la, a + x, lb, b + y);
    LengthRoundTrip(|a|);
    LengthRoundTrip(|b|);
    SplitEqual(a, x, b, y);
  }

  predicate Framed(e: Entry) {
    && |e.path| < U64_MODULUS
    && (e.kind.Symlink? ==> |e.kind.target| < U64_MODULUS)
    && (e.kind.Submodule? ==> |e.kind.head| < U64_MODULUS && |e.kind.status| < U64_MODULUS)
    && !e.kind.Refused?
  }

  /** The two workspaces agree, position by position, on the sizes of their regular files. */
  predicate SizesAgree(a: seq<Entry>, b: seq<Entry>) {
    forall i :: 0 <= i < |a| && i < |b| && a[i].kind.File? && b[i].kind.File? ==>
      |a[i].kind.content| == |b[i].kind.content|
  }

  /** The first two bytes of an encoding tell the kind. */
  lemma KindTag(kind: Kind)
    requires !kind.Refused?
    ensures var code := EncodeKind(kind);
            |code| > 1 && code[0] == (if kind.File? then 102 else 115)
            && code[1] == (if kind.File? then 105 else if kind.Symlink? then 121 else 117)
  {
    assert SYMLINK[0] == 115 && SYMLINK[1] == 121;
    assert FILE[0] == 102 && FILE[1] == 105;
    assert SUBMODULE[0] == 115 && SUBMODULE[1] == 117;
  }

  /** The layout of an entry, field by field: the path and every other field of variable length but file content come
      after their lengths, least significant byte first. */
  lemma EntryLayout(e: Entry)
    requires Framed(e)
    ensures var code, n := Encode(e), |e.path|;
            && |code| >= 8 + n && code[0] == n % 256 && FromLittleEndian(code[..8]) == n && code[8..8 + n] == e.path
            && KindLayout(e.kind, code[8 + n..])
  {
    LengthRoundTrip(|e.path|);
    var frame := LittleEndian(|e.path|, 8);
    assert Encode(e)[..8] == frame && Encode(e)[8..8 + |e.path|] == e.path && Encode(e)[8 + |e.path|..] == EncodeKind(e.kind);
    KindsLaidOut(e.kind);
  }

  predicate KindLayout(kind: Kind, code: Bytes) {
    match kind
    case Symlink(target) =>
      |code| == 16 + |target| && code[..8] == SYMLINK && FromLittleEndian(code[8..16]) == |target| && code[16..] == target
    case File(content, executable) =>
      |code| == 6 + |content| && code[..5] == FILE && code[5..5 + |content|] == content
      && code[5 + |content|] == (if executable then 1 else 0)
    case Submodule(head, status) =>
      |code| == 26 + |head| + |status| && code[..10] == SUBMODULE
      && FromLittleEndian(code[10..18]) == |head| && code[18..18 + |head|] == head
      && FromLittleEndian(code[18 + |head|..26 + |head|]) == |status| && code[26 + |head|..] == status
    case Refused(_) => true
  }

  lemma Slices(a: Bytes, b: Bytes, c: Bytes, d: Bytes, e: Bytes)
    ensures var all := a + (b + c) + (d + e);
            && all[..|a|] == a && all[|a|..|a| + |b|] == b && all[|a| + |b|..|a| + |b| + |c|] == c
            && all[|a| + |b| + |c|..|a| + |b| + |c| + |d|] == d && all[|a| + |b| + |c| + |d|..] == e
  {
  }

  lemma KindsLaidOut(kind: Kind)
    requires Framed(Entry([], kind))
    ensures KindLayout(kind, EncodeKind(kind))
  {
    match kind
    case Symlink(target) => SymlinkLaidOut(target);
    case File(content, executable) =>
      assert EncodeKind(kind)[..5] == FILE && EncodeKind(kind)[5..5 + |content|] == content;
    case Submodule(head, status) => SubmoduleLaidOut(head, status);
  }

  lemma SymlinkLaidOut(target: Bytes)
    requires |target| < U64_MODULUS
    ensures KindLayout(Symlink(target), EncodeKind(Symlink(target)))
  {
    var size := LittleEndian(|target|, 8);
    LengthRoundTrip(|target|);
    Slices(SYMLINK, size, target, [], []);
    assert EncodeKind(Symlink(target)) == SYMLINK + (size + target) + ([] + []);
  }

  lemma SubmoduleLaidOut(head: Bytes, status: Bytes)
    requires |head| < U64_MODULUS && |status| < U64_MODULUS
    ensures KindLayout(Submodule(head, status), EncodeKind(Submodule(head, status)))
  {
    var h, s := LittleEndian(|head|, 8), LittleEndian(|status|, 8);
    LengthRoundTrip(|head|);
    LengthRoundTrip(|status|);
    Slices(SUBMODULE, h, head, s, status);
  }

  lemma FilesDecode(k: Kind, x: Bytes, l: Kind, y: Bytes)
    requires k.File? && l.File? && |k.content| == |l.content|
    requires EncodeKind(k) + x == EncodeKind(l) + y
    ensures k == l && x == y
  {
    SplitEqual(EncodeKind(k), x, EncodeKind(l), y);
    var ek, el := [if k.executable then 1 else 0], [if l.executable then 1 else 0];
    SplitEqual(FILE + k.content, ek, FILE + l.content, el);
    SplitEqual(FILE, k.content, FILE, l.content);
    assert ek[0] == el[0];
  }

  lemma SymlinksDecode(k: Kind, x: Bytes, l: Kind, y: Bytes)
    requires k.Symlink? && l.Symlink? && |k.target| < U64_MODULUS && |l.target| < U64_MODULUS
    requires EncodeKind(k) + x == EncodeKind(l) + y
    ensures k == l && x == y
  {
    var (fk, fl) := (LengthPrefixed(k.target), LengthPrefixed(l.target));
    Regroup(SYMLINK, fk, x, []);
    Regroup(SYMLINK, fl, y, []);
    SplitEqual(SYMLINK, fk + x, SYMLINK, fl + y);
    PrefixFree(k.target, x, l.target, y);
  }

  lemma Reassociate(a: Bytes, b: Bytes, c: Bytes, d: Bytes)
    ensures (a + b + c) + d == a + (b + (c + d))
  {
  }

  lemma SubmodulesDecode(k: Kind, x: Bytes, l: Kind, y: Bytes)
    requires k.Submodule? && l.Submodule? && Framed(Entry([], k)) && Framed(Entry([], l))
    requires EncodeKind(k) + x == EncodeKind(l) + y
    ensures k == l && x == y
  {
    var (hk, hl) := (LengthPrefixed(k.head), LengthPrefixed(l.head));
    var (sk, sl) := (LengthPrefixed(k.status), LengthPrefixed(l.status));
    Reassociate(SUBMODULE, hk, sk, x);
    Reassociate(SUBMODULE, hl, sl, y);
    SplitEqual(SUBMODULE, hk + (sk + x), SUBMODULE, hl + (sl + y));
    PrefixFree(k.head, sk + x, l.head, sl + y);
    PrefixFree(k.status, x, l.status, y);
  }

  lemma KindsDecode(k: Kind, x: Bytes, l: Kind, y: Bytes)
    requires Framed(Entry([], k)) && Framed(Entry([], l))
    requires k.File? && l.File? ==> |k.content| == |l.content|
    requires EncodeKind(k) + x == EncodeKind(l) + y
    ensures k == l && x == y
  {
    KindTag(k);
    KindTag(l);
    var whole := EncodeKind(k) + x;
    assert whole[0] == EncodeKind(k)[0] && whole[1] == EncodeKind(k)[1];
    assert whole[0] == EncodeKind(l)[0] && whole[1] == EncodeKind(l)[1];
    match k
    case Symlink(_) => SymlinksDecode(k, x, l, y);
    case File(_, _) => FilesDecode(k, x, l, y);
    case Submodule(_, _) => SubmodulesDecode(k, x, l, y);
  }

  lemma EntriesDecode(a: Entry, x: Bytes, b: Entry, y: Bytes)
    requires Framed(a) && Framed(b)
    requires a.kind.File? && b.kind.File? ==> |a.kind.content| == |b.kind.content|
    requires Encode(a) + x == Encode(b) + y
    ensures a == b && x == y
  {
    var (pa, pb) := (LengthPrefixed(a.path), LengthPrefixed(b.path));
    assert (pa + EncodeKind(a.kind)) + x == pa + (EncodeKind(a.kind) + x);
    assert (pb + EncodeKind(b.kind)) + y == pb + (EncodeKind(b.kind) + y);
    PrefixFree(a.path, EncodeKind(a.kind) + x, b.path, EncodeKind(b.kind) + y);
    KindsDecode(a.kind, x, b.kind, y);
  }

  lemma {:induction false} EncodingsDecode(a: seq<Entry>, b: seq<Entry>)
    requires forall i :: 0 <= i < |a| ==> Framed(a[i])
    requires forall i :: 0 <= i < |b| ==> Framed(b[i])
    requires SizesAgree(a, b) && EncodeAll(a) == EncodeAll(b)
    ensures a == b
  {
    if a != [] && b != [] {
      EntriesDecode(a[0], EncodeAll(a[1..]), b[0], EncodeAll(b[1..]));
      EncodingsDecode(a[1..], b[1..]);
      assert a == [a[0]] + a[1..] && b == [b[0]] + b[1..];
    }
  }

  /** Two workspaces with one preimage are the same list of entries exactly when their regular files agree in size. */
  lemma PreimageDecodes(a: seq<Entry>, b: seq<Entry>)
    requires forall i :: 0 <= i < |a| ==> Framed(a[i])
    requires forall i :: 0 <= i < |b| ==> Framed(b[i])
    requires Preimage(a) == Preimage(b)
    ensures a == b <==> SizesAgree(a, b)
  {
    SplitEqual(TAG, EncodeAll(a), TAG, EncodeAll(b));
    if SizesAgree(a, b) {
      EncodingsDecode(a, b);
    }
  }

  /** Without regular files the preimage is unconditionally decodable. */
  lemma PreimageDecodesWithoutFiles(a: seq<Entry>, b: seq<Entry>)
    requires forall i :: 0 <= i < |a| ==> Framed(a[i]) && !a[i].kind.File?
    requires forall i :: 0 <= i < |b| ==> Framed(b[i]) && !b[i].kind.File?
    requires Preimage(a) == Preimage(b)
    ensures a == b
  {
    PreimageDecodes(a, b);
  }

  /** The size condition is needed: content is not length-prefixed, so one file can spell out two. */
  lemma OneFileSpellsTwo(p: Bytes, c: Bytes, x: bool, q: Bytes, d: Bytes, y: bool)
    ensures var two := [Entry(p, File(c, x)), Entry(q, File(d, y))];
            var spelled := c + [if x then 1 else 0] + LengthPrefixed(q) + FILE + d;
            var one := [Entry(p, File(spelled, y))];
            Preimage(one) == Preimage(two) && one != two
  {
    var ex, ey := [if x then 1 else 0], [if y then 1 else 0];
    var first, second := Entry(p, File(c, x)), Entry(q, File(d, y));
    var spelled := c + ex + LengthPrefixed(q) + FILE + d;
    var one := Entry(p, File(spelled, y));
    EncodeAllAppend([first], second);
    assert [first] + [second] == [first, second] && [first][1..] == [] && [one][1..] == [];
    SpelledEncoding(LengthPrefixed(p), c, ex, LengthPrefixed(q), d, ey);
  }

  lemma SpelledEncoding(p: Bytes, c: Bytes, ex: Bytes, q: Bytes, d: Bytes, ey: Bytes)
    ensures p + (FILE + (c + ex + q + FILE + d) + ey) == (p + (FILE + c + ex)) + (q + (FILE + d + ey))
  {
  }
}
