/** One process's use of the state store (src/store.rs) and of no-clobber publication (src/source.rs).

    `Publication` and `BlobStore` prove what happens when several such calls interleave; here the calls of one
    run follow each other and what each does to the filesystem is stated exactly. */
module StateStore {
  import opened Basics
  import opened FileSystem
  import opened Hex
  import opened Model
  import opened BlobStore
  import Publication

  const MAX_RECEIPT_BYTES: nat := 4 * 1024 * 1024

  const RECEIPT_DIR: string := "receipts"

  const NEWLINE: Bytes := [10]

  const STREAMS: set<string> := {"stdout", "stderr"}

  /** Pretty JSON and the strict reader, as functions; see `StrictReader` for the reader itself. */
  datatype ReadFailure = JsonInvalid | ReceiptInvalid

  datatype Codec = Codec(emit: Receipt -> Bytes, read: Bytes -> Result<Receipt, ReadFailure>)

  /** What a receipt printed with its newline is read back as. */
  ghost predicate RoundTrips(codec: Codec, receipt: Receipt) {
    codec.read(codec.emit(receipt) + NEWLINE) == Ok(receipt)
  }

  function Document(codec: Codec, receipt: Receipt): Bytes {
    codec.emit(receipt) + NEWLINE
  }

  function ReceiptPath(id: string): Path {
    Path(RECEIPT_DIR, id + ".json")
  }

  /** `read_receipt_file` on the bytes of a file. */
  function ReadReceipt(codec: Codec, fs: FS, path: Path): Result<Receipt, TaskError>
    requires fs.Valid()
  {
    if !fs.Exists(path) then Err(IO_ERROR)
    else if |fs.Read(path)| > MAX_RECEIPT_BYTES then Err(RECEIPT_ERROR)
    else
      match codec.read(fs.Read(path))
      case Ok(receipt) => Ok(receipt)
      case Err(JsonInvalid) => Err(NewError("json_invalid", 5))
      case Err(ReceiptInvalid) => Err(RECEIPT_ERROR)
  }

  /** A receipt is read exactly from a file within the size bound that the codec accepts. */
  lemma ReadReceiptMeans(codec: Codec, fs: FS, path: Path)
    requires fs.Valid()
    ensures var read := ReadReceipt(codec, fs, path);
            && (read.Ok? <==> fs.Exists(path) && |fs.Read(path)| <= 4 * 1024 * 1024 && codec.read(fs.Read(path)).Ok?)
            && (read.Ok? ==> codec.read(fs.Read(path)) == Ok(read.value))
            && (!fs.Exists(path) ==> read.error == IO_ERROR)
            && (fs.Exists(path) && |fs.Read(path)| > 4 * 1024 * 1024 ==> read == Err(RECEIPT_ERROR))
  {
  }

  /** Every old name is bound to the same bytes, except `gone`; every new name satisfies `added`. */
  ghost predicate Extends(before: FS, after: FS, gone: set<Path>, added: Path -> bool) {
    && (forall p :: p in before.names && p !in gone ==> before.Keeps(after, p))
    && (forall p :: p in after.names && p !in before.names ==> added(p))
  }

  /** Names a publication to `path` may leave behind. */
  predicate TempOf(path: Path, p: Path) {
    p.dir == path.dir && |p.name| > |path.name|
  }

  /** The outcome of a store call as its step machine records it. */
  function Recorded(r: Result<Path, TaskError>): Result<Path, BlobStore.Failure> {
    match r
    case Ok(path) => Ok(path)
    case Err(error) => Err(if error == IO_ERROR then IoFailed
                           else if error == RECEIPT_ERROR then BlobStore.ReceiptInvalid
                           else BlobStore.AllocationFailed)
  }

  function RecordedUnit(r: Result<Unit, TaskError>): Result<Unit, Publication.Failure> {
    match r
    case Ok(_) => Ok(Unit)
    case Err(error) => Err(if error == IO_ERROR then Publication.IoFailed
                           else if error == OUTPUT_EXISTS_ERROR then Publication.OutputAlreadyExists
                           else Publication.AllocationFailed)
  }

  /** `r` and `after` are what the store machine makes of a temporary file nobody else touches. */
  ghost predicate IsStorePath(sha: Sha256, before: FS, after: FS, temporary: Path, content: Bytes, r: Result<Path, TaskError>)
    requires before.Valid()
  {
    Reaches(sha, Alone(before, Storing(temporary, content)), Alone(after, Finished(temporary, content, Recorded(r))))
  }

  /** The same for an allocation. */
  ghost predicate IsAllocationPath(sha: Sha256, before: FS, after: FS, r: Result<(Path, nat), TaskError>)
    requires before.Valid()
  {
    r.Ok? ==> Reaches(sha, Alone(before, Allocating(0)), Alone(after, Capturing(r.value.0, r.value.1, [])))
  }

  function Found(fs: FS, path: Path): Option<Bytes>
    requires fs.Valid()
  {
    if fs.Exists(path) then Some(fs.Read(path)) else None
  }

  /** `r` and `after` are what the publication machine makes of one publisher nobody interferes with. */
  ghost predicate IsPublicationPath(path: Path, doc: Bytes, before: FS, after: FS, r: Result<Unit, TaskError>)
    requires before.Valid()
  {
    Publication.ReachesAlone(path, doc, Found(before, path), before, Publication.Preflight,
                             after, Publication.Finished(RecordedUnit(r)))
  }

  /** What the publication machine makes of a temporary file nobody else touches. */
  function Written(fs: FS, path: Path, json: Bytes, temporary: Path, faults: nat -> bool): (FS, Publication.Phase) {
    Publication.WrittenAlone(Publication.WithTemp(fs, temporary, []), path, json, NEWLINE, temporary, |fs.data|,
                             faults(101), faults(102), faults(103), faults(104), faults(105))
  }

  lemma CaptureAllocationStep(sha: Sha256, fs: FS, attempt: nat, fault: bool, name: string)
    requires fs.Valid() && Reaches(sha, Alone(fs, Allocating(0)), Alone(fs, Allocating(attempt)))
    ensures var (fs', phase') := Move(sha, fs, Allocating(attempt), Action(0, fault, name, None));
            Reaches(sha, Alone(fs, Allocating(0)), Alone(fs', phase'))
  {
    var (fs', phase') := Move(sha, fs, Allocating(attempt), Action(0, fault, name, None));
    AloneMoves(sha, fs, Allocating(attempt), Action(0, fault, name, None));
    ReachesTransitive(sha, Alone(fs, Allocating(0)), Alone(fs, Allocating(attempt)), Alone(fs', phase'));
  }

  lemma AllocationStep(path: Path, doc: Bytes, foreign: Option<Bytes>, fs: FS, attempt: nat, fault: bool, suffix: string)
    requires Publication.ReachesAlone(path, doc, foreign, fs, Publication.Preflight, fs, Publication.Allocating(attempt))
    ensures var (fs', phase') := Publication.Move(fs, path, doc, Publication.Allocating(attempt), fault, suffix, 0);
            Publication.ReachesAlone(path, doc, foreign, fs, Publication.Preflight, fs', phase')
  {
    var (fs', phase') := Publication.Move(fs, path, doc, Publication.Allocating(attempt), fault, suffix, 0);
    Publication.AloneMoves(path, doc, foreign, fs, Publication.Allocating(attempt), fault, suffix, 0);
    Publication.AloneTransitive(path, doc, foreign, fs, Publication.Preflight, fs, Publication.Allocating(attempt), fs', phase');
  }

  lemma PublicationStep(path: Path, json: Bytes, foreign: Option<Bytes>, fs: FS, temporary: Path, faults: nat -> bool)
    requires Publication.ReachesAlone(path, json + NEWLINE, foreign, fs, Publication.Preflight,
                                      Publication.WithTemp(fs, temporary, []), Publication.Writing(temporary, |fs.data|, 0))
    ensures var (fs', phase') := Written(fs, path, json, temporary, faults);
            Publication.ReachesAlone(path, json + NEWLINE, foreign, fs, Publication.Preflight, fs', phase')
  {
    var created, writing := Publication.WithTemp(fs, temporary, []), Publication.Writing(temporary, |fs.data|, 0);
    var (fs', phase') := Written(fs, path, json, temporary, faults);
    Publication.WrittenAloneIsReached(created, path, json, NEWLINE, temporary, |fs.data|, foreign,
                                      faults(101), faults(102), faults(103), faults(104), faults(105));
    Publication.AloneTransitive(path, json + NEWLINE, foreign, fs, Publication.Preflight, created, writing, fs', phase');
  }

  lemma WrittenFails(fs: FS, path: Path, json: Bytes, temporary: Path, faults: nat -> bool)
    requires !fs.Exists(path) && !fs.Exists(temporary) && TempOf(path, temporary)
    requires faults(101) || faults(102) || faults(103) || faults(104)
    ensures Written(fs, path, json, temporary, faults)
            == (Publication.Orphaned(fs, if faults(101) then [] else if faults(102) then json else json + NEWLINE),
                Publication.Finished(Err(Publication.IoFailed)))
  {
    Publication.WritesFail(fs, path, json, NEWLINE, temporary, faults(101), faults(102), faults(103), faults(104), faults(105));
  }

  lemma OrphanExtends(fs: FS, path: Path, content: Bytes)
    requires fs.Valid()
    ensures var fs' := Publication.Orphaned(fs, content);
            fs'.Valid() && Extends(fs, fs', {}, p => p == path || TempOf(path, p))
  {
  }

  lemma LinkExtends(fs: FS, path: Path, temporary: Path, doc: Bytes, removed: bool)
    requires fs.Valid() && !fs.Exists(path) && !fs.Exists(temporary) && TempOf(path, temporary)
    ensures var linked := Publication.WithTemp(fs, temporary, doc).Link(temporary, path);
            var fs' := if removed then linked.Remove(temporary) else linked;
            fs'.Valid() && Extends(fs, fs', {}, p => p == path || TempOf(path, p)) && fs'.Exists(path) && fs'.Read(path) == doc
  {
  }

  class Store {
    const processId: string
    var sequence: nat
    var fs: FS

    /** The name of the n-th temporary log of this process. */
    function CapturePath(n: nat, stream: string): Path {
      Path(TEMP_DIR, processId + "-" + Decimal(n) + "-" + stream + ".log")
    }

    lemma StreamsDiffer(n: nat, m: nat)
      ensures CapturePath(n, "stdout") != CapturePath(m, "stderr")
    {
      var out, err := CapturePath(n, "stdout").name, CapturePath(m, "stderr").name;
      assert out[|out| - 5] == 't' && err[|err| - 5] == 'r';
    }

    /** The name of the n-th temporary document beside a path. */
    function DocumentPath(path: Path, n: nat): Path {
      Publication.TempPath(path, processId + "." + Decimal(n))
    }

    /** No temporary log has the n-th or a later number of this process. */
    ghost predicate Free(fs: FS, n: nat) {
      forall k: nat, stream :: k >= n && stream in STREAMS ==> !fs.Exists(CapturePath(k, stream))
    }

    /** No temporary log has a number this process has still to use. */
    ghost predicate LogsFree()
      reads this
    {
      Free(fs, sequence)
    }

    ghost predicate Taken(fs: FS, from: nat, to: nat, stream: string) {
      forall k: nat :: from <= k < to ==> fs.Exists(CapturePath(k, stream))
    }

    /** The hundred numbers from the n-th on are all taken. */
    ghost predicate Exhausted(fs: FS, n: nat, stream: string) {
      Taken(fs, n, n + MAX_ATTEMPTS, stream)
    }

    lemma FreeIsNotExhausted(fs: FS, n: nat, stream: string)
      requires Free(fs, n) && stream in STREAMS
      ensures !Exhausted(fs, n, stream)
    {
      assert !fs.Exists(CapturePath(n, stream));
    }

    /** A new log of stdout takes no name from stderr. */
    lemma StderrNotExhausted(before: FS, after: FS, n: nat, m: nat)
      requires Free(before, n)
      requires n < m && after.names.Keys == before.names.Keys + {CapturePath(m - 1, "stdout")}
      ensures !Exhausted(after, m, "stderr")
    {
      var k: nat := m - 1;
      StreamsDiffer(k, m);
      assert "stderr" in STREAMS && !before.Exists(CapturePath(m, "stderr"));
    }

    ghost predicate DocumentsTaken(fs: FS, path: Path, from: nat, to: nat) {
      forall k: nat :: from <= k < to ==> fs.Exists(DocumentPath(path, k))
    }

    /** The hundred temporary names from the n-th on beside a path are all taken. */
    ghost predicate Crowded(fs: FS, path: Path, n: nat) {
      DocumentsTaken(fs, path, n, n + Publication.MAX_ATTEMPTS)
    }

    /** Why a receipt with a valid id can be refused although no call fails: it is too large, another document is
        already there, or no temporary name is left from the n-th on. */
    ghost predicate Refuses(codec: Codec, fs: FS, n: nat, receipt: Receipt)
      requires fs.Valid()
    {
      var path := ReceiptPath(receipt.receiptId);
      || |Document(codec, receipt)| > MAX_RECEIPT_BYTES
      || (fs.Exists(path) && (ReadReceipt(codec, fs, path).Err?
                              || ReadReceipt(codec, fs, path).value.canonicalDigest != receipt.canonicalDigest))
      || (!fs.Exists(path) && Crowded(fs, path, n))
    }

    constructor (fs: FS, processId: string)
      requires fs.Valid()
      ensures this.fs == fs
    {
      this.fs, this.processId, sequence := fs, processId, 0;
    }

    /** `create_capture_file`: a fresh empty file under `tmp`, at most 100 names tried. */
    method CreateCaptureFile(ghost sha: Sha256, stream: string, faults: nat -> bool) returns (r: Result<(Path, nat), TaskError>)
      requires fs.Valid()
      modifies this
      ensures fs.Valid()
      ensures r.Err? ==> fs == old(fs) && Plain(r.error)
      ensures r.Err? ==> (exists k :: faults(k))
                         || Exhausted(old(fs), old(sequence), stream)
      ensures sequence >= old(sequence)
      ensures r.Ok? ==> var (path, inode) := r.value;
                        && path.dir == TEMP_DIR && !old(fs).Exists(path)
                        && sequence > old(sequence) && path == CapturePath(sequence - 1, stream)
                        && fs == old(fs).CreateNew(path) && inode == |old(fs).data|
      ensures IsAllocationPath(sha, old(fs), fs, r)
    {
      ReachesItself(sha, Alone(fs, Allocating(0)));
      for attempt := 0 to MAX_ATTEMPTS
        invariant fs == old(fs) && sequence == old(sequence) + attempt
        invariant Taken(fs, old(sequence), sequence, stream)
        invariant Reaches(sha, Alone(fs, Allocating(0)), Alone(fs, Allocating(attempt)))
      {
        var name := processId + "-" + Decimal(sequence) + "-" + stream + ".log";
        var path := Path(TEMP_DIR, name);
        assert path == CapturePath(sequence, stream);
        sequence := sequence + 1;
        CaptureAllocationStep(sha, fs, attempt, faults(attempt), name);
        if fs.Exists(path) {
          continue;
        }
        if faults(attempt) {
          return Err(IO_ERROR);
        }
        var inode := |fs.data|;
        fs := fs.CreateNew(path);
        return Ok((path, inode));
      }
      r := Err(EXECUTION_ERROR);
    }

    method RemoveFile(path: Path)
      requires fs.Valid()
      modifies this`fs
      ensures fs == old(fs).Remove(path)
    {
      fs := fs.Remove(path);
    }

    /** The writes a capture thread made to its open file. */
    method WriteCapture(inode: nat, bytes: Bytes)
      requires fs.Valid() && inode < |fs.data|
      modifies this`fs
      ensures fs == old(fs).Append(inode, bytes)
    {
      fs := fs.Append(inode, bytes);
    }

    /** `store_blob`: links the temporary file under its digest, or checks the blob already there. */
    method StoreBlob(sha: Sha256, temporary: Path, digest: string, expectedBytes: nat,
                     linkFault: bool, readFault: bool, removeFault: bool)
      returns (r: Result<Path, TaskError>)
      requires fs.Valid() && fs.Exists(temporary) && temporary.dir == TEMP_DIR
      modifies this`fs
      ensures fs.Valid() && fs.data == old(fs).data
      ensures Extends(old(fs), fs, {temporary}, p => p == BlobPath(digest))
      ensures r.Ok? ==> r.value == BlobPath(digest) && ValidSha256(digest) && fs.Exists(r.value) && !fs.Exists(temporary)
      ensures r.Ok? ==> if old(fs).Exists(r.value) then BlobMatches(sha, fs.Read(r.value), digest, expectedBytes)
                        else fs.Read(r.value) == old(fs).Read(temporary)
      ensures r.Err? ==> old(fs).Keeps(fs, temporary) && Plain(r.error)
      ensures r.Err? ==>
        || linkFault || readFault || removeFault || !ValidSha256(digest)
        || (old(fs).Exists(BlobPath(digest)) && !BlobMatches(sha, fs.Read(BlobPath(digest)), digest, expectedBytes))
      ensures digest == Sha256Hex(sha, old(fs).Read(temporary)) && expectedBytes == |old(fs).Read(temporary)| ==>
                IsStorePath(sha, old(fs), fs, temporary, old(fs).Read(temporary), r)
    {
      StoredAloneIsReached(sha, fs, temporary, fs.Read(temporary), linkFault, readFault, removeFault);
      if !ValidSha256(digest) {
        return Err(RECEIPT_ERROR);
      }
      var target := BlobPath(digest);
      if !fs.Exists(target) {
        if linkFault {
          return Err(IO_ERROR);
        }
        var linked := fs.Link(temporary, target);
        fs := linked;
        if removeFault {
          return Err(IO_ERROR);
        }
      } else {
        if readFault {
          return Err(IO_ERROR);
        }
        if !BlobMatches(sha, fs.Read(target), digest, expectedBytes) {
          return Err(RECEIPT_ERROR);
        }
        if removeFault {
          return Err(IO_ERROR);
        }
      }
      fs := fs.Remove(temporary);
      r := Ok(target);
    }

    /** `preflight_json_output`. */
    method PreflightJsonOutput(path: Path, fault: bool) returns (r: Result<Unit, TaskError>)
      requires fs.Valid()
      ensures r.Ok? <==> !fault && !fs.Exists(path)
      ensures r.Err? ==> r.error == if fault then IO_ERROR else OUTPUT_EXISTS_ERROR
    {
      if fault {
        return Err(IO_ERROR);
      }
      r := if fs.Exists(path) then Err(OUTPUT_EXISTS_ERROR) else Ok(Unit);
    }

    /** `write_json_atomic`: the path becomes the complete document, or is left exactly as it was. */
    method WriteJsonAtomic(path: Path, json: Bytes, faults: nat -> bool) returns (r: Result<Unit, TaskError>)
      requires fs.Valid()
      modifies this
      ensures fs.Valid()
      ensures Extends(old(fs), fs, {}, p => p == path || TempOf(path, p))
      ensures r.Ok? ==> !old(fs).Exists(path) && fs.Exists(path) && fs.Read(path) == json + NEWLINE
      ensures r.Err? ==> (fs.Exists(path) <==> old(fs).Exists(path)) && Plain(r.error)
      ensures r.Err? && (forall k :: !faults(k)) ==> r.error == if old(fs).Exists(path) then OUTPUT_EXISTS_ERROR else EXECUTION_ERROR
      ensures r.Err? && (forall k :: !faults(k)) ==> old(fs).Exists(path) || Crowded(old(fs), path, old(sequence))
      ensures sequence >= old(sequence)
      ensures IsPublicationPath(path, json + NEWLINE, old(fs), fs, r)
    {
      ghost var doc, foreign := json + NEWLINE, Found(fs, path);
      var preflight := PreflightJsonOutput(path, faults(0));
      Publication.AloneMoves(path, doc, foreign, fs, Publication.Preflight, faults(0), "", 0);
      if preflight.Err? {
        return Err(preflight.error);
      }
      var chosen: Option<Path> := None;
      for attempt := 0 to Publication.MAX_ATTEMPTS
        invariant fs == old(fs) && chosen == None && sequence == old(sequence) + attempt
        invariant DocumentsTaken(fs, path, old(sequence), sequence)
        invariant Publication.ReachesAlone(path, doc, foreign, fs, Publication.Preflight, fs, Publication.Allocating(attempt))
      {
        var suffix := processId + "." + Decimal(sequence);
        var temporary := Publication.TempPath(path, suffix);
        assert temporary == DocumentPath(path, sequence);
        sequence := sequence + 1;
        AllocationStep(path, doc, foreign, fs, attempt, faults(1 + attempt), suffix);
        if fs.Exists(temporary) {
          continue;
        }
        if faults(1 + attempt) {
          return Err(IO_ERROR);
        }
        chosen := Some(temporary);
        break;
      }
      if chosen.None? {
        AllocationStep(path, doc, foreign, fs, Publication.MAX_ATTEMPTS, false, "");
        return Err(EXECUTION_ERROR);
      }
      PublicationStep(path, json, foreign, fs, chosen.value, faults);
      r := WriteAndLink(path, chosen.value, json, faults);
    }

    /** The closure of `write_json_atomic` on a name it may create, and its clean-up. */
    method WriteAndLink(path: Path, temporary: Path, json: Bytes, faults: nat -> bool) returns (r: Result<Unit, TaskError>)
      requires fs.Valid() && !fs.Exists(path) && !fs.Exists(temporary) && TempOf(path, temporary)
      modifies this`fs
      ensures fs.Valid()
      ensures Extends(old(fs), fs, {}, p => p == path || TempOf(path, p))
      ensures r.Ok? ==> fs.Exists(path) && fs.Read(path) == json + NEWLINE
      ensures r.Err? ==> !fs.Exists(path) && r.error == IO_ERROR && exists k :: faults(k)
      ensures (fs, Publication.Finished(RecordedUnit(r))) == Written(old(fs), path, json, temporary, faults)
    {
      Publication.WritesAppend(fs, json, NEWLINE, temporary);
      ghost var before := fs;
      var inode := |fs.data|;
      fs := fs.CreateNew(temporary);
      if faults(101) {
        CleanUp(before, path, temporary, []);
        WrittenFails(before, path, json, temporary, faults);
        return Err(IO_ERROR);
      }
      fs := fs.Append(inode, json);
      if faults(102) {
        CleanUp(before, path, temporary, json);
        WrittenFails(before, path, json, temporary, faults);
        return Err(IO_ERROR);
      }
      fs := fs.Append(inode, NEWLINE);
      if faults(103) || faults(104) {
        CleanUp(before, path, temporary, json + NEWLINE);
        WrittenFails(before, path, json, temporary, faults);
        return Err(IO_ERROR);
      }
      fs := fs.Link(temporary, path);
      if !faults(105) {
        fs := fs.Remove(temporary);
      }
      LinkExtends(before, path, temporary, json + NEWLINE, !faults(105));
      Publication.WritesSucceed(before, path, json, NEWLINE, temporary, faults(105));
      r := Ok(Unit);
    }

    /** Removes the temporary name after a failed call. */
    method CleanUp(ghost before: FS, path: Path, temporary: Path, ghost content: Bytes)
      requires before.Valid() && !before.Exists(temporary) && fs == Publication.WithTemp(before, temporary, content)
      modifies this`fs
      ensures fs == Publication.Orphaned(before, content) && fs.Valid()
      ensures Extends(before, fs, {}, p => p == path || TempOf(path, p))
    {
      Publication.RemovedIsOrphaned(before, temporary, content);
      OrphanExtends(before, path, content);
      fs := fs.Remove(temporary);
    }

    /** `write_receipt`: a receipt that is stored is at most 4 MiB, the bound the reader applies. */
    method WriteReceipt(codec: Codec, receipt: Receipt, faults: nat -> bool) returns (r: Result<Path, TaskError>)
      requires fs.Valid()
      modifies this
      ensures fs.Valid()
      ensures var path := ReceiptPath(receipt.receiptId);
              && Extends(old(fs), fs, {}, p => p == path || TempOf(path, p))
              && (r.Ok? ==> r.value == path && ValidReceiptId(receipt.receiptId) && Holds(codec, fs, receipt))
              && (r.Ok? && !old(fs).Exists(path) ==>
                    fs.Exists(path) && fs.Read(path) == Document(codec, receipt) && |fs.Read(path)| <= MAX_RECEIPT_BYTES)
              && (r.Err? ==> (fs.Exists(path) <==> old(fs).Exists(path)))
      ensures r.Err? ==> Plain(r.error)
      ensures !ValidReceiptId(receipt.receiptId) ==> r.Err? && fs == old(fs)
      ensures r.Err? && ValidReceiptId(receipt.receiptId) && (forall k :: !faults(k)) ==>
                Refuses(codec, old(fs), old(sequence), receipt) && r.error in {RECEIPT_ERROR, NewError("json_invalid", 5), EXECUTION_ERROR}
      ensures sequence >= old(sequence)
    {
      if !ValidReceiptId(receipt.receiptId) {
        return Err(RECEIPT_ERROR);
      }
      var path := ReceiptPath(receipt.receiptId);
      if |codec.emit(receipt)| + 1 > MAX_RECEIPT_BYTES {
        return Err(RECEIPT_ERROR);
      }
      if fs.Exists(path) {
        var existing := ReadReceipt(codec, fs, path);
        if existing.Err? {
          return Err(existing.error);
        }
        if existing.value.canonicalDigest == receipt.canonicalDigest {
          return Ok(path);
        }
        return Err(RECEIPT_ERROR);
      }
      var written := WriteJsonAtomic(path, codec.emit(receipt), faults);
      if written.Err? {
        return Err(written.error);
      }
      r := Ok(path);
    }
  }

  /** The store has, under the receipt's id, either the receipt's own document or one with its digest. */
  ghost predicate Holds(codec: Codec, fs: FS, receipt: Receipt) {
    var path := ReceiptPath(receipt.receiptId);
    && fs.Valid() && fs.Exists(path)
    && (|| (fs.Read(path) == Document(codec, receipt) && |fs.Read(path)| <= MAX_RECEIPT_BYTES)
        || (var stored := ReadReceipt(codec, fs, path);
            stored.Ok? && stored.value.canonicalDigest == receipt.canonicalDigest))
  }

  /** With a codec that round-trips on it, a stored receipt is read back; `ReceiptCodec` builds such a codec. */
  lemma StoredReceiptReadsBack(codec: Codec, fs: FS, receipt: Receipt)
    requires Holds(codec, fs, receipt) && RoundTrips(codec, receipt)
    ensures var stored := ReadReceipt(codec, fs, ReceiptPath(receipt.receiptId));
            stored.Ok? && stored.value.canonicalDigest == receipt.canonicalDigest
    ensures fs.Read(ReceiptPath(receipt.receiptId)) == Document(codec, receipt) ==>
              ReadReceipt(codec, fs, ReceiptPath(receipt.receiptId)) == Ok(receipt)
  {
  }
}
