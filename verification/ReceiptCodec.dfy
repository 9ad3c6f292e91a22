/** The codec the state store uses (src/store.rs): a receipt is emitted through the published schema and read back by
    the strict reader. Only the JSON printer and parser are parameters, with one hypothesis, `PrintsAndParses`; fields
    that no modelled operation reads travel in `Extras`. */
module ReceiptCodec {
  import opened Basics
  import opened FileSystem
  import opened Model
  import opened Json
  import opened StrictReader
  import opened Records
  import opened ReceiptRecords
  import opened StateStore

  /** The fields of a receipt that no modelled operation reads: the schema version of the discovery report, the tool
      version, two diagnostic summaries per execution, and toolchains, environment, redaction, non-hermetic inputs,
      artifacts and annotations as typed data. */
  datatype Extras = Extras(discoverySchema: string, toolVersion: string, summaries: seq<(string, string)>, policy: seq<Data>)

  function PolicyRest(): Fields {
    PolicyFields().rest
  }

  function Pairs(checks: seq<CheckExecution>, summaries: seq<(string, string)>): (r: seq<SummarisedExecution>)
    requires |checks| == |summaries|
    ensures |r| == |checks|
  {
    seq(|checks|, i requires 0 <= i < |checks| => (checks[i], summaries[i]))
  }

  function Firsts(xs: seq<SummarisedExecution>): seq<CheckExecution> {
    seq(|xs|, i requires 0 <= i < |xs| => xs[i].0)
  }

  function Seconds(xs: seq<SummarisedExecution>): seq<(string, string)> {
    seq(|xs|, i requires 0 <= i < |xs| => xs[i].1)
  }

  /** Every number has the width of its field; Rust's types guarantee this. */
  predicate Fits(r: Receipt, x: Extras) {
    var p := r.payload;
    && SourceFits(p.source) && SourceFits(p.sourceAfter) && InvocationFits(p.invocation) && SourceFits(p.discovery.source)
    && U64(p.startedUnixMs) && U64(p.completedUnixMs) && U64(p.durationMs)
    && |x.summaries| == |p.checks| && (forall i :: 0 <= i < |p.checks| ==> ExecutionFits((p.checks[i], x.summaries[i])))
    && TypedBy(PolicyRest(), x.policy)
  }

  function IdPart(r: Receipt): seq<Data> {
    [DText(r.receiptId), DText(r.canonicalDigest)]
  }

  function SourcePart(p: ReceiptPayload, x: Extras): seq<Data> {
    [DText(p.schemaVersion), DText(x.toolVersion), SourceData(p.source), SourceData(p.sourceAfter),
     DBool(p.sourceUnchanged), InvocationData(p.invocation)]
  }

  function DiscoveryPart(p: ReceiptPayload, x: Extras): seq<Data> {
    [DiscoveryData((p.discovery, x.discoverySchema))]
  }

  function TimingPart(p: ReceiptPayload): seq<Data> {
    [DNumber(p.startedUnixMs), DNumber(p.completedUnixMs), DNumber(p.durationMs), DText(ReceiptOutcomeText(p.outcome))]
  }

  function ExecutionPart(p: ReceiptPayload, x: Extras): seq<Data>
    requires |x.summaries| == |p.checks|
  {
    [Many(Pairs(p.checks, x.summaries), ExecutionData)]
  }

  function PolicyPart(p: ReceiptPayload, x: Extras): seq<Data> {
    [TextsData(p.coverageGaps)] + x.policy
  }

  /** The values of a receipt in declaration order, the payload flattened into it. */
  function ReceiptParts(r: Receipt, x: Extras): seq<Data>
    requires |x.summaries| == |r.payload.checks|
  {
    var p := r.payload;
    IdPart(r) + (SourcePart(p, x) + (DiscoveryPart(p, x) + ((TimingPart(p) + ExecutionPart(p, x)) + PolicyPart(p, x))))
  }

  function ToData(r: Receipt, x: Extras): Data
    requires |x.summaries| == |r.payload.checks|
  {
    Record(ReceiptParts(r, x))
  }

  function SourceOf(p: seq<Data>): Option<(string, string, SourceIdentity, SourceIdentity, bool, Invocation)> {
    if |p| == 6 && p[0].DText? && p[1].DText? && SourceFrom(p[2]).Some? && SourceFrom(p[3]).Some? && p[4].DBool?
       && InvocationFrom(p[5]).Some?
    then Some((p[0].s, p[1].s, SourceFrom(p[2]).value, SourceFrom(p[3]).value, p[4].value, InvocationFrom(p[5]).value))
    else None
  }

  function TimingOf(p: seq<Data>): Option<(nat, nat, nat, ReceiptOutcome)> {
    if |p| == 4 && NatFrom(p[0]).Some? && NatFrom(p[1]).Some? && NatFrom(p[2]).Some? && ReceiptOutcomeFrom(p[3]).Some?
    then Some((NatFrom(p[0]).value, NatFrom(p[1]).value, NatFrom(p[2]).value, ReceiptOutcomeFrom(p[3]).value))
    else None
  }

  /** The receipt of its parts, once each has been read. */
  function Assembled(id: string, digest: string, s: (string, string, SourceIdentity, SourceIdentity, bool, Invocation),
                     discovery: VersionedReport, t: (nat, nat, nat, ReceiptOutcome), executions: seq<SummarisedExecution>,
                     gaps: seq<string>, policy: seq<Data>): (Receipt, Extras) {
    (Receipt(id, digest, ReceiptPayload(s.0, s.2, s.3, s.4, s.5, discovery.0, t.0, t.1, t.2, t.3, Firsts(executions), gaps)),
     Extras(discovery.1, s.1, Seconds(executions), policy))
  }

  function FromData(d: Data): Option<(Receipt, Extras)> {
    var p := Parts(d);
    if |p| != 21 || !p[0].DText? || !p[1].DText? then None
    else
      match (SourceOf(p[2..8]), DiscoveryFrom(p[8]), TimingOf(p[9..13]), ManyFrom(p[13], ExecutionFrom), TextsFrom(p[14]))
      case (Some(s), Some(discovery), Some(t), Some(executions), Some(gaps)) =>
        Some(Assembled(p[0].s, p[1].s, s, discovery, t, executions, gaps, p[15..]))
      case _ => None
  }

  // A receipt is typed data, and read back unchanged.

  lemma IdTyped(r: Receipt)
    ensures FieldsHaveType(IdFields(), ListOf(IdPart(r)))
  {
    var fields := IdFields();
    assert SchemaAt(fields, 0) == SText && SchemaAt(fields, 1) == SText;
    FieldsTyped(fields, IdPart(r));
  }

  lemma SourceSchemasAre()
    ensures Length(SourceFields()) == 6
    ensures SchemaAt(SourceFields(), 0) == SText && SchemaAt(SourceFields(), 1) == SText
    ensures SchemaAt(SourceFields(), 2) == SourceSchema() && SchemaAt(SourceFields(), 3) == SourceSchema()
    ensures SchemaAt(SourceFields(), 4) == SBool && SchemaAt(SourceFields(), 5) == InvocationSchema()
  {
  }

  lemma SourceTyped(p: ReceiptPayload, x: Extras)
    requires SourceFits(p.source) && SourceFits(p.sourceAfter) && InvocationFits(p.invocation)
    ensures FieldsHaveType(SourceFields(), ListOf(SourcePart(p, x)))
    ensures SourceOf(SourcePart(p, x))
            == Some((p.schemaVersion, x.toolVersion, p.source, p.sourceAfter, p.sourceUnchanged, p.invocation))
  {
    SourceCodec(p.source);
    SourceCodec(p.sourceAfter);
    InvocationCodec(p.invocation);
    SourceSchemasAre();
    FieldsTyped(SourceFields(), SourcePart(p, x));
  }

  lemma DiscoveryTypedPart(p: ReceiptPayload, x: Extras)
    requires SourceFits(p.discovery.source)
    ensures FieldsHaveType(DiscoveryFields(), ListOf(DiscoveryPart(p, x)))
    ensures DiscoveryFrom(DiscoveryPart(p, x)[0]) == Some((p.discovery, x.discoverySchema))
  {
    DiscoveryCodec((p.discovery, x.discoverySchema));
    assert Length(DiscoveryFields()) == 1 && SchemaAt(DiscoveryFields(), 0) == DiscoverySchema();
    FieldsTyped(DiscoveryFields(), DiscoveryPart(p, x));
  }

  lemma TimingTyped(p: ReceiptPayload)
    requires U64(p.startedUnixMs) && U64(p.completedUnixMs) && U64(p.durationMs)
    ensures FieldsHaveType(TimingFields(), ListOf(TimingPart(p)))
    ensures TimingOf(TimingPart(p)) == Some((p.startedUnixMs, p.completedUnixMs, p.durationMs, p.outcome))
  {
    ReceiptOutcomeCodec(p.outcome);
    var fields := TimingFields();
    assert SchemaAt(fields, 0) == U64Schema() && SchemaAt(fields, 1) == U64Schema() && SchemaAt(fields, 2) == U64Schema();
    assert SchemaAt(fields, 3) == ReceiptOutcomeSchema();
    FieldsTyped(fields, TimingPart(p));
  }

  lemma ExecutionTypedPart(p: ReceiptPayload, x: Extras)
    requires |x.summaries| == |p.checks| && forall i :: 0 <= i < |p.checks| ==> ExecutionFits((p.checks[i], x.summaries[i]))
    ensures FieldsHaveType(ExecutionFields(), ListOf(ExecutionPart(p, x)))
    ensures ManyFrom(ExecutionPart(p, x)[0], ExecutionFrom) == Some(Pairs(p.checks, x.summaries))
  {
    ExecutionsCodec(Pairs(p.checks, x.summaries));
    assert Length(ExecutionFields()) == 1 && SchemaAt(ExecutionFields(), 0) == SList(ExecutionSchema());
    FieldsTyped(ExecutionFields(), ExecutionPart(p, x));
  }

  lemma PolicyTyped(p: ReceiptPayload, x: Extras)
    requires TypedBy(PolicyRest(), x.policy)
    ensures FieldsHaveType(PolicyFields(), ListOf(PolicyPart(p, x)))
    ensures |PolicyPart(p, x)| == 7 && TextsFrom(PolicyPart(p, x)[0]) == Some(p.coverageGaps)
  {
    TextsCodec(p.coverageGaps);
    FieldsTyped(PolicyRest(), x.policy);
    assert Length(PolicyRest()) == 6;
    assert PolicyPart(p, x)[1..] == x.policy;
  }

  /** A receipt is data of the published schema. */
  lemma ReceiptTyped(r: Receipt, x: Extras)
    requires Fits(r, x)
    ensures HasType(ReceiptSchema(), ToData(r, x))
  {
    var p := r.payload;
    IdTyped(r);
    SourceTyped(p, x);
    DiscoveryTypedPart(p, x);
    TimingTyped(p);
    ExecutionTypedPart(p, x);
    PolicyTyped(p, x);
    var timing, discovery, source := TimingPart(p) + ExecutionPart(p, x), DiscoveryPart(p, x), SourcePart(p, x);
    AppendTyped(TimingFields(), ExecutionFields(), TimingPart(p), ExecutionPart(p, x));
    AppendTyped(ResultFields(), PolicyFields(), timing, PolicyPart(p, x));
    AppendTyped(DiscoveryFields(), Append(ResultFields(), PolicyFields()), discovery, timing + PolicyPart(p, x));
    AppendTyped(SourceFields(), Append(DiscoveryFields(), Append(ResultFields(), PolicyFields())), source,
                discovery + (timing + PolicyPart(p, x)));
    AppendTyped(IdFields(), PayloadFields(), IdPart(r), source + (discovery + (timing + PolicyPart(p, x))));
  }

  lemma PairsApart(checks: seq<CheckExecution>, summaries: seq<(string, string)>)
    requires |checks| == |summaries|
    ensures Firsts(Pairs(checks, summaries)) == checks && Seconds(Pairs(checks, summaries)) == summaries
  {
  }

  lemma PartsApart(id: seq<Data>, source: seq<Data>, discovery: seq<Data>, timing: seq<Data>, execution: seq<Data>, policy: seq<Data>)
    requires |id| == 2 && |source| == 6 && |discovery| == 1 && |timing| == 4 && |execution| == 1 && |policy| == 7
    ensures var p := id + (source + (discovery + ((timing + execution) + policy)));
            && |p| == 21 && p[0] == id[0] && p[1] == id[1] && p[2..8] == source && p[8] == discovery[0]
            && p[9..13] == timing && p[13] == execution[0] && p[14] == policy[0] && p[15..] == policy[1..]
  {
  }

  /** Nothing is lost on the way to data and back. */
  lemma ReceiptBack(r: Receipt, x: Extras)
    requires Fits(r, x)
    ensures FromData(ToData(r, x)) == Some((r, x))
  {
    var p := r.payload;
    RecordParts(ReceiptParts(r, x));
    SourceTyped(p, x);
    DiscoveryTypedPart(p, x);
    TimingTyped(p);
    ExecutionTypedPart(p, x);
    PolicyTyped(p, x);
    PairsApart(p.checks, x.summaries);
    PartsApart(IdPart(r), SourcePart(p, x), DiscoveryPart(p, x), TimingPart(p), ExecutionPart(p, x), PolicyPart(p, x));
    assert PolicyPart(p, x)[1..] == x.policy;
  }

  // All typed data is a receipt.

  lemma {:induction false} SplitTyped(a: Fields, b: Fields, ds: seq<Data>)
    requires FieldsHaveType(Append(a, b), ListOf(ds))
    ensures Length(a) <= |ds| && TypedBy(a, ds[..Length(a)]) && FieldsHaveType(b, ListOf(ds[Length(a)..]))
  {
    if a.Field? {
      SplitTyped(a.rest, b, ds[1..]);
      assert ds[1..][..Length(a.rest)] == ds[..Length(a)][1..] && ds[1..][Length(a.rest)..] == ds[Length(a)..];
      FieldsTyped(a.rest, ds[1..][..Length(a.rest)]);
      FieldsTyped(a, ds[..Length(a)]);
    } else {
      assert ds[0..] == ds;
    }
  }

  lemma SourceTotalPart(ds: seq<Data>)
    requires TypedBy(SourceFields(), ds)
    ensures SourceOf(ds).Some?
  {
    SourceSchemasAre();
    assert HasType(SchemaAt(SourceFields(), 0), ds[0]) && HasType(SchemaAt(SourceFields(), 1), ds[1]);
    assert HasType(SchemaAt(SourceFields(), 4), ds[4]);
    SourceTotal(ds[2]);
    SourceTotal(ds[3]);
    InvocationTotal(ds[5]);
  }

  lemma TimingTotalPart(ds: seq<Data>)
    requires TypedBy(TimingFields(), ds)
    ensures TimingOf(ds).Some?
  {
    var fields := TimingFields();
    assert Length(fields) == 4 && SchemaAt(fields, 0) == U64Schema() && SchemaAt(fields, 1) == U64Schema();
    assert SchemaAt(fields, 2) == U64Schema() && SchemaAt(fields, 3) == ReceiptOutcomeSchema();
    assert HasType(SchemaAt(fields, 0), ds[0]) && HasType(SchemaAt(fields, 1), ds[1]) && HasType(SchemaAt(fields, 2), ds[2]);
    ReceiptOutcomeTotal(ds[3]);
  }

  lemma DiscoveryTotalPart(ds: seq<Data>)
    requires TypedBy(DiscoveryFields(), ds)
    ensures |ds| == 1 && DiscoveryFrom(ds[0]).Some?
  {
    assert Length(DiscoveryFields()) == 1 && SchemaAt(DiscoveryFields(), 0) == DiscoverySchema();
    DiscoveryTotal(ds[0]);
  }

  lemma ExecutionTotalPart(ds: seq<Data>)
    requires TypedBy(ExecutionFields(), ds)
    ensures |ds| == 1 && ManyFrom(ds[0], ExecutionFrom).Some?
  {
    assert Length(ExecutionFields()) == 1 && SchemaAt(ExecutionFields(), 0) == SList(ExecutionSchema());
    ExecutionsTotal(ds[0]);
  }

  lemma PolicySchemasAre()
    ensures Length(PolicyFields()) == 7 && SchemaAt(PolicyFields(), 0) == TextsSchema()
  {
  }

  lemma GapsTotalPart(policy: Fields, ds: seq<Data>)
    requires Length(policy) == 7 && SchemaAt(policy, 0) == TextsSchema() && FieldsHaveType(policy, ListOf(ds))
    ensures |ds| == 7 && TextsFrom(ds[0]).Some?
  {
    FieldsTyped(policy, ds);
    assert HasType(SchemaAt(policy, 0), ds[0]);
    TextsTotal(ds[0]);
  }

  lemma IdTotalPart(ds: seq<Data>)
    requires TypedBy(IdFields(), ds)
    ensures |ds| == 2 && ds[0].DText? && ds[1].DText?
  {
    var fields := IdFields();
    assert Length(fields) == 2 && SchemaAt(fields, 0) == SText && SchemaAt(fields, 1) == SText;
    assert HasType(SchemaAt(fields, 0), ds[0]) && HasType(SchemaAt(fields, 1), ds[1]);
  }

  lemma GroupLengths()
    ensures Length(IdFields()) == 2 && Length(SourceFields()) == 6 && Length(DiscoveryFields()) == 1
    ensures Length(TimingFields()) == 4 && Length(ExecutionFields()) == 1
  {
  }

  lemma ResultsApart(timing: Fields, execution: Fields, ds: seq<Data>)
    requires Length(timing) == 4 && Length(execution) == 1 && TypedBy(Append(timing, execution), ds)
    ensures |ds| == 5 && TypedBy(timing, ds[..4]) && TypedBy(execution, ds[4..])
  {
    FieldsTyped(Append(timing, execution), ds);
    SplitTyped(timing, execution, ds);
    FieldsTyped(execution, ds[4..]);
  }

  lemma {:induction false} AppendLength(a: Fields, b: Fields)
    ensures Length(Append(a, b)) == Length(a) + Length(b)
  {
    if a.Field? {
      AppendLength(a.rest, b);
    }
  }

  /** Typed values of concatenated groups are typed values of each group, in order. */
  lemma GroupsApart(ids: Fields, source: Fields, discovery: Fields, timing: Fields, execution: Fields, policy: Fields, p: seq<Data>)
    requires Length(ids) == 2 && Length(source) == 6 && Length(discovery) == 1 && Length(timing) == 4 && Length(execution) == 1
    requires FieldsHaveType(Append(ids, Append(source, Append(discovery, Append(Append(timing, execution), policy)))), ListOf(p))
    ensures |p| >= 14 && TypedBy(ids, p[..2]) && TypedBy(source, p[2..8]) && TypedBy(discovery, p[8..9])
    ensures TypedBy(timing, p[9..13]) && TypedBy(execution, p[13..14]) && FieldsHaveType(policy, ListOf(p[14..]))
  {
    var result := Append(timing, execution);
    AppendLength(timing, execution);
    SplitTyped(ids, Append(source, Append(discovery, Append(result, policy))), p);
    SplitTyped(source, Append(discovery, Append(result, policy)), p[2..]);
    assert p[2..][..6] == p[2..8] && p[2..][6..] == p[8..];
    SplitTyped(discovery, Append(result, policy), p[8..]);
    assert p[8..][..1] == p[8..9] && p[8..][1..] == p[9..];
    SplitTyped(result, policy, p[9..]);
    assert p[9..][..5] == p[9..14] && p[9..][5..] == p[14..];
    ResultsApart(timing, execution, p[9..14]);
    assert p[9..14][..4] == p[9..13] && p[9..14][4..] == p[13..14];
  }

  /** The groups of a receipt, each typed by the fields it has. */
  predicate GroupsTyped(ids: Fields, source: Fields, discovery: Fields, timing: Fields, execution: Fields, policy: Fields,
                        p: seq<Data>) {
    && |p| >= 14 && TypedBy(ids, p[..2]) && TypedBy(source, p[2..8]) && TypedBy(discovery, p[8..9])
    && TypedBy(timing, p[9..13]) && TypedBy(execution, p[13..14]) && FieldsHaveType(policy, ListOf(p[14..]))
  }

  /** Every group of a flattened receipt can be read. */
  lemma GroupsTotal(ids: Fields, source: Fields, discovery: Fields, timing: Fields, execution: Fields, policy: Fields,
                    p: seq<Data>)
    requires ids == IdFields() && source == SourceFields() && discovery == DiscoveryFields() && timing == TimingFields()
    requires execution == ExecutionFields() && Length(policy) == 7 && SchemaAt(policy, 0) == TextsSchema()
    requires GroupsTyped(ids, source, discovery, timing, execution, policy, p)
    ensures |p| == 21 && p[0].DText? && p[1].DText? && SourceOf(p[2..8]).Some? && DiscoveryFrom(p[8]).Some?
    ensures TimingOf(p[9..13]).Some? && ManyFrom(p[13], ExecutionFrom).Some? && TextsFrom(p[14]).Some?
  {
    IdTotalPart(p[..2]);
    SourceTotalPart(p[2..8]);
    DiscoveryTotalPart(p[8..9]);
    TimingTotalPart(p[9..13]);
    ExecutionTotalPart(p[13..14]);
    GapsTotalPart(policy, p[14..]);
  }

  lemma ReceiptGroups(p: seq<Data>)
    requires FieldsHaveType(Append(IdFields(), PayloadFields()), ListOf(p))
    ensures GroupsTyped(IdFields(), SourceFields(), DiscoveryFields(), TimingFields(), ExecutionFields(), PolicyFields(), p)
  {
    GroupLengths();
    GroupsApart(IdFields(), SourceFields(), DiscoveryFields(), TimingFields(), ExecutionFields(), PolicyFields(), p);
  }

  lemma ReceiptPartsTotal(p: seq<Data>)
    requires GroupsTyped(IdFields(), SourceFields(), DiscoveryFields(), TimingFields(), ExecutionFields(), PolicyFields(), p)
    ensures |p| == 21 && p[0].DText? && p[1].DText? && SourceOf(p[2..8]).Some? && DiscoveryFrom(p[8]).Some?
    ensures TimingOf(p[9..13]).Some? && ManyFrom(p[13], ExecutionFrom).Some? && TextsFrom(p[14]).Some?
  {
    PolicySchemasAre();
    GroupsTotal(IdFields(), SourceFields(), DiscoveryFields(), TimingFields(), ExecutionFields(), PolicyFields(), p);
  }

  /** So reading never refuses what the strict reader accepts. */
  lemma TypedIsReceipt(d: Data)
    requires HasType(ReceiptSchema(), d)
    ensures FromData(d).Some?
  {
    ListOfSeq(d.items);
    ReceiptGroups(Parts(d));
    ReceiptPartsTotal(Parts(d));
  }

  // The codec, and what it means for the store.

  /** What `serde_json` is relied on for: a printed receipt and its newline parse to a duplicate-free document with the
      printed value. */
  ghost predicate PrintsAndParses(printer: Value -> Bytes, parse: Bytes -> Option<Json>) {
    forall d :: HasType(ReceiptSchema(), d) ==>
      var doc := parse(printer(Emit(ReceiptSchema(), d)) + NEWLINE);
      doc.Some? && DistinctKeys(doc.value) && Normalize(doc.value) == Emit(ReceiptSchema(), d)
  }

  /** The printed receipt; a receipt that does not fit its types does not exist in the program. */
  function Printed(printer: Value -> Bytes, extras: Receipt -> Extras, r: Receipt): Bytes {
    if Fits(r, extras(r)) then
      ReceiptTyped(r, extras(r));
      printer(Emit(ReceiptSchema(), ToData(r, extras(r))))
    else []
  }

  /** `parse_receipt_document` and the receipt it yields. */
  function ReadBytes(parse: Bytes -> Option<Json>, bytes: Bytes): Result<Receipt, ReadFailure> {
    match ParseReceiptDocument(parse, bytes)
    case Err(e) => Err(e)
    case Ok(d) =>
      match FromData(d)
      case Some((r, _)) => Ok(r)
      case None => Err(ReceiptInvalid)
  }

  function JsonCodec(printer: Value -> Bytes, parse: Bytes -> Option<Json>, extras: Receipt -> Extras): Codec {
    Codec(r => Printed(printer, extras, r), bytes => ReadBytes(parse, bytes))
  }

  /** Reading fails exactly when the strict reader does, with its error. */
  lemma ReadsWhatIsAccepted(parse: Bytes -> Option<Json>, bytes: Bytes)
    ensures ReadBytes(parse, bytes).Ok? <==> ParseReceiptDocument(parse, bytes).Ok?
    ensures ReadBytes(parse, bytes).Err? ==> ParseReceiptDocument(parse, bytes) == Err(ReadBytes(parse, bytes).error)
  {
    var parsed := ParseReceiptDocument(parse, bytes);
    if parsed.Ok? {
      DecodeTyped(ReceiptSchema(), parse(bytes).value);
      TypedIsReceipt(parsed.value);
    }
  }

  /** A printed receipt within the size bound is read back unchanged. */
  lemma CodecRoundTrips(printer: Value -> Bytes, parse: Bytes -> Option<Json>, extras: Receipt -> Extras, r: Receipt)
    requires PrintsAndParses(printer, parse) && Fits(r, extras(r))
    requires |Document(JsonCodec(printer, parse, extras), r)| <= MAX_RECEIPT_BYTES
    ensures RoundTrips(JsonCodec(printer, parse, extras), r)
  {
    var codec, d := JsonCodec(printer, parse, extras), ToData(r, extras(r));
    ReceiptTyped(r, extras(r));
    var doc := parse(Document(codec, r));
    StoredReceiptParses(parse, Document(codec, r), doc.value, d);
    ReceiptBack(r, extras(r));
  }

  /** `write_receipt`, then `read_receipt_file` on what it left: a receipt that was stored is read back unchanged, or,
      where the path was taken, a receipt with its digest is. */
  method WriteThenRead(store: Store, printer: Value -> Bytes, parse: Bytes -> Option<Json>, ghost extras: Receipt -> Extras,
                       codec: Codec, receipt: Receipt, faults: nat -> bool)
    returns (written: Result<Path, TaskError>, read: Result<Receipt, TaskError>)
    requires store.fs.Valid() && codec == JsonCodec(printer, parse, extras)
    requires PrintsAndParses(printer, parse) && Fits(receipt, extras(receipt))
    modifies store
    ensures store.fs.Valid()
    ensures written.Ok? ==> read.Ok? && read.value.canonicalDigest == receipt.canonicalDigest
    ensures written.Ok? && !old(store.fs).Exists(ReceiptPath(receipt.receiptId)) ==> read == Ok(receipt)
  {
    ghost var path := ReceiptPath(receipt.receiptId);
    written := store.WriteReceipt(codec, receipt, faults);
    if written.Err? {
      return written, Err(written.error);
    }
    read := ReadReceipt(codec, store.fs, written.value);
    HeldIsReadBack(printer, parse, extras, store.fs, receipt);
  }

  /** Whatever a run leaves in the store under a receipt's id reads back as that receipt, or as one with its digest. */
  lemma HeldIsReadBack(printer: Value -> Bytes, parse: Bytes -> Option<Json>, extras: Receipt -> Extras, fs: FS, receipt: Receipt)
    requires PrintsAndParses(printer, parse) && Fits(receipt, extras(receipt))
    requires Holds(JsonCodec(printer, parse, extras), fs, receipt)
    ensures var codec, path := JsonCodec(printer, parse, extras), ReceiptPath(receipt.receiptId);
            var read := ReadReceipt(codec, fs, path);
            && read.Ok? && read.value.canonicalDigest == receipt.canonicalDigest
            && (fs.Read(path) == Document(codec, receipt) && |fs.Read(path)| <= MAX_RECEIPT_BYTES ==> read == Ok(receipt))
  {
    var codec := JsonCodec(printer, parse, extras);
    if |Document(codec, receipt)| <= MAX_RECEIPT_BYTES {
      CodecRoundTrips(printer, parse, extras, receipt);
      StoredReceiptReadsBack(codec, fs, receipt);
    }
  }
}
