/** The strict receipt reader (src/store.rs) over any document schema, and the schema of the receipt (src/model.rs). */
module StrictReader {
  // Decoding is as lenient as typed deserialisation is: unknown members are ignored, missing optional members default,
  // records may be arrays and unit variants may be objects.

  import opened Basics
  import opened Json
  import StateStore

  datatype Schema =
    | SText
    | SBool
    | SNumber(lo: int, hi: int)
    | SEnum(names: set<string>)
    | SOption(inner: Schema)
    | SList(inner: Schema)
    | STextMap
    | SRecord(fields: Fields)

  datatype Fields = NoFields | Field(name: string, schema: Schema, rest: Fields)

  /** Typed data: a record holds its field values in declaration order. */
  datatype Data =
    | DText(s: string)
    | DBool(value: bool)
    | DNumber(n: int)
    | DNone
    | DSome(inner: Data)
    | DMap(entries: map<string, Value>)
    | DMany(items: DataList)

  datatype DataList = DNil | DCons(head: Data, tail: DataList)

  function Names(fields: Fields): set<string> {
    match fields case NoFields => {} case Field(name, _, rest) => {name} + Names(rest)
  }

  /** Field names are distinct in every record and optional values are not nested. */
  predicate WellFormed(s: Schema) {
    match s
    case SOption(inner) => !inner.SOption? && WellFormed(inner)
    case SList(inner) => WellFormed(inner)
    case SRecord(fields) => WellFormedFields(fields)
    case _ => true
  }

  predicate WellFormedFields(fields: Fields) {
    fields.Field? ==> Absent(fields.name, fields.rest) && WellFormed(fields.schema) && WellFormedFields(fields.rest)
  }

  predicate Absent(name: string, fields: Fields) {
    fields.Field? ==> fields.name != name && Absent(name, fields.rest)
  }

  lemma {:induction false} AbsentMeans(name: string, fields: Fields)
    ensures Absent(name, fields) <==> name !in Names(fields)
  {
    if fields.Field? {
      AbsentMeans(name, fields.rest);
    }
  }

  predicate AllText(members: Members) {
    members.Member? ==> members.value.Text? && AllText(members.rest)
  }

  function Count(members: Members, key: string): nat {
    match members
    case NoMembers => 0
    case Member(k, _, rest) => (if k == key then 1 else 0) + Count(rest, key)
  }

  function Decode(s: Schema, j: Json): Option<Data>
    decreases s, 0, j
  {
    match s
    case SText => if j.Text? then Some(DText(j.s)) else None
    case SBool => if j.Bool? then Some(DBool(j.value)) else None
    case SNumber(lo, hi) => if j.Number? && lo <= j.n <= hi then Some(DNumber(j.n)) else None
    case SEnum(names) =>
      if j.Text? && j.s in names then Some(DText(j.s))
      else if j.Object? && j.members.Member? && j.members.rest.NoMembers? && j.members.value.Null? && j.members.key in names
      then Some(DText(j.members.key))
      else None
    case SOption(inner) =>
      if j.Null? then Some(DNone)
      else
        (match Decode(inner, j) case Some(d) => Some(DSome(d)) case None => None)
    case SList(inner) =>
      if j.Array? then
        (match DecodeItems(inner, j.items) case Some(ds) => Some(DMany(ds)) case None => None)
      else None
    case STextMap =>
      if j.Object? && AllText(j.members) then Some(DMap(NormalizeMembers(j.members))) else None
    case SRecord(fields) =>
      if j.Object? then
        (match DecodeFields(fields, j.members) case Some(ds) => Some(DMany(ds)) case None => None)
      else if j.Array? then
        (match DecodePositional(fields, j.items) case Some(ds) => Some(DMany(ds)) case None => None)
      else None
  }

  function DecodeItems(inner: Schema, items: Items): Option<DataList>
    decreases inner, 1, items
  {
    match items
    case NoItems => Some(DNil)
    case Item(head, tail) =>
      match (Decode(inner, head), DecodeItems(inner, tail))
      case (Some(d), Some(ds)) => Some(DCons(d, ds))
      case _ => None
  }

  /** Members by name: a repeated field is an error, an absent optional field is None, others are ignored. */
  function DecodeFields(fields: Fields, members: Members): Option<DataList>
    decreases fields, 1, members
  {
    match fields
    case NoFields => Some(DNil)
    case Field(name, schema, rest) =>
      var d := if Count(members, name) > 1 then None
               else if name in Keys(members) then Decode(schema, Lookup(members, name))
               else if schema.SOption? then Some(DNone)
               else None;
      match (d, DecodeFields(rest, members))
      case (Some(d), Some(ds)) => Some(DCons(d, ds))
      case _ => None
  }

  function DecodePositional(fields: Fields, items: Items): Option<DataList>
    decreases fields, 1, items
  {
    match (fields, items)
    case (NoFields, NoItems) => Some(DNil)
    case (Field(_, schema, rest), Item(head, tail)) =>
      (match (Decode(schema, head), DecodePositional(rest, tail))
       case (Some(d), Some(ds)) => Some(DCons(d, ds))
       case _ => None)
    case _ => None
  }

  predicate HasType(s: Schema, d: Data)
    decreases s, 0, d
  {
    match s
    case SText => d.DText?
    case SBool => d.DBool?
    case SNumber(lo, hi) => d.DNumber? && lo <= d.n <= hi
    case SEnum(names) => d.DText? && d.s in names
    case SOption(inner) => d.DNone? || (d.DSome? && HasType(inner, d.inner))
    case SList(inner) => d.DMany? && ItemsHaveType(inner, d.items)
    case STextMap => d.DMap? && forall k :: k in d.entries ==> d.entries[k].VText?
    case SRecord(fields) => d.DMany? && FieldsHaveType(fields, d.items)
  }

  predicate ItemsHaveType(inner: Schema, ds: DataList)
    decreases inner, 1, ds
  {
    ds.DCons? ==> HasType(inner, ds.head) && ItemsHaveType(inner, ds.tail)
  }

  predicate FieldsHaveType(fields: Fields, ds: DataList)
    decreases fields, 1, ds
  {
    match (fields, ds)
    case (NoFields, DNil) => true
    case (Field(_, schema, rest), DCons(d, tail)) => HasType(schema, d) && FieldsHaveType(rest, tail)
    case _ => false
  }

  /** `to_value`: every field of every record, in one object. */
  function Emit(s: Schema, d: Data): Value
    requires HasType(s, d)
    decreases s, 0, d
  {
    match s
    case SText => VText(d.s)
    case SBool => VBool(d.value)
    case SNumber(_, _) => VNumber(d.n)
    case SEnum(_) => VText(d.s)
    case SOption(inner) => if d.DNone? then VNull else Emit(inner, d.inner)
    case SList(inner) => VArray(EmitItems(inner, d.items))
    case STextMap => VObject(d.entries)
    case SRecord(fields) => VObject(EmitFields(fields, d.items))
  }

  function EmitItems(inner: Schema, ds: DataList): seq<Value>
    requires ItemsHaveType(inner, ds)
    decreases inner, 1, ds
  {
    match ds case DNil => [] case DCons(d, tail) => [Emit(inner, d)] + EmitItems(inner, tail)
  }

  function EmitFields(fields: Fields, ds: DataList): (r: map<string, Value>)
    requires FieldsHaveType(fields, ds)
    ensures r.Keys == Names(fields)
    decreases fields, 1, ds
  {
    match fields
    case NoFields => map[]
    case Field(name, schema, rest) => EmitFields(rest, ds.tail)[name := Emit(schema, ds.head)]
  }

  lemma {:induction false} DecodeTyped(s: Schema, j: Json)
    ensures Decode(s, j).Some? ==> HasType(s, Decode(s, j).value)
    decreases s, 0, j
  {
    match s
    case SOption(inner) => DecodeTyped(inner, j);
    case SList(inner) =>
      if j.Array? {
        DecodeItemsTyped(inner, j.items);
      }
    case STextMap =>
      if j.Object? && AllText(j.members) {
        AllTextValues(j.members);
      }
    case SRecord(fields) =>
      if j.Object? {
        DecodeFieldsTyped(fields, j.members);
      } else if j.Array? {
        DecodePositionalTyped(fields, j.items);
      }
    case _ =>
  }

  lemma {:induction false} AllTextValues(members: Members)
    ensures AllText(members) ==> forall k :: k in NormalizeMembers(members) ==> NormalizeMembers(members)[k].VText?
  {
    if members.Member? {
      AllTextValues(members.rest);
    }
  }

  lemma {:induction false} DecodeItemsTyped(inner: Schema, items: Items)
    ensures DecodeItems(inner, items).Some? ==> ItemsHaveType(inner, DecodeItems(inner, items).value)
    decreases inner, 1, items
  {
    if items.Item? {
      DecodeTyped(inner, items.head);
      DecodeItemsTyped(inner, items.tail);
    }
  }

  lemma {:induction false} DecodeFieldsTyped(fields: Fields, members: Members)
    ensures DecodeFields(fields, members).Some? ==> FieldsHaveType(fields, DecodeFields(fields, members).value)
    decreases fields, 1, members
  {
    if fields.Field? {
      if fields.name in Keys(members) {
        DecodeTyped(fields.schema, Lookup(members, fields.name));
      }
      DecodeFieldsTyped(fields.rest, members);
    }
  }

  lemma {:induction false} DecodePositionalTyped(fields: Fields, items: Items)
    ensures DecodePositional(fields, items).Some? ==> FieldsHaveType(fields, DecodePositional(fields, items).value)
    decreases fields, 1, items
  {
    if fields.Field? && items.Item? {
      DecodeTyped(fields.schema, items.head);
      DecodePositionalTyped(fields.rest, items.tail);
    }
  }

  /** The reader without its size bound: no duplicate key, decodes, and re-emits to the same document. */
  function Accept(s: Schema, doc: Json): Option<Data> {
    if !DistinctKeys(doc) then None
    else
      var decoded := Decode(s, doc);
      DecodeTyped(s, doc);
      if decoded.Some? && Normalize(doc) == Emit(s, decoded.value) then decoded else None
  }

  /** The published shape, independently of decoding: every record is an object with exactly its fields. */
  predicate Exact(s: Schema, j: Json)
    decreases s, 0, j
  {
    match s
    case SText => j.Text?
    case SBool => j.Bool?
    case SNumber(lo, hi) => j.Number? && lo <= j.n <= hi
    case SEnum(names) => j.Text? && j.s in names
    case SOption(inner) => j.Null? || Exact(inner, j)
    case SList(inner) => j.Array? && ExactItems(inner, j.items)
    case STextMap => j.Object? && AllText(j.members)
    case SRecord(fields) => j.Object? && Keys(j.members) == Names(fields) && ExactFields(fields, j.members)
  }

  predicate ExactItems(inner: Schema, items: Items)
    decreases inner, 1, items
  {
    items.Item? ==> Exact(inner, items.head) && ExactItems(inner, items.tail)
  }

  predicate ExactFields(fields: Fields, members: Members)
    decreases fields, 1, members
  {
    fields.Field? ==>
      fields.name in Keys(members) && Exact(fields.schema, Lookup(members, fields.name)) && ExactFields(fields.rest, members)
  }

  lemma {:induction false} DistinctCounts(members: Members, key: string)
    requires DistinctInMembers(members)
    ensures Count(members, key) == if key in Keys(members) then 1 else 0
  {
    if members.Member? {
      DistinctCounts(members.rest, key);
    }
  }

  /** A document of the published shape decodes, and re-emits to itself. */
  lemma {:induction false} ExactDecodes(s: Schema, j: Json)
    requires WellFormed(s) && DistinctKeys(j) && Exact(s, j)
    ensures Decode(s, j).Some? && HasType(s, Decode(s, j).value) && Emit(s, Decode(s, j).value) == Normalize(j)
    decreases s, 0, j
  {
    match s
    case SOption(inner) =>
      if !j.Null? {
        ExactDecodes(inner, j);
      }
    case SList(inner) => ExactItemsDecode(inner, j.items);
    case STextMap => AllTextValues(j.members);
    case SRecord(fields) =>
      ExactFieldsDecode(fields, j.members);
      NormalizedKeys(j.members);
    case _ =>
  }

  lemma {:induction false} ExactItemsDecode(inner: Schema, items: Items)
    requires WellFormed(inner) && DistinctInItems(items) && ExactItems(inner, items)
    ensures DecodeItems(inner, items).Some? && ItemsHaveType(inner, DecodeItems(inner, items).value)
    ensures EmitItems(inner, DecodeItems(inner, items).value) == NormalizeItems(items)
    decreases inner, 1, items
  {
    if items.Item? {
      ExactDecodes(inner, items.head);
      ExactItemsDecode(inner, items.tail);
    }
  }

  lemma {:induction false} ExactFieldsDecode(fields: Fields, members: Members)
    requires WellFormedFields(fields) && DistinctInMembers(members) && ExactFields(fields, members)
    ensures DecodeFields(fields, members).Some? && FieldsHaveType(fields, DecodeFields(fields, members).value)
    ensures forall k :: k in Names(fields) ==>
      k in NormalizeMembers(members) && EmitFields(fields, DecodeFields(fields, members).value)[k] == NormalizeMembers(members)[k]
    decreases fields, 1, members
  {
    if fields.Field? {
      DistinctCounts(members, fields.name);
      NormalizedLookup(members, fields.name);
      AbsentMeans(fields.name, fields.rest);
      ExactDecodes(fields.schema, Lookup(members, fields.name));
      ExactFieldsDecode(fields.rest, members);
    }
  }

  lemma {:induction false} TextValuesAllText(members: Members)
    requires DistinctInMembers(members)
    requires forall k :: k in NormalizeMembers(members) ==> NormalizeMembers(members)[k].VText?
    ensures AllText(members)
  {
    if members.Member? {
      NormalizedKeys(members.rest);
      assert NormalizeMembers(members)[members.key] == Normalize(members.value);
      assert forall k :: k in NormalizeMembers(members.rest) ==>
          k in NormalizeMembers(members) && NormalizeMembers(members)[k] == NormalizeMembers(members.rest)[k];
      TextValuesAllText(members.rest);
    }
  }

  /** Any duplicate-free document that normalises to the emission of typed data decodes to exactly that data, and has
      the published shape. */
  lemma {:induction false} EmissionDecodes(s: Schema, d: Data, j: Json)
    requires WellFormed(s) && HasType(s, d) && DistinctKeys(j) && Normalize(j) == Emit(s, d)
    ensures Decode(s, j) == Some(d) && Exact(s, j)
    decreases s, 0, d
  {
    match s
    case SOption(inner) =>
      if d.DSome? {
        EmissionDecodes(inner, d.inner, j);
      }
    case SList(inner) => EmittedItemsDecode(inner, d.items, j.items);
    case STextMap => TextValuesAllText(j.members);
    case SRecord(fields) =>
      NormalizedKeys(j.members);
      EmittedFieldsDecode(fields, d.items, j.members);
    case _ =>
  }

  lemma {:induction false} EmittedItemsDecode(inner: Schema, ds: DataList, items: Items)
    requires WellFormed(inner) && ItemsHaveType(inner, ds) && DistinctInItems(items)
    requires NormalizeItems(items) == EmitItems(inner, ds)
    ensures DecodeItems(inner, items) == Some(ds) && ExactItems(inner, items)
    decreases inner, 1, ds
  {
    if items.Item? && ds.DCons? {
      var ns, es := NormalizeItems(items), EmitItems(inner, ds);
      assert ns[0] == Normalize(items.head) && ns[1..] == NormalizeItems(items.tail);
      assert es[0] == Emit(inner, ds.head) && es[1..] == EmitItems(inner, ds.tail);
      EmissionDecodes(inner, ds.head, items.head);
      EmittedItemsDecode(inner, ds.tail, items.tail);
    }
  }

  lemma {:induction false} EmittedFieldsDecode(fields: Fields, ds: DataList, members: Members)
    requires WellFormedFields(fields) && FieldsHaveType(fields, ds) && DistinctInMembers(members)
    requires forall k :: k in Names(fields) ==>
      k in NormalizeMembers(members) && NormalizeMembers(members)[k] == EmitFields(fields, ds)[k]
    ensures DecodeFields(fields, members) == Some(ds) && ExactFields(fields, members)
    decreases fields, 1, ds
  {
    if fields.Field? {
      NormalizedKeys(members);
      DistinctCounts(members, fields.name);
      NormalizedLookup(members, fields.name);
      AbsentMeans(fields.name, fields.rest);
      assert EmitFields(fields, ds)[fields.name] == Emit(fields.schema, ds.head);
      assert forall k :: k in Names(fields.rest) ==> EmitFields(fields.rest, ds.tail)[k] == EmitFields(fields, ds)[k];
      EmissionDecodes(fields.schema, ds.head, Lookup(members, fields.name));
      EmittedFieldsDecode(fields.rest, ds.tail, members);
    }
  }

  /** The strict reader accepts exactly the duplicate-free documents of the published shape: nothing unknown, omitted
      or repeated at any depth gets through, and nothing else is refused. */
  lemma AcceptsExactly(s: Schema, doc: Json)
    requires WellFormed(s)
    ensures Accept(s, doc).Some? <==> DistinctKeys(doc) && Exact(s, doc)
  {
    DecodeTyped(s, doc);
    if Accept(s, doc).Some? {
      EmissionDecodes(s, Accept(s, doc).value, doc);
    }
    if DistinctKeys(doc) && Exact(s, doc) {
      ExactDecodes(s, doc);
    }
  }

  /** An accepted document is its receipt's emission; two accepted documents of one receipt differ at most in the
      order of members. */
  lemma AcceptedIsLossless(s: Schema, a: Json, b: Json)
    requires WellFormed(s)
    requires Accept(s, a).Some? && Accept(s, b) == Accept(s, a)
    ensures HasType(s, Accept(s, a).value) && Normalize(a) == Emit(s, Accept(s, a).value)
    ensures SameUpToOrder(a, b)
  {
    DecodeTyped(s, a);
    DecodeTyped(s, b);
    NormalFormsDecide(a, b);
  }

  /** Whatever typed data is written, in any member order, is read back unchanged. */
  lemma WrittenIsReadBack(s: Schema, d: Data, doc: Json)
    requires WellFormed(s) && HasType(s, d) && DistinctKeys(doc) && Normalize(doc) == Emit(s, d)
    ensures Accept(s, doc) == Some(d)
  {
    EmissionDecodes(s, d, doc);
  }

  /** `parse_receipt_document`: the 4 MiB bound, the JSON parser as a parameter, then the strict reader. */
  function ParseReceiptDocument(parse: Bytes -> Option<Json>, bytes: Bytes): Result<Data, StateStore.ReadFailure> {
    if |bytes| > StateStore.MAX_RECEIPT_BYTES then Err(StateStore.ReceiptInvalid)
    else
      match parse(bytes)
      case None => Err(StateStore.JsonInvalid)
      case Some(doc) =>
        if !DistinctKeys(doc) || Decode(ReceiptSchema(), doc).None? then Err(StateStore.JsonInvalid)
        else if Accept(ReceiptSchema(), doc).Some? then Ok(Accept(ReceiptSchema(), doc).value)
        else Err(StateStore.ReceiptInvalid)
  }

  /** It accepts exactly the documents within 4 MiB that parse, repeat no key and have the published shape. */
  lemma ParsesExactly(parse: Bytes -> Option<Json>, bytes: Bytes)
    ensures ParseReceiptDocument(parse, bytes).Ok?
            <==> |bytes| <= 4 * 1024 * 1024 && parse(bytes).Some? && DistinctKeys(parse(bytes).value)
                 && Exact(ReceiptSchema(), parse(bytes).value)
  {
    if parse(bytes).Some? {
      ReceiptWellFormed();
      AcceptsExactly(ReceiptSchema(), parse(bytes).value);
    }
  }

  /** The bound `write_receipt` enforces is the one the reader enforces, so every receipt it stores parses back. */
  lemma StoredReceiptParses(parse: Bytes -> Option<Json>, bytes: Bytes, doc: Json, receipt: Data)
    requires |bytes| <= StateStore.MAX_RECEIPT_BYTES && parse(bytes) == Some(doc)
    requires HasType(ReceiptSchema(), receipt) && DistinctKeys(doc) && Normalize(doc) == Emit(ReceiptSchema(), receipt)
    ensures ParseReceiptDocument(parse, bytes) == Ok(receipt)
  {
    ReceiptWellFormed();
    WrittenIsReadBack(ReceiptSchema(), receipt, doc);
    EmissionDecodes(ReceiptSchema(), receipt, doc);
  }

  function U64Schema(): Schema {
    SNumber(0, U64_MAX)
  }

  function I32Schema(): Schema {
    SNumber(-0x8000_0000, 0x7fff_ffff)
  }

  function TextsSchema(): Schema {
    SList(SText)
  }

  function KindSchema(): Schema {
    SEnum({"format", "lint", "test", "type_check", "build", "custom"})
  }

  function ConfidenceSchema(): Schema {
    SEnum({"high", "medium", "explicit"})
  }

  function ClassificationSchema(): Schema {
    SEnum({"matched_check", "discovered_check", "unmodeled_verification", "replaced_by_explicit_check"})
  }

  function OutcomeSchema(): Schema {
    SEnum({"passed", "failed", "timed_out", "cancelled", "log_limit_exceeded", "spawn_failed", "skipped"})
  }

  function ReceiptOutcomeSchema(): Schema {
    SEnum({"passed", "failed", "incomplete", "cancelled"})
  }

  function LimitsSchema(): Schema {
    SRecord(
    Field("max_runtime_ms_per_check", U64Schema(), Field("max_log_bytes_per_check", U64Schema(), NoFields)))
  }

  function CommandSchema(): Schema {
    SRecord(
    Field("program", SText, Field("args", TextsSchema(), Field("working_directory", SText, NoFields))))
  }

  function DiscoverySourceSchema(): Schema {
    SRecord(
    Field("path", SText, Field("sha256", SText, Field("evidence", SText, NoFields))))
  }

  function CheckSchema(): Schema {
    SRecord(
    Field("id", SText, Field("label", SText,
    Field("kind", KindSchema(),
    Field("command", CommandSchema(), Field("reason", SText, Field("sources", SList(DiscoverySourceSchema()),
    Field("confidence", ConfidenceSchema(),
    Field("coverage_paths", TextsSchema(), Field("pass_environment", TextsSchema(), Field("non_hermetic_inputs", TextsSchema(),
    Field("replaces_workflow_steps", TextsSchema(), NoFields))))))))))))
  }

  function SelectionSchema(): Schema {
    SRecord(
    Field("check_id", SText, Field("selected", SBool, Field("reason", SText, NoFields))))
  }

  function SourceSchema(): Schema {
    SRecord(
    Field("git_commit", SOption(SText), Field("git_ref", SOption(SText), Field("dirty", SBool,
    Field("status_sha256", SText, Field("workspace_sha256", SText, Field("workspace_file_count", U64Schema(),
    Field("changed_paths", TextsSchema(), NoFields))))))))
  }

  function ObservationSchema(): Schema {
    SRecord(
    Field("id", SText, Field("source", DiscoverySourceSchema(), Field("job", SText, Field("step", SText,
    Field("run_sha256", SText, Field("run_summary", SText,
    Field("classification", ClassificationSchema(),
    Field("check_id", SOption(SText), Field("reason", SText, NoFields))))))))))
  }

  function DiscoverySchema(): Schema {
    SRecord(
    Field("schema_version", SText, Field("source", SourceSchema(), Field("checks", SList(CheckSchema()),
    Field("selection", SList(SelectionSchema()), Field("coverage_gaps", TextsSchema(),
    Field("configuration_files", SList(DiscoverySourceSchema()),
    Field("workflow_observations", SList(ObservationSchema()), NoFields))))))))
  }

  function InvocationSchema(): Schema {
    SRecord(
    Field("changed_only", SBool, Field("requested_checks", TextsSchema(), Field("fail_fast", SBool,
    Field("limits", LimitsSchema(),
    NoFields)))))
  }

  function LogSchema(): Schema {
    SRecord(
    Field("algorithm", SText, Field("digest", SText, Field("bytes", U64Schema(), Field("handle", SText,
    Field("content_encoding", SText, Field("sensitivity", SText, NoFields)))))))
  }

  function ExecutionSchema(): Schema {
    SRecord(
    Field("check", CheckSchema(), Field("started_unix_ms", U64Schema(), Field("completed_unix_ms", U64Schema(), Field("duration_ms", U64Schema(),
    Field("outcome", OutcomeSchema(),
    Field("exit_code", SOption(I32Schema()), Field("stdout", SOption(LogSchema()), Field("stderr", SOption(LogSchema()),
    Field("stdout_summary", SText, Field("stderr_summary", SText,
    Field("diagnostic_summaries_truncated", SBool, NoFields))))))))))))
  }

  function ToolSchema(): Schema {
    SRecord(
    Field("name", SText, Field("command", TextsSchema(), Field("output_sha256", SText, Field("summary", SText,
    Field("available", SBool, NoFields))))))
  }

  function EnvironmentSchema(): Schema {
    SRecord(
    Field("mode", SText, Field("forwarded_names", TextsSchema(), Field("values_recorded", SBool, NoFields))))
  }

  function RedactionSchema(): Schema {
    SRecord(
    Field("name", SText, Field("full_logs_redacted", SBool, Field("diagnostic_summaries_redacted", SBool, NoFields))))
  }

  function ArtifactSchema(): Schema {
    SRecord(
    Field("path", SText, Field("sha256", SText, Field("bytes", U64Schema(), NoFields))))
  }

  function IdFields(): Fields {
    Field("receipt_id", SText, Field("canonical_digest", SText, NoFields))
  }

  function SourceFields(): Fields {
    Field("schema_version", SText, Field("taskattest_version", SText, Field("source", SourceSchema(),
    Field("source_after", SourceSchema(), Field("source_unchanged", SBool, Field("invocation", InvocationSchema(),
    NoFields))))))
  }

  function DiscoveryFields(): Fields {
    Field("discovery", DiscoverySchema(), NoFields)
  }

  function TimingFields(): Fields {
    Field("started_unix_ms", U64Schema(), Field("completed_unix_ms", U64Schema(), Field("duration_ms", U64Schema(),
    Field("outcome", ReceiptOutcomeSchema(), NoFields))))
  }

  function ExecutionFields(): Fields {
    Field("checks", SList(ExecutionSchema()), NoFields)
  }

  function ResultFields(): Fields {
    Append(TimingFields(), ExecutionFields())
  }

  function PolicyFields(): Fields {
    Field("coverage_gaps", TextsSchema(), Field("toolchains", SList(ToolSchema()),
    Field("environment", EnvironmentSchema(), Field("redaction", RedactionSchema(),
    Field("non_hermetic_inputs", TextsSchema(), Field("artifacts", SList(ArtifactSchema()),
    Field("annotations", STextMap, NoFields)))))))
  }

  function Append(a: Fields, b: Fields): Fields {
    match a case NoFields => b case Field(name, schema, rest) => Field(name, schema, Append(rest, b))
  }

  function PayloadFields(): Fields {
    Append(SourceFields(), Append(DiscoveryFields(), Append(ResultFields(), PolicyFields())))
  }

  /** The payload is flattened into the receipt object. */
  function ReceiptSchema(): Schema {
    SRecord(Append(IdFields(), PayloadFields()))
  }

  predicate Disjoint(a: Fields, b: Fields) {
    a.Field? ==> Absent(a.name, b) && Disjoint(a.rest, b)
  }

  lemma {:induction false} AbsentAppend(name: string, a: Fields, b: Fields)
    ensures Absent(name, Append(a, b)) <==> Absent(name, a) && Absent(name, b)
  {
    if a.Field? {
      AbsentAppend(name, a.rest, b);
    }
  }

  lemma {:induction false} AppendWellFormed(a: Fields, b: Fields)
    requires WellFormedFields(a) && WellFormedFields(b) && Disjoint(a, b)
    ensures WellFormedFields(Append(a, b))
  {
    if a.Field? {
      AbsentAppend(a.name, a.rest, b);
      AppendWellFormed(a.rest, b);
    }
  }

  lemma {:induction false} DisjointAppend(a: Fields, b: Fields, c: Fields)
    requires Disjoint(a, b) && Disjoint(a, c)
    ensures Disjoint(a, Append(b, c))
  {
    if a.Field? {
      AbsentAppend(a.name, b, c);
      DisjointAppend(a.rest, b, c);
    }
  }

  lemma CheckWellFormed()
    ensures WellFormed(CheckSchema())
  {
  }

  lemma ObservationWellFormed()
    ensures WellFormed(ObservationSchema())
  {
  }

  lemma SourceWellFormed()
    ensures WellFormed(SourceSchema())
  {
  }

  lemma DiscoveryWellFormed()
    ensures WellFormed(DiscoverySchema())
  {
    CheckWellFormed();
    ObservationWellFormed();
    SourceWellFormed();
  }

  lemma LogWellFormed()
    ensures WellFormed(LogSchema())
  {
  }

  lemma ExecutionWellFormed()
    ensures WellFormed(ExecutionSchema())
  {
    CheckWellFormed();
    LogWellFormed();
  }

  lemma SourceFieldsWellFormed()
    ensures WellFormedFields(SourceFields())
  {
    SourceWellFormed();
  }

  lemma DiscoveryFieldsWellFormed()
    ensures WellFormedFields(DiscoveryFields())
  {
    DiscoveryWellFormed();
  }

  lemma ExecutionFieldsWellFormed()
    ensures WellFormedFields(ExecutionFields())
  {
    ExecutionWellFormed();
  }

  lemma TimingFieldsWellFormed()
    ensures WellFormedFields(TimingFields()) && Disjoint(TimingFields(), ExecutionFields())
  {
  }

  lemma ResultFieldsWellFormed()
    ensures WellFormedFields(ResultFields())
  {
    TimingFieldsWellFormed();
    ExecutionFieldsWellFormed();
    AppendWellFormed(TimingFields(), ExecutionFields());
  }

  lemma PolicyFieldsWellFormed()
    ensures WellFormedFields(PolicyFields())
  {
  }

  lemma IdsAreDisjoint()
    ensures Disjoint(IdFields(), SourceFields()) && Disjoint(IdFields(), DiscoveryFields())
  {
  }

  lemma IdsAreDisjointFromResults()
    ensures Disjoint(IdFields(), ResultFields())
  {
  }

  lemma IdsAreDisjointFromPolicy()
    ensures Disjoint(IdFields(), PolicyFields())
  {
  }

  lemma SourceIsDisjoint()
    ensures Disjoint(SourceFields(), DiscoveryFields()) && Disjoint(SourceFields(), ResultFields())
  {
  }

  lemma SourceIsDisjointFromPolicy()
    ensures Disjoint(SourceFields(), PolicyFields())
  {
  }

  lemma DiscoveryIsDisjoint()
    ensures Disjoint(DiscoveryFields(), ResultFields()) && Disjoint(DiscoveryFields(), PolicyFields())
  {
  }

  lemma ResultsAreDisjoint()
    ensures Disjoint(ResultFields(), PolicyFields())
  {
  }

  /** No record repeats a field; in particular the flattened payload shares no key with the receipt's own fields. */
  lemma ReceiptWellFormed()
    ensures WellFormed(ReceiptSchema())
    ensures Disjoint(IdFields(), PayloadFields())
  {
    var source, discovery, results, policy := SourceFields(), DiscoveryFields(), ResultFields(), PolicyFields();
    SourceFieldsWellFormed();
    DiscoveryFieldsWellFormed();
    ResultFieldsWellFormed();
    PolicyFieldsWellFormed();
    IdsAreDisjoint();
    IdsAreDisjointFromResults();
    IdsAreDisjointFromPolicy();
    SourceIsDisjoint();
    SourceIsDisjointFromPolicy();
    DiscoveryIsDisjoint();
    ResultsAreDisjoint();
    PayloadWellFormed(IdFields(), source, discovery, results, policy);
  }

  lemma PayloadWellFormed(ids: Fields, source: Fields, discovery: Fields, results: Fields, policy: Fields)
    requires WellFormedFields(ids) && WellFormedFields(source) && WellFormedFields(discovery)
    requires WellFormedFields(results) && WellFormedFields(policy)
    requires Disjoint(ids, source) && Disjoint(ids, discovery) && Disjoint(ids, results) && Disjoint(ids, policy)
    requires Disjoint(source, discovery) && Disjoint(source, results) && Disjoint(source, policy)
    requires Disjoint(discovery, results) && Disjoint(discovery, policy) && Disjoint(results, policy)
    ensures var payload := Append(source, Append(discovery, Append(results, policy)));
            Disjoint(ids, payload) && WellFormedFields(Append(ids, payload))
  {
    AppendWellFormed(results, policy);
    DisjointAppend(discovery, results, policy);
    AppendWellFormed(discovery, Append(results, policy));
    DisjointAppend(source, results, policy);
    DisjointAppend(source, discovery, Append(results, policy));
    AppendWellFormed(source, Append(discovery, Append(results, policy)));
    DisjointAppend(ids, results, policy);
    DisjointAppend(ids, discovery, Append(results, policy));
    DisjointAppend(ids, source, Append(discovery, Append(results, policy)));
    AppendWellFormed(ids, Append(source, Append(discovery, Append(results, policy))));
  }
}
