/** Typed data as sequences: how lists and records of the schema's data are built and taken apart.

    The strict reader's data is a linked list of values, so that its recursion follows the data. Here lists and
    records are built from sequences (`Many`, `Record`) and read back as sequences (`ManyFrom`, `Parts`), and a
    sequence has the type of a group of fields when each value has the type of its field. Groups that are appended
    can be typed apart, which is how a flattened receipt is read. */
module Records {
  import opened Basics
  import opened StrictReader

  function ListOf(ds: seq<Data>): DataList {
    if ds == [] then DNil else DCons(ds[0], ListOf(ds[1..]))
  }

  function SeqOf(ds: DataList): seq<Data> {
    match ds case DNil => [] case DCons(d, tail) => [d] + SeqOf(tail)
  }

  lemma {:induction false} SeqOfList(ds: seq<Data>)
    ensures SeqOf(ListOf(ds)) == ds
  {
    if ds != [] {
      SeqOfList(ds[1..]);
    }
  }

  lemma {:induction false} ListOfSeq(ds: DataList)
    ensures ListOf(SeqOf(ds)) == ds
  {
    if ds.DCons? {
      ListOfSeq(ds.tail);
      assert SeqOf(ds)[1..] == SeqOf(ds.tail);
    }
  }

  function Length(fields: Fields): nat {
    if fields.NoFields? then 0 else 1 + Length(fields.rest)
  }

  function SchemaAt(fields: Fields, i: nat): Schema
    requires i < Length(fields)
  {
    if i == 0 then fields.schema else SchemaAt(fields.rest, i - 1)
  }

  /** The i-th value has the type of the i-th field, for every field. */
  predicate TypedBy(fields: Fields, ds: seq<Data>) {
    |ds| == Length(fields) && forall i :: 0 <= i < |ds| ==> HasType(SchemaAt(fields, i), ds[i])
  }

  lemma {:induction false} FieldsTyped(fields: Fields, ds: seq<Data>)
    ensures FieldsHaveType(fields, ListOf(ds)) <==> TypedBy(fields, ds)
  {
    if fields.Field? && ds != [] {
      FieldsTyped(fields.rest, ds[1..]);
      if TypedBy(fields, ds) {
        assert HasType(SchemaAt(fields, 0), ds[0]);
        forall i | 0 <= i < |ds| - 1 ensures HasType(SchemaAt(fields.rest, i), ds[1..][i]) {
          assert HasType(SchemaAt(fields, i + 1), ds[i + 1]);
        }
      }
      if FieldsHaveType(fields, ListOf(ds)) {
        forall i | 0 <= i < |ds| ensures HasType(SchemaAt(fields, i), ds[i]) {
          if i > 0 {
            assert HasType(SchemaAt(fields.rest, i - 1), ds[1..][i - 1]);
          }
        }
      }
    }
  }

  lemma {:induction false} ItemsTyped(inner: Schema, ds: seq<Data>)
    ensures ItemsHaveType(inner, ListOf(ds)) <==> forall i :: 0 <= i < |ds| ==> HasType(inner, ds[i])
  {
    if ds != [] {
      ItemsTyped(inner, ds[1..]);
      assert forall i :: 0 <= i < |ds| - 1 ==> ds[1..][i] == ds[i + 1];
      if forall i :: 0 <= i < |ds| - 1 ==> HasType(inner, ds[1..][i]) {
        assert forall i :: 1 <= i < |ds| ==> ds[i] == ds[1..][i - 1];
      }
    }
  }

  lemma {:induction false} AppendTyped(a: Fields, b: Fields, x: seq<Data>, y: seq<Data>)
    requires FieldsHaveType(a, ListOf(x)) && FieldsHaveType(b, ListOf(y))
    ensures FieldsHaveType(Append(a, b), ListOf(x + y))
  {
    if a.Field? {
      AppendTyped(a.rest, b, x[1..], y);
      assert (x + y)[1..] == x[1..] + y;
    } else {
      assert x + y == y;
    }
  }

  /** A record value, and the parts of one. */
  function Record(ds: seq<Data>): Data {
    DMany(ListOf(ds))
  }

  function Parts(d: Data): seq<Data> {
    if d.DMany? then SeqOf(d.items) else []
  }

  lemma RecordParts(ds: seq<Data>)
    ensures Parts(Record(ds)) == ds
  {
    SeqOfList(ds);
  }

  lemma RecordTyped(fields: Fields, ds: seq<Data>)
    requires TypedBy(fields, ds)
    ensures HasType(SRecord(fields), Record(ds))
  {
    FieldsTyped(fields, ds);
  }

  /** What is known of the parts of a record of this type. */
  lemma PartsTyped(fields: Fields, d: Data)
    requires HasType(SRecord(fields), d)
    ensures TypedBy(fields, Parts(d))
  {
    ListOfSeq(d.items);
    FieldsTyped(fields, SeqOf(d.items));
  }

  function Mapped<T>(xs: seq<T>, f: T -> Data): (r: seq<Data>)
    ensures |r| == |xs|
  {
    seq(|xs|, i requires 0 <= i < |xs| => f(xs[i]))
  }

  function Many<T>(xs: seq<T>, f: T -> Data): Data {
    DMany(ListOf(Mapped(xs, f)))
  }

  function Collect<T>(ds: seq<Data>, g: Data -> Option<T>): Option<seq<T>> {
    if ds == [] then Some([])
    else
      match (g(ds[0]), Collect(ds[1..], g))
      case (Some(x), Some(xs)) => Some([x] + xs)
      case _ => None
  }

  function ManyFrom<T>(d: Data, g: Data -> Option<T>): Option<seq<T>> {
    if d.DMany? then Collect(SeqOf(d.items), g) else None
  }

  lemma ManyTyped<T>(inner: Schema, xs: seq<T>, f: T -> Data)
    requires forall i :: 0 <= i < |xs| ==> HasType(inner, f(xs[i]))
    ensures HasType(SList(inner), Many(xs, f))
  {
    ItemsTyped(inner, Mapped(xs, f));
  }

  lemma {:induction false} CollectBack<T>(xs: seq<T>, f: T -> Data, g: Data -> Option<T>)
    requires forall i :: 0 <= i < |xs| ==> g(f(xs[i])) == Some(xs[i])
    ensures Collect(Mapped(xs, f), g) == Some(xs)
  {
    if xs != [] {
      assert Mapped(xs, f)[1..] == Mapped(xs[1..], f);
      CollectBack(xs[1..], f, g);
      assert xs == [xs[0]] + xs[1..];
    }
  }

  lemma ManyBack<T>(xs: seq<T>, f: T -> Data, g: Data -> Option<T>)
    requires forall i :: 0 <= i < |xs| ==> g(f(xs[i])) == Some(xs[i])
    ensures ManyFrom(Many(xs, f), g) == Some(xs)
  {
    SeqOfList(Mapped(xs, f));
    CollectBack(xs, f, g);
  }

  lemma {:induction false} CollectTotal<T>(ds: seq<Data>, g: Data -> Option<T>)
    requires forall i :: 0 <= i < |ds| ==> g(ds[i]).Some?
    ensures Collect(ds, g).Some?
  {
    if ds != [] {
      CollectTotal(ds[1..], g);
    }
  }

  lemma ItemsOf(inner: Schema, d: Data)
    requires HasType(SList(inner), d)
    ensures forall i :: 0 <= i < |SeqOf(d.items)| ==> HasType(inner, SeqOf(d.items)[i])
  {
    ListOfSeq(d.items);
    ItemsTyped(inner, SeqOf(d.items));
  }

  function TextData(s: string): Data {
    DText(s)
  }

  function TextFrom(d: Data): Option<string> {
    if d.DText? then Some(d.s) else None
  }

  function TextsData(xs: seq<string>): Data {
    Many(xs, TextData)
  }

  function TextsFrom(d: Data): Option<seq<string>> {
    ManyFrom(d, TextFrom)
  }

  lemma TextsCodec(xs: seq<string>)
    ensures HasType(TextsSchema(), TextsData(xs)) && TextsFrom(TextsData(xs)) == Some(xs)
  {
    ManyTyped(SText, xs, TextData);
    ManyBack(xs, TextData, TextFrom);
  }

  lemma TextsTotal(d: Data)
    requires HasType(TextsSchema(), d)
    ensures TextsFrom(d).Some?
  {
    ItemsOf(SText, d);
    CollectTotal(SeqOf(d.items), TextFrom);
  }

  /** An optional value. */
  function MaybeData<T>(x: Option<T>, f: T -> Data): Data {
    if x.None? then DNone else DSome(f(x.value))
  }

  function MaybeFrom<T>(d: Data, g: Data -> Option<T>): Option<Option<T>> {
    match d
    case DNone => Some(None)
    case DSome(inner) => if g(inner).Some? then Some(g(inner)) else None
    case _ => None
  }

  /** A natural number in a 64-bit field. */
  predicate U64(n: nat) {
    n <= U64_MAX
  }

  function NatFrom(d: Data): Option<nat> {
    if d.DNumber? && d.n >= 0 then Some(d.n) else None
  }

  function BoolFrom(d: Data): Option<bool> {
    if d.DBool? then Some(d.value) else None
  }
}
