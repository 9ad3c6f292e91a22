/** JSON documents as trees (RFC 8259 section 4): an object is a list of members, duplicates included. */
module Json {

  datatype Json =
    | Null
    | Bool(value: bool)
    | Number(n: int)
    | Fraction(text: string)
    | Text(s: string)
    | Array(items: Items)
    | Object(members: Members)

  datatype Items = NoItems | Item(head: Json, tail: Items)

  datatype Members = NoMembers | Member(key: string, value: Json, rest: Members)

  /** A parsed document: objects are maps, the last of several equal keys wins. */
  datatype Value =
    | VNull
    | VBool(value: bool)
    | VNumber(n: int)
    | VFraction(text: string)
    | VText(s: string)
    | VArray(items: seq<Value>)
    | VObject(members: map<string, Value>)

  function Normalize(j: Json): Value {
    match j
    case Null => VNull
    case Bool(b) => VBool(b)
    case Number(n) => VNumber(n)
    case Fraction(text) => VFraction(text)
    case Text(s) => VText(s)
    case Array(items) => VArray(NormalizeItems(items))
    case Object(members) => VObject(NormalizeMembers(members))
  }

  function NormalizeItems(items: Items): seq<Value> {
    match items
    case NoItems => []
    case Item(head, tail) => [Normalize(head)] + NormalizeItems(tail)
  }

  function NormalizeMembers(members: Members): map<string, Value> {
    match members
    case NoMembers => map[]
    case Member(key, value, rest) => map[key := Normalize(value)] + NormalizeMembers(rest)
  }

  function Keys(members: Members): set<string> {
    match members
    case NoMembers => {}
    case Member(key, _, rest) => {key} + Keys(rest)
  }

  function Lookup(members: Members, key: string): Json
    requires key in Keys(members)
  {
    if members.key == key then members.value else Lookup(members.rest, key)
  }

  /** No object, at any depth, repeats a key. */
  predicate DistinctKeys(j: Json) {
    match j
    case Array(items) => DistinctInItems(items)
    case Object(members) => DistinctInMembers(members)
    case _ => true
  }

  predicate DistinctInItems(items: Items) {
    items.Item? ==> DistinctKeys(items.head) && DistinctInItems(items.tail)
  }

  predicate DistinctInMembers(members: Members) {
    members.Member? ==>
      members.key !in Keys(members.rest) && DistinctKeys(members.value) && DistinctInMembers(members.rest)
  }

  function Size(j: Json): nat {
    match j
    case Array(items) => 1 + ItemsSize(items)
    case Object(members) => 1 + MembersSize(members)
    case _ => 1
  }

  function ItemsSize(items: Items): nat {
    match items case NoItems => 0 case Item(head, tail) => 1 + Size(head) + ItemsSize(tail)
  }

  function MembersSize(members: Members): nat {
    match members case NoMembers => 0 case Member(_, value, rest) => 1 + Size(value) + MembersSize(rest)
  }

  /** `DuplicateKeyVisitor`: stops at the first key an object repeats. */
  method RejectDuplicateKeys(j: Json) returns (ok: bool)
    ensures ok <==> DistinctKeys(j)
    decreases Size(j), 1
  {
    match j
    case Array(items) => ok := VisitSeq(items);
    case Object(members) => ok := VisitMap(members);
    case _ => ok := true;
  }

  method VisitSeq(items: Items) returns (ok: bool)
    ensures ok <==> DistinctInItems(items)
    decreases ItemsSize(items), 0
  {
    var rest := items;
    while rest.Item?
      invariant ItemsSize(rest) <= ItemsSize(items)
      invariant DistinctInItems(items) <==> DistinctInItems(rest)
      decreases rest
    {
      ok := RejectDuplicateKeys(rest.head);
      if !ok {
        return false;
      }
      rest := rest.tail;
    }
    ok := true;
  }

  method VisitMap(members: Members) returns (ok: bool)
    ensures ok <==> DistinctInMembers(members)
    decreases MembersSize(members), 0
  {
    var keys: set<string>, rest := {}, members;
    while rest.Member?
      invariant MembersSize(rest) <= MembersSize(members)
      invariant DistinctInMembers(members) <==> DistinctInMembers(rest) && keys !! Keys(rest)
      decreases rest
    {
      if rest.key in keys {
        return false;
      }
      keys := keys + {rest.key};
      ok := RejectDuplicateKeys(rest.value);
      if !ok {
        return false;
      }
      rest := rest.rest;
    }
    ok := true;
  }

  lemma {:induction false} NormalizedKeys(members: Members)
    ensures NormalizeMembers(members).Keys == Keys(members)
  {
    if members.Member? {
      NormalizedKeys(members.rest);
    }
  }

  lemma {:induction false} NormalizedLookup(members: Members, key: string)
    requires DistinctInMembers(members) && key in Keys(members)
    ensures key in NormalizeMembers(members) && NormalizeMembers(members)[key] == Normalize(Lookup(members, key))
    ensures DistinctKeys(Lookup(members, key))
  {
    NormalizedKeys(members);
    NormalizedKeys(members.rest);
    if members.key != key {
      NormalizedLookup(members.rest, key);
    }
  }

  /** Equal as documents, members of objects in any order. */
  predicate SameUpToOrder(a: Json, b: Json) {
    match (a, b)
    case (Array(xs), Array(ys)) => SameItems(xs, ys)
    case (Object(ms), Object(ns)) => Keys(ms) == Keys(ns) && SameMembers(ms, ns)
    case _ => a == b
  }

  predicate SameItems(xs: Items, ys: Items) {
    match (xs, ys)
    case (NoItems, NoItems) => true
    case (Item(x, xs'), Item(y, ys')) => SameUpToOrder(x, y) && SameItems(xs', ys')
    case _ => false
  }

  predicate SameMembers(ms: Members, ns: Members) {
    ms.Member? ==> ms.key in Keys(ns) && SameUpToOrder(ms.value, Lookup(ns, ms.key)) && SameMembers(ms.rest, ns)
  }

  /** Without duplicate keys, normal forms are equal exactly when the documents differ only in member order. */
  lemma {:induction false} NormalFormsDecide(a: Json, b: Json)
    requires DistinctKeys(a) && DistinctKeys(b)
    ensures Normalize(a) == Normalize(b) <==> SameUpToOrder(a, b)
    decreases a
  {
    match (a, b)
    case (Array(xs), Array(ys)) => ItemsDecide(xs, ys);
    case (Object(ms), Object(ns)) =>
      NormalizedKeys(ms);
      NormalizedKeys(ns);
      if Keys(ms) == Keys(ns) {
        MembersDecide(ms, ns);
        assert forall k :: k in Keys(ms) <==> k in NormalizeMembers(ms);
        assert (forall k :: k in Keys(ms) ==> NormalizeMembers(ms)[k] == NormalizeMembers(ns)[k])
               <==> NormalizeMembers(ms) == NormalizeMembers(ns);
      }
    case _ =>
  }

  lemma {:induction false} ItemsDecide(xs: Items, ys: Items)
    requires DistinctInItems(xs) && DistinctInItems(ys)
    ensures NormalizeItems(xs) == NormalizeItems(ys) <==> SameItems(xs, ys)
    decreases xs
  {
    if xs.Item? && ys.Item? {
      NormalFormsDecide(xs.head, ys.head);
      ItemsDecide(xs.tail, ys.tail);
      var ns, ms := NormalizeItems(xs), NormalizeItems(ys);
      assert ns[0] == Normalize(xs.head) && ns[1..] == NormalizeItems(xs.tail);
      assert ms[0] == Normalize(ys.head) && ms[1..] == NormalizeItems(ys.tail);
    }
  }

  lemma {:induction false} MembersDecide(ms: Members, ns: Members)
    requires DistinctInMembers(ms) && DistinctInMembers(ns) && Keys(ms) <= Keys(ns)
    ensures NormalizeMembers(ms).Keys == Keys(ms) && NormalizeMembers(ns).Keys == Keys(ns)
    ensures (forall k :: k in Keys(ms) ==> NormalizeMembers(ms)[k] == NormalizeMembers(ns)[k]) <==> SameMembers(ms, ns)
    decreases ms
  {
    NormalizedKeys(ms);
    NormalizedKeys(ns);
    if ms.Member? {
      NormalizedKeys(ms.rest);
      NormalizedLookup(ns, ms.key);
      NormalFormsDecide(ms.value, Lookup(ns, ms.key));
      MembersDecide(ms.rest, ns);
      assert NormalizeMembers(ms)[ms.key] == Normalize(ms.value);
      assert forall k :: k in Keys(ms.rest) ==> NormalizeMembers(ms)[k] == NormalizeMembers(ms.rest)[k];
    }
  }
}
