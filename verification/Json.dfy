/**
Canonical JSON: the text that is hashed to recognise a repeated request, and a reader for
compact JSON texts (RFC 8259) against which its printer is proved.
*/
module Json {
  import opened Options
  import opened Lex
  import opened JsonText

  /** A JavaScript number as JSON.parse makes it: `token` is the decimal text of a finite number other than -0. */
  datatype Number = Finite(token: Text) | NegativeZero | Infinite(negative: bool)

  datatype Json = Null | Bool(b: bool) | Num(n: Number) | Str(s: Text) | Arr(items: Items) | Obj(fields: Entries<Json>)

  datatype Items = NoItems | Item(head: Json, tail: Items)

  /** The properties of an object, in some order. */
  datatype Entries<V> = NoEntries | Entry(key: Text, value: V, rest: Entries<V>)

  const COMMA: Unit := 0x2C
  const COLON: Unit := 0x3A
  const OPEN_ARRAY: Unit := 0x5B
  const CLOSE_ARRAY: Unit := 0x5D
  const OPEN_OBJECT: Unit := 0x7B
  const CLOSE_OBJECT: Unit := 0x7D
  const NULL_TEXT: Text := [0x6E, 0x75, 0x6C, 0x6C]
  const TRUE_TEXT: Text := [0x74, 0x72, 0x75, 0x65]
  const FALSE_TEXT: Text := [0x66, 0x61, 0x6C, 0x73, 0x65]
  const ZERO_TEXT: Text := [0x30]

  // ---------------------------------------------------------------- numbers

  predicate NumberUnit(u: Unit) { 0x30 <= u <= 0x39 || u in {0x2B, 0x2D, 0x2E, 0x45, 0x65} }

  predicate NumberToken(t: Text) {
    t != [] && (t[0] == 0x2D || 0x30 <= t[0] <= 0x39) && forall i :: 0 <= i < |t| ==> NumberUnit(t[i])
  }

  /** JSON.stringify of a number: -0 prints as 0, and what is not finite prints as null. */
  function NumberText(n: Number): Text {
    match n
    case Finite(token) => token
    case NegativeZero => ZERO_TEXT
    case Infinite(_) => NULL_TEXT
  }

  predicate WellFormedNumber(n: Number) { n.Finite? ==> NumberToken(n.token) }

  // ---------------------------------------------------------------- stableStringify

  /** Array.prototype.sort on the keys, as an insertion sort. */
  function Insert<V>(key: Text, value: V, e: Entries<V>): Entries<V> {
    if e.NoEntries? || Less(key, e.key) then Entry(key, value, e)
    else Entry(e.key, e.value, Insert(key, value, e.rest))
  }

  function Sort<V>(e: Entries<V>): Entries<V> {
    if e.NoEntries? then NoEntries else Insert(e.key, e.value, Sort(e.rest))
  }

  /** key:value pairs joined by commas. */
  function JoinEntries(e: Entries<Text>): Text {
    if e.NoEntries? then []
    else Quote(e.key) + [COLON] + e.value + if e.rest.NoEntries? then [] else [COMMA] + JoinEntries(e.rest)
  }

  /** The source's stableStringify. */
  function Stringify(v: Json): Text {
    match v
    case Null => NULL_TEXT
    case Bool(b) => if b then TRUE_TEXT else FALSE_TEXT
    case Num(n) => NumberText(n)
    case Str(s) => Quote(s)
    case Arr(items) => [OPEN_ARRAY] + StringifyItems(items) + [CLOSE_ARRAY]
    case Obj(fields) => [OPEN_OBJECT] + JoinEntries(Sort(StringifyFields(fields))) + [CLOSE_OBJECT]
  }

  function StringifyItems(items: Items): Text {
    if items.NoItems? then []
    else Stringify(items.head) + if items.tail.NoItems? then [] else [COMMA] + StringifyItems(items.tail)
  }

  function StringifyFields(fields: Entries<Json>): Entries<Text> {
    if fields.NoEntries? then NoEntries
    else Entry(fields.key, Stringify(fields.value), StringifyFields(fields.rest))
  }

  // ---------------------------------------------------------------- which values count as the same

  function Find<V>(e: Entries<V>, key: Text): Option<V> {
    if e.NoEntries? then None else if e.key == key then Some(e.value) else Find(e.rest, key)
  }

  predicate Has<V>(e: Entries<V>, key: Text) { Find(e, key).Some? }

  predicate DistinctKeys<V>(e: Entries<V>) {
    e.NoEntries? || (!Has(e.rest, e.key) && DistinctKeys(e.rest))
  }

  /** What JSON.parse returns: proper number tokens, and each key of an object once. */
  predicate WellFormed(v: Json) {
    match v
    case Num(n) => WellFormedNumber(n)
    case Arr(items) => WellFormedItems(items)
    case Obj(fields) => DistinctKeys(fields) && WellFormedFields(fields)
    case _ => true
  }

  predicate WellFormedItems(items: Items) {
    items.NoItems? || (WellFormed(items.head) && WellFormedItems(items.tail))
  }

  predicate WellFormedFields(fields: Entries<Json>) {
    fields.NoEntries? || (WellFormed(fields.value) && WellFormedFields(fields.rest))
  }

  predicate Nullish(v: Json) { v.Null? || (v.Num? && v.n.Infinite?) }

  predicate SameNumber(m: Number, n: Number) {
    m == n || {m, n} == {NegativeZero, Finite(ZERO_TEXT)}
  }

  /** Equal values, where the order of keys does not matter, 0 is -0, and an infinite number is null. */
  predicate Same(a: Json, b: Json) {
    if Nullish(a) || Nullish(b) then Nullish(a) && Nullish(b)
    else
      match a
      case Bool(_) => a == b
      case Str(_) => a == b
      case Num(n) => b.Num? && SameNumber(n, b.n)
      case Arr(items) => b.Arr? && SameItems(items, b.items)
      case Obj(fields) => b.Obj? && SameFields(fields, b.fields) && HasAll(fields, b.fields)
      case Null => assert false; true
  }

  predicate SameItems(a: Items, b: Items) {
    if a.NoItems? || b.NoItems? then a.NoItems? && b.NoItems? else Same(a.head, b.head) && SameItems(a.tail, b.tail)
  }

  /** Every property of `a` is one of `b`, with the same value. */
  predicate SameFields(a: Entries<Json>, b: Entries<Json>) {
    a.NoEntries? || (Has(b, a.key) && Same(a.value, Find(b, a.key).value) && SameFields(a.rest, b))
  }

  predicate HasAll(a: Entries<Json>, b: Entries<Json>) {
    b.NoEntries? || (Has(a, b.key) && HasAll(a, b.rest))
  }

  // ---------------------------------------------------------------- canonical values

  function Canon(v: Json): Json {
    match v
    case Num(Infinite(_)) => Null
    case Num(NegativeZero) => Num(Finite(ZERO_TEXT))
    case Arr(items) => Arr(CanonItems(items))
    case Obj(fields) => Obj(Sort(CanonFields(fields)))
    case _ => v
  }

  function CanonItems(items: Items): Items {
    if items.NoItems? then NoItems else Item(Canon(items.head), CanonItems(items.tail))
  }

  function CanonFields(fields: Entries<Json>): Entries<Json> {
    if fields.NoEntries? then NoEntries else Entry(fields.key, Canon(fields.value), CanonFields(fields.rest))
  }

  predicate Increasing<V>(e: Entries<V>) {
    e.NoEntries? || e.rest.NoEntries? || (Less(e.key, e.rest.key) && Increasing(e.rest))
  }

  lemma {:induction false} InsertFinds<V>(key: Text, value: V, e: Entries<V>, k: Text)
    requires !Has(e, key)
    ensures Find(Insert(key, value, e), k) == if k == key then Some(value) else Find(e, k)
  {
    if !(e.NoEntries? || Less(key, e.key)) { InsertFinds(key, value, e.rest, k); }
  }

  /** Sorting keeps every property and its value. */
  lemma {:induction false} SortFinds<V>(e: Entries<V>, k: Text)
    requires DistinctKeys(e)
    ensures Find(Sort(e), k) == Find(e, k)
  {
    if e.Entry? {
      SortFinds(e.rest, e.key);
      SortFinds(e.rest, k);
      InsertFinds(e.key, e.value, Sort(e.rest), k);
    }
  }

  lemma {:induction false} InsertIncreases<V>(key: Text, value: V, e: Entries<V>)
    requires Increasing(e) && !Has(e, key)
    ensures Increasing(Insert(key, value, e))
  {
    if e.Entry? && !Less(key, e.key) {
      LessIsTotal(key, e.key);
      InsertIncreases(key, value, e.rest);
    }
  }

  lemma {:induction false} SortIncreases<V>(e: Entries<V>)
    requires DistinctKeys(e)
    ensures Increasing(Sort(e))
  {
    if e.Entry? {
      SortIncreases(e.rest);
      SortFinds(e.rest, e.key);
      InsertIncreases(e.key, e.value, Sort(e.rest));
    }
  }

  lemma {:induction false} SmallestIsFirst<V>(e: Entries<V>, k: Text)
    requires Increasing(e) && Has(e, k)
    ensures k == e.key || Less(e.key, k)
  {
    if k != e.key {
      SmallestIsFirst(e.rest, k);
      if k != e.rest.key { LessIsTransitive(e.key, e.rest.key, k); }
    }
  }

  lemma RestHasNoFirst<V>(e: Entries<V>)
    requires Increasing(e) && e.Entry?
    ensures !Has(e.rest, e.key)
  {
    if Has(e.rest, e.key) {
      SmallestIsFirst(e.rest, e.key);
      LessIsAsymmetric(e.key, e.rest.key);
    }
  }

  /** `a` and `b` have the same properties with the same values. */
  ghost predicate Agree<V>(a: Entries<V>, b: Entries<V>) { forall k :: Find(a, k) == Find(b, k) }

  /** A set of properties has one sorted listing. */
  lemma {:induction false} SortedListingIsUnique<V>(a: Entries<V>, b: Entries<V>)
    requires Increasing(a) && Increasing(b) && Agree(a, b)
    ensures a == b
  {
    if a.NoEntries? {
      var k := if b.Entry? then b.key else [];
      assert Find(a, k) == Find(b, k);
    } else {
      assert Find(a, a.key) == Find(b, a.key);
      assert Find(b, b.key) == Find(a, b.key);
      SmallestIsFirst(a, b.key);
      SmallestIsFirst(b, a.key);
      if a.key != b.key { LessIsAsymmetric(a.key, b.key); }
      RestHasNoFirst(a);
      RestHasNoFirst(b);
      forall k ensures Find(a.rest, k) == Find(b.rest, k) { assert Find(a, k) == Find(b, k); }
      SortedListingIsUnique(a.rest, b.rest);
    }
  }

  lemma {:induction false} CanonFieldsFind(fields: Entries<Json>, k: Text)
    ensures Find(CanonFields(fields), k) == if Has(fields, k) then Some(Canon(Find(fields, k).value)) else None
  {
    if fields.Entry? { CanonFieldsFind(fields.rest, k); }
  }

  lemma {:induction false} CanonKeepsDistinct(fields: Entries<Json>)
    requires DistinctKeys(fields)
    ensures DistinctKeys(CanonFields(fields))
  {
    if fields.Entry? {
      CanonKeepsDistinct(fields.rest);
      CanonFieldsFind(fields.rest, fields.key);
    }
  }

  lemma SortedFieldFinds(fields: Entries<Json>, k: Text)
    requires DistinctKeys(fields)
    ensures Find(Sort(CanonFields(fields)), k) == if Has(fields, k) then Some(Canon(Find(fields, k).value)) else None
  {
    CanonKeepsDistinct(fields);
    SortFinds(CanonFields(fields), k);
    CanonFieldsFind(fields, k);
  }

  lemma {:induction false} HasAllFinds(a: Entries<Json>, b: Entries<Json>, k: Text)
    requires HasAll(a, b) && Has(b, k)
    ensures Has(a, k)
  {
    if b.key != k { HasAllFinds(a, b.rest, k); }
  }

  lemma {:induction false} HasAllFrom(a: Entries<Json>, b: Entries<Json>, whole: Entries<Json>)
    requires forall k :: Has(whole, k) ==> Has(a, k)
    requires forall k :: Has(b, k) ==> Has(whole, k)
    requires DistinctKeys(b)
    ensures HasAll(a, b)
  {
    if b.Entry? {
      assert Has(b, b.key);
      forall k | Has(b.rest, k) ensures Has(whole, k) { assert Has(b, k); }
      HasAllFrom(a, b.rest, whole);
    }
  }

  lemma {:induction false} FoundIsWellFormed(fields: Entries<Json>, k: Text)
    requires WellFormedFields(fields) && Has(fields, k)
    ensures WellFormed(Find(fields, k).value)
  {
    if fields.key != k { FoundIsWellFormed(fields.rest, k); }
  }

  /** Two values have one canonical form exactly when they are the same. */
  lemma {:induction false} CanonEqualIffSame(a: Json, b: Json)
    requires WellFormed(a) && WellFormed(b)
    ensures Canon(a) == Canon(b) <==> Same(a, b)
    decreases a, 1
  {
    if Nullish(a) || Nullish(b) {
    } else if a.Arr? && b.Arr? {
      CanonItemsEqualIffSame(a.items, b.items);
    } else if a.Obj? && b.Obj? {
      CanonObjectsEqualIffSame(a, b);
    }
  }

  lemma {:induction false} CanonItemsEqualIffSame(a: Items, b: Items)
    requires WellFormedItems(a) && WellFormedItems(b)
    ensures CanonItems(a) == CanonItems(b) <==> SameItems(a, b)
    decreases a, 1
  {
    if a.Item? && b.Item? {
      CanonEqualIffSame(a.head, b.head);
      CanonItemsEqualIffSame(a.tail, b.tail);
    }
  }

  /** SameFields, read through Find. */
  lemma {:induction false} SameFieldsIff(a: Entries<Json>, b: Entries<Json>)
    requires WellFormedFields(a) && WellFormedFields(b) && DistinctKeys(a)
    ensures SameFields(a, b) <==> forall k :: Has(a, k) ==> Has(b, k) && Canon(Find(a, k).value) == Canon(Find(b, k).value)
    decreases a, 1
  {
    if a.Entry? {
      SameFieldsIff(a.rest, b);
      if Has(b, a.key) {
        FoundIsWellFormed(b, a.key);
        CanonEqualIffSame(a.value, Find(b, a.key).value);
      }
      assert Has(a, a.key);
      if forall k :: Has(a, k) ==> Has(b, k) && Canon(Find(a, k).value) == Canon(Find(b, k).value) {
        forall k | Has(a.rest, k) ensures Has(b, k) && Canon(Find(a.rest, k).value) == Canon(Find(b, k).value) {
          assert Has(a, k) && k != a.key;
        }
      }
    }
  }

  lemma {:induction false} CanonObjectsEqualIffSame(a: Json, b: Json)
    requires a.Obj? && b.Obj? && WellFormed(a) && WellFormed(b)
    ensures Canon(a) == Canon(b) <==> Same(a, b)
    decreases a, 0
  {
    var f, g := a.fields, b.fields;
    SameFieldsIff(f, g);
    var sf, sg := Sort(CanonFields(f)), Sort(CanonFields(g));
    if sf == sg {
      forall k ensures Has(f, k) <==> Has(g, k) { SortedFieldFinds(f, k); SortedFieldFinds(g, k); }
      forall k | Has(f, k) ensures Has(g, k) && Canon(Find(f, k).value) == Canon(Find(g, k).value) {
        SortedFieldFinds(f, k); SortedFieldFinds(g, k);
      }
      HasAllFrom(f, g, g);
    }
    if Same(a, b) {
      forall k ensures Find(sf, k) == Find(sg, k) {
        SortedFieldFinds(f, k); SortedFieldFinds(g, k);
        if Has(g, k) { HasAllFinds(f, g, k); }
      }
      CanonKeepsDistinct(f); CanonKeepsDistinct(g);
      SortIncreases(CanonFields(f)); SortIncreases(CanonFields(g));
      SortedListingIsUnique(sf, sg);
    }
  }
}
