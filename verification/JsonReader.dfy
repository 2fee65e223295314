/** A reader for compact JSON texts: it undoes the printer, so no two values share a printed text. */
module JsonReader {
  import opened Options
  import opened JsonText
  import opened Json
  import Utf8

  // ---------------------------------------------------------------- printing without sorting

  /** The compact text of a value, properties in the order they have. */
  function Print(v: Json): Text {
    match v
    case Null => NULL_TEXT
    case Bool(b) => if b then TRUE_TEXT else FALSE_TEXT
    case Num(n) => NumberText(n)
    case Str(s) => Quote(s)
    case Arr(items) => [OPEN_ARRAY] + PrintItems(items) + [CLOSE_ARRAY]
    case Obj(fields) => [OPEN_OBJECT] + JoinEntries(PrintFields(fields)) + [CLOSE_OBJECT]
  }

  function PrintItems(items: Items): Text {
    if items.NoItems? then []
    else Print(items.head) + if items.tail.NoItems? then [] else [COMMA] + PrintItems(items.tail)
  }

  function PrintFields(fields: Entries<Json>): Entries<Text> {
    if fields.NoEntries? then NoEntries else Entry(fields.key, Print(fields.value), PrintFields(fields.rest))
  }

  lemma {:induction false} PrintFieldsInsert(key: Text, value: Json, e: Entries<Json>)
    ensures PrintFields(Insert(key, value, e)) == Insert(key, Print(value), PrintFields(e))
  {
    if e.Entry? { PrintFieldsInsert(key, value, e.rest); }
  }

  /** Printing the values and sorting the keys can be done in either order. */
  lemma {:induction false} PrintFieldsSort(e: Entries<Json>)
    ensures PrintFields(Sort(e)) == Sort(PrintFields(e))
  {
    if e.Entry? {
      PrintFieldsSort(e.rest);
      PrintFieldsInsert(e.key, e.value, Sort(e.rest));
    }
  }

  /** stableStringify prints the canonical value. */
  lemma {:induction false} StringifyPrintsCanon(v: Json)
    ensures Stringify(v) == Print(Canon(v))
  {
    match v
    case Arr(items) => StringifyItemsPrintsCanon(items);
    case Obj(fields) => StringifyFieldsPrintsCanon(fields); PrintFieldsSort(CanonFields(fields));
    case _ =>
  }

  lemma {:induction false} StringifyItemsPrintsCanon(items: Items)
    ensures StringifyItems(items) == PrintItems(CanonItems(items))
  {
    if items.Item? {
      StringifyPrintsCanon(items.head);
      StringifyItemsPrintsCanon(items.tail);
    }
  }

  lemma {:induction false} StringifyFieldsPrintsCanon(fields: Entries<Json>)
    ensures StringifyFields(fields) == PrintFields(CanonFields(fields))
  {
    if fields.Entry? {
      StringifyPrintsCanon(fields.value);
      StringifyFieldsPrintsCanon(fields.rest);
    }
  }

  // ---------------------------------------------------------------- reading

  function NumberLength(t: Text): (n: nat)
    ensures n <= |t|
  {
    if t == [] || !NumberUnit(t[0]) then 0 else 1 + NumberLength(t[1..])
  }

  function ReadNumber(t: Text): (r: Option<(Json, Text)>)
    ensures r.Some? ==> |r.value.1| < |t|
  {
    var n := NumberLength(t);
    if NumberToken(t[..n]) then Some((Num(Finite(t[..n])), t[n..])) else None
  }

  function ReadString(t: Text): (r: Option<(Text, Text)>)
    ensures r.Some? ==> |r.value.1| < |t|
  {
    if t == [] || t[0] != QUOTE then None else ReadChars(t[1..])
  }

  predicate Starts(t: Text, unit: Unit) { t != [] && t[0] == unit }

  function ReadValue(t: Text): (r: Option<(Json, Text)>)
    ensures r.Some? ==> |r.value.1| < |t|
    decreases |t|, 0
  {
    if Starts(t, QUOTE) then
      match ReadString(t)
      case None => None
      case Some((s, rest)) => Some((Str(s), rest))
    else if Starts(t, OPEN_ARRAY) then
      if Starts(t[1..], CLOSE_ARRAY) then Some((Arr(NoItems), t[2..]))
      else
        match ReadItems(t[1..])
        case None => None
        case Some((items, rest)) => Some((Arr(items), rest))
    else if Starts(t, OPEN_OBJECT) then
      if Starts(t[1..], CLOSE_OBJECT) then Some((Obj(NoEntries), t[2..]))
      else
        match ReadFields(t[1..])
        case None => None
        case Some((fields, rest)) => Some((Obj(fields), rest))
    else if NULL_TEXT <= t then Some((Null, t[4..]))
    else if TRUE_TEXT <= t then Some((Bool(true), t[4..]))
    else if FALSE_TEXT <= t then Some((Bool(false), t[5..]))
    else ReadNumber(t)
  }

  /** One or more values separated by commas, up to and including the closing bracket. */
  function ReadItems(t: Text): (r: Option<(Items, Text)>)
    ensures r.Some? ==> |r.value.1| < |t|
    decreases |t|, 1
  {
    match ReadValue(t)
    case None => None
    case Some((v, rest)) =>
      if Starts(rest, CLOSE_ARRAY) then Some((Item(v, NoItems), rest[1..]))
      else if Starts(rest, COMMA) then
        match ReadItems(rest[1..])
        case None => None
        case Some((items, rest')) => Some((Item(v, items), rest'))
      else None
  }

  function ReadFields(t: Text): (r: Option<(Entries<Json>, Text)>)
    ensures r.Some? ==> |r.value.1| < |t|
    decreases |t|, 1
  {
    match ReadString(t)
    case None => None
    case Some((key, rest)) =>
      if !Starts(rest, COLON) then None
      else
        match ReadValue(rest[1..])
        case None => None
        case Some((v, rest')) =>
          if Starts(rest', CLOSE_OBJECT) then Some((Entry(key, v, NoEntries), rest'[1..]))
          else if Starts(rest', COMMA) then
            match ReadFields(rest'[1..])
            case None => None
            case Some((fields, rest'')) => Some((Entry(key, v, fields), rest''))
          else None
  }

  /** The whole text is one value. */
  function Read(t: Text): Option<Json> {
    match ReadValue(t)
    case Some((v, rest)) => if rest == [] then Some(v) else None
    case None => None
  }

  // ---------------------------------------------------------------- the reader undoes the printer

  /** Only finite numbers, none of them -0. */
  predicate Plain(v: Json) {
    match v
    case Num(n) => n.Finite? && NumberToken(n.token)
    case Arr(items) => PlainItems(items)
    case Obj(fields) => PlainFields(fields)
    case _ => true
  }

  predicate PlainItems(items: Items) { items.NoItems? || (Plain(items.head) && PlainItems(items.tail)) }

  predicate PlainFields(fields: Entries<Json>) { fields.NoEntries? || (Plain(fields.value) && PlainFields(fields.rest)) }

  /** A text that cannot prolong a number. */
  predicate Stops(rest: Text) { rest == [] || !NumberUnit(rest[0]) }

  lemma {:induction false} NumberLengthOf(token: Text, rest: Text)
    requires (forall i :: 0 <= i < |token| ==> NumberUnit(token[i])) && Stops(rest)
    ensures NumberLength(token + rest) == |token|
  {
    if token == [] {
      assert token + rest == rest;
    } else {
      assert (token + rest)[1..] == token[1..] + rest;
      NumberLengthOf(token[1..], rest);
    }
  }

  lemma ReadPrintedNumber(token: Text, rest: Text)
    requires NumberToken(token) && Stops(rest)
    ensures ReadValue(token + rest) == Some((Num(Finite(token)), rest))
  {
    NumberLengthOf(token, rest);
    var t := token + rest;
    assert t[..|token|] == token && t[|token|..] == rest;
    assert t[0] == token[0];
    assert ReadValue(t) == ReadNumber(t);
  }

  lemma ReadQuoted(s: Text, rest: Text)
    ensures ReadString(Quote(s) + rest) == Some((s, rest))
  {
    ReadCharsOfEscape(s, rest);
    assert (Quote(s) + rest)[1..] == Escape(s) + ([QUOTE] + rest);
  }

  lemma ReadPrintedString(s: Text, rest: Text)
    ensures ReadValue(Quote(s) + rest) == Some((Str(s), rest))
  {
    ReadQuoted(s, rest);
    assert (Quote(s) + rest)[0] == QUOTE;
  }

  lemma ReadPrintedLiteral(v: Json, rest: Text)
    requires v.Null? || v.Bool?
    ensures ReadValue(Print(v) + rest) == Some((v, rest))
  {
  }

  lemma PrintItemsStarts(items: Items)
    requires items.Item? && PlainItems(items)
    ensures PrintItems(items) != [] && PrintItems(items)[0] != CLOSE_ARRAY
  {
  }

  lemma ReadArrayOf(body: Text, items: Items, rest: Text)
    requires body != [] && body[0] != CLOSE_ARRAY
    requires ReadItems(body) == Some((items, rest))
    ensures ReadValue([OPEN_ARRAY] + body) == Some((Arr(items), rest))
  {
  }

  lemma ReadObjectOf(body: Text, fields: Entries<Json>, rest: Text)
    requires body != [] && body[0] == QUOTE
    requires ReadFields(body) == Some((fields, rest))
    ensures ReadValue([OPEN_OBJECT] + body) == Some((Obj(fields), rest))
  {
  }

  lemma ReadEmpty(rest: Text)
    ensures ReadValue([OPEN_ARRAY, CLOSE_ARRAY] + rest) == Some((Arr(NoItems), rest))
    ensures ReadValue([OPEN_OBJECT, CLOSE_OBJECT] + rest) == Some((Obj(NoEntries), rest))
  {
  }

  lemma Bracketed(open: Text, inner: Text, close: Text, rest: Text)
    ensures open + inner + close + rest == open + (inner + (close + rest))
  {
  }

  lemma Regroup(a: Text, b: Text, c: Text, d: Text, e: Text, f: Text)
    ensures a + b + c + (d + e) + f == a + (b + (c + (d + (e + f))))
  {
  }

  /** What was printed is read back, and reading stops exactly where the printed text ends. */
  lemma {:induction false} ReadPrint(v: Json, rest: Text)
    requires Plain(v) && Stops(rest)
    ensures ReadValue(Print(v) + rest) == Some((v, rest))
    decreases v, 1
  {
    match v
    case Null => ReadPrintedLiteral(v, rest);
    case Bool(_) => ReadPrintedLiteral(v, rest);
    case Num(n) => ReadPrintedNumber(n.token, rest);
    case Str(s) => ReadPrintedString(s, rest);
    case Arr(items) => ReadPrintArray(items, rest);
    case Obj(fields) => ReadPrintObject(fields, rest);
  }

  lemma {:induction false} ReadPrintArray(items: Items, rest: Text)
    requires PlainItems(items)
    ensures ReadValue(Print(Arr(items)) + rest) == Some((Arr(items), rest))
    decreases items, 2
  {
    if items.NoItems? {
      ReadEmpty(rest);
      assert Print(Arr(items)) + rest == [OPEN_ARRAY, CLOSE_ARRAY] + rest;
    } else {
      var body := PrintItems(items) + ([CLOSE_ARRAY] + rest);
      PrintItemsStarts(items);
      ReadPrintItems(items, rest);
      ReadArrayOf(body, items, rest);
      Bracketed([OPEN_ARRAY], PrintItems(items), [CLOSE_ARRAY], rest);
    }
  }

  lemma ReadItemsLast(t: Text, v: Json, rest: Text)
    requires ReadValue(t) == Some((v, [CLOSE_ARRAY] + rest))
    ensures ReadItems(t) == Some((Item(v, NoItems), rest))
  {
  }

  lemma ReadItemsMore(t: Text, v: Json, more: Text, items: Items, rest: Text)
    requires ReadValue(t) == Some((v, [COMMA] + more)) && ReadItems(more) == Some((items, rest))
    ensures ReadItems(t) == Some((Item(v, items), rest))
  {
  }

  lemma PrintItemsMore(items: Items, tail: Text)
    requires items.Item? && items.tail.Item?
    ensures PrintItems(items) + tail == Print(items.head) + ([COMMA] + (PrintItems(items.tail) + tail))
  {
  }

  lemma PrintItemsLast(items: Items)
    requires items.Item? && items.tail.NoItems?
    ensures PrintItems(items) == Print(items.head)
  {
  }

  lemma {:induction false} ReadPrintItems(items: Items, rest: Text)
    requires items.Item? && PlainItems(items)
    ensures ReadItems(PrintItems(items) + ([CLOSE_ARRAY] + rest)) == Some((items, rest))
    decreases items, 1
  {
    var tail := [CLOSE_ARRAY] + rest;
    if items.tail.NoItems? {
      ReadPrint(items.head, tail);
      ReadItemsLast(Print(items.head) + tail, items.head, rest);
      PrintItemsLast(items);
    } else {
      var more := PrintItems(items.tail) + tail;
      ReadPrint(items.head, [COMMA] + more);
      ReadPrintItems(items.tail, rest);
      ReadItemsMore(Print(items.head) + ([COMMA] + more), items.head, more, items.tail, rest);
      PrintItemsMore(items, tail);
    }
  }

  function JoinFields(fields: Entries<Json>): Text { JoinEntries(PrintFields(fields)) }

  lemma JoinFieldsStarts(fields: Entries<Json>)
    requires fields.Entry?
    ensures JoinFields(fields) != [] && JoinFields(fields)[0] == QUOTE
  {
  }

  lemma {:induction false} ReadPrintObject(fields: Entries<Json>, rest: Text)
    requires PlainFields(fields)
    ensures ReadValue(Print(Obj(fields)) + rest) == Some((Obj(fields), rest))
    decreases fields, 2
  {
    if fields.NoEntries? {
      ReadEmpty(rest);
      assert Print(Obj(fields)) + rest == [OPEN_OBJECT, CLOSE_OBJECT] + rest;
    } else {
      var body := JoinFields(fields) + ([CLOSE_OBJECT] + rest);
      JoinFieldsStarts(fields);
      ReadPrintFields(fields, rest);
      ReadObjectOf(body, fields, rest);
      Bracketed([OPEN_OBJECT], JoinFields(fields), [CLOSE_OBJECT], rest);
    }
  }

  lemma ReadFieldsLast(key: Text, t: Text, v: Json, rest: Text)
    requires ReadValue(t) == Some((v, [CLOSE_OBJECT] + rest))
    ensures ReadFields(Quote(key) + ([COLON] + t)) == Some((Entry(key, v, NoEntries), rest))
  {
    ReadQuoted(key, [COLON] + t);
    assert ([COLON] + t)[1..] == t && ([CLOSE_OBJECT] + rest)[1..] == rest;
  }

  lemma ReadFieldsMore(key: Text, t: Text, v: Json, more: Text, fields: Entries<Json>, rest: Text)
    requires ReadValue(t) == Some((v, [COMMA] + more)) && ReadFields(more) == Some((fields, rest))
    ensures ReadFields(Quote(key) + ([COLON] + t)) == Some((Entry(key, v, fields), rest))
  {
    ReadQuoted(key, [COLON] + t);
    assert ([COLON] + t)[1..] == t && ([COMMA] + more)[1..] == more;
  }

  lemma JoinLast(fields: Entries<Json>, tail: Text)
    requires fields.Entry? && fields.rest.NoEntries?
    ensures JoinFields(fields) + tail == Quote(fields.key) + ([COLON] + (Print(fields.value) + tail))
  {
    assert PrintFields(fields.rest) == NoEntries;
    Regroup(Quote(fields.key), [COLON], Print(fields.value), [], [], tail);
    assert [] + ([] + tail) == tail;
    assert JoinFields(fields) == Quote(fields.key) + [COLON] + Print(fields.value) + [];
  }

  lemma JoinMore(fields: Entries<Json>, tail: Text)
    requires fields.Entry? && fields.rest.Entry?
    ensures JoinFields(fields) + tail == Quote(fields.key) + ([COLON] + (Print(fields.value) + ([COMMA] + (JoinFields(fields.rest) + tail))))
  {
  }

  lemma {:induction false} ReadPrintFields(fields: Entries<Json>, rest: Text)
    requires fields.Entry? && PlainFields(fields)
    ensures ReadFields(JoinFields(fields) + ([CLOSE_OBJECT] + rest)) == Some((fields, rest))
    decreases fields, 1
  {
    var tail := [CLOSE_OBJECT] + rest;
    if fields.rest.NoEntries? {
      ReadPrint(fields.value, tail);
      ReadFieldsLast(fields.key, Print(fields.value) + tail, fields.value, rest);
      JoinLast(fields, tail);
    } else {
      var more := JoinFields(fields.rest) + tail;
      ReadPrint(fields.value, [COMMA] + more);
      ReadPrintFields(fields.rest, rest);
      ReadFieldsMore(fields.key, Print(fields.value) + ([COMMA] + more), fields.value, more, fields.rest, rest);
      JoinMore(fields, tail);
    }
  }

  // ---------------------------------------------------------------- the theorems

  lemma {:induction false} PlainFieldsInsert(key: Text, value: Json, e: Entries<Json>)
    requires Plain(value) && PlainFields(e)
    ensures PlainFields(Insert(key, value, e))
  {
    if e.Entry? { PlainFieldsInsert(key, value, e.rest); }
  }

  lemma {:induction false} PlainFieldsSort(e: Entries<Json>)
    requires PlainFields(e)
    ensures PlainFields(Sort(e))
  {
    if e.Entry? {
      PlainFieldsSort(e.rest);
      PlainFieldsInsert(e.key, e.value, Sort(e.rest));
    }
  }

  lemma {:induction false} CanonIsPlain(v: Json)
    requires WellFormed(v)
    ensures Plain(Canon(v))
  {
    match v
    case Arr(items) => CanonItemsArePlain(items);
    case Obj(fields) => CanonFieldsArePlain(fields); PlainFieldsSort(CanonFields(fields));
    case _ =>
  }

  lemma {:induction false} CanonItemsArePlain(items: Items)
    requires WellFormedItems(items)
    ensures PlainItems(CanonItems(items))
  {
    if items.Item? {
      CanonIsPlain(items.head);
      CanonItemsArePlain(items.tail);
    }
  }

  lemma {:induction false} CanonFieldsArePlain(fields: Entries<Json>)
    requires WellFormedFields(fields)
    ensures PlainFields(CanonFields(fields))
  {
    if fields.Entry? {
      CanonIsPlain(fields.value);
      CanonFieldsArePlain(fields.rest);
    }
  }

  /** Reading what stableStringify printed gives the value back, in canonical form. */
  lemma ReadStringify(v: Json)
    requires WellFormed(v)
    ensures Read(Stringify(v)) == Some(Canon(v))
  {
    StringifyPrintsCanon(v);
    CanonIsPlain(v);
    ReadPrint(Canon(v), []);
    assert Print(Canon(v)) + [] == Print(Canon(v));
  }

  /** Two parsed values print alike if and only if they are equal up to the order of keys, the sign of zero, and
      numbers too large to be finite, which count as null. */
  lemma StringifyEqualIffSame(a: Json, b: Json)
    requires WellFormed(a) && WellFormed(b)
    ensures Stringify(a) == Stringify(b) <==> Same(a, b)
  {
    ReadStringify(a);
    ReadStringify(b);
    StringifyPrintsCanon(a);
    StringifyPrintsCanon(b);
    CanonEqualIffSame(a, b);
  }

  /** The collision in its smallest form: 1e999 parses to Infinity and hashes like null. */
  lemma InfinityPrintsAsNull()
    ensures Stringify(Num(Infinite(false))) == Stringify(Null) && Num(Infinite(false)) != Null
  {
  }

  predicate WellFormedText(t: Text) { Utf8.WellFormed(t) }

  lemma NumberIsWellFormedText(token: Text)
    requires NumberToken(token)
    ensures WellFormedText(token)
  {
    forall i | 0 <= i < |token| ensures !Utf8.Surrogate(token[i]) { assert NumberUnit(token[i]); }
    PlainIsWellFormed(token);
  }

  lemma Concat3(a: Text, b: Text, c: Text)
    requires WellFormedText(a) && WellFormedText(b) && WellFormedText(c)
    ensures WellFormedText(a + b + c)
  {
    WellFormedAppend(a, b);
    WellFormedAppend(a + b, c);
  }

  lemma {:induction false} PrintIsWellFormed(v: Json)
    requires Plain(v)
    ensures WellFormedText(Print(v))
  {
    PlainIsWellFormed(NULL_TEXT); PlainIsWellFormed(TRUE_TEXT); PlainIsWellFormed(FALSE_TEXT);
    match v
    case Num(n) => NumberIsWellFormedText(n.token);
    case Str(s) => QuoteIsWellFormed(s);
    case Arr(items) => PrintItemsIsWellFormed(items); PlainIsWellFormed([OPEN_ARRAY]); PlainIsWellFormed([CLOSE_ARRAY]);
      Concat3([OPEN_ARRAY], PrintItems(items), [CLOSE_ARRAY]);
    case Obj(fields) => JoinFieldsIsWellFormed(fields); PlainIsWellFormed([OPEN_OBJECT]); PlainIsWellFormed([CLOSE_OBJECT]);
      Concat3([OPEN_OBJECT], JoinFields(fields), [CLOSE_OBJECT]);
    case _ =>
  }

  lemma {:induction false} PrintItemsIsWellFormed(items: Items)
    requires PlainItems(items)
    ensures WellFormedText(PrintItems(items))
  {
    if items.Item? {
      PrintIsWellFormed(items.head);
      PrintItemsIsWellFormed(items.tail);
      PlainIsWellFormed([COMMA]);
      Concat3(Print(items.head), [COMMA], PrintItems(items.tail));
      assert Print(items.head) + [COMMA] + PrintItems(items.tail) == Print(items.head) + ([COMMA] + PrintItems(items.tail));
      assert Print(items.head) + [] == Print(items.head);
    }
  }

  lemma {:induction false} JoinFieldsIsWellFormed(fields: Entries<Json>)
    requires PlainFields(fields)
    ensures WellFormedText(JoinFields(fields))
  {
    if fields.Entry? {
      var q, p := Quote(fields.key), Print(fields.value);
      QuoteIsWellFormed(fields.key);
      PrintIsWellFormed(fields.value);
      JoinFieldsIsWellFormed(fields.rest);
      PlainIsWellFormed([COLON]);
      PlainIsWellFormed([COMMA]);
      Concat3(q, [COLON], p);
      Concat3(q + [COLON] + p, [COMMA], JoinFields(fields.rest));
      assert q + [COLON] + p + [COMMA] + JoinFields(fields.rest) == q + [COLON] + p + ([COMMA] + JoinFields(fields.rest));
      assert q + [COLON] + p + [] == q + [COLON] + p;
    }
  }

  /** The bytes given to SHA-256 separate any two different payloads: encoding to UTF-8 loses nothing, because the
      printed text has no lone surrogate even where the payload has. */
  lemma HashInputEqualIffSame(a: Json, b: Json)
    requires WellFormed(a) && WellFormed(b)
    ensures Utf8.Encode(Stringify(a)) == Utf8.Encode(Stringify(b)) <==> Same(a, b)
  {
    StringifyEqualIffSame(a, b);
    StringifyPrintsCanon(a); StringifyPrintsCanon(b);
    CanonIsPlain(a); CanonIsPlain(b);
    PrintIsWellFormed(Canon(a)); PrintIsWellFormed(Canon(b));
    Utf8.DecodeEncode(Stringify(a));
    Utf8.DecodeEncode(Stringify(b));
  }
}
