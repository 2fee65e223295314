/** From the request's recipient fields to the three lists of a send plan, and back from the stored row. */
module Recipients {
  import opened Addresses
  import opened Sequences

  /** A JSON value in a recipient field. */
  datatype Value = Missing | Text(s: string) | List(items: seq<Value>) | Other

  datatype Error = NotText | InputTooLong | TooMany | InvalidAddress | NoRecipient | NoAutoBcc

  datatype Result<T> = Ok(value: T) | Err(error: Error)

  const MAX_INPUT: nat := 30_000
  const MAX_RECIPIENTS: nat := 50

  // ---------------------------------------------------------------- one leaf

  predicate Separator(c: char) { c == ';' || c == ',' || c == '\n' }

  /** The pieces between separators; runs of separators make empty pieces, which are dropped below. */
  function Pieces(s: string): (r: seq<string>)
    ensures r != []
  {
    if s == "" then [""]
    else if Separator(s[0]) then [""] + Pieces(s[1..])
    else var rest := Pieces(s[1..]); [[s[0]] + rest[0]] + rest[1..]
  }

  function TrimAll(pieces: seq<string>): seq<string> {
    if pieces == [] then []
    else (if Trim(pieces[0]) == "" then [] else [Trim(pieces[0])]) + TrimAll(pieces[1..])
  }

  function TokensOf(s: string): seq<string> { TrimAll(Pieces(s)) }

  const SEPARATORS := ";,\n"

  /** The characters from i to j lie between two separators, or a separator and an end, with none among them. */
  predicate IsPiece(s: string, i: int, j: int) {
    && 0 <= i <= j <= |s| && (forall k :: i <= k < j ==> s[k] !in SEPARATORS)
    && (i == 0 || s[i - 1] in SEPARATORS) && (j == |s| || s[j] in SEPARATORS)
  }

  function FirstEnd(s: string): (n: nat)
    ensures n <= |s|
  {
    if s == "" || Separator(s[0]) then 0 else 1 + FirstEnd(s[1..])
  }

  lemma {:induction false} FirstPieceIs(s: string)
    ensures IsPiece(s, 0, FirstEnd(s)) && Pieces(s)[0] == s[..FirstEnd(s)]
    ensures forall j :: IsPiece(s, 0, j) ==> j == FirstEnd(s)
  {
    if s != "" && !Separator(s[0]) {
      FirstPieceIs(s[1..]);
      var n := FirstEnd(s[1..]);
      assert s[..n + 1] == [s[0]] + s[1..][..n];
      forall k | 0 <= k < n + 1 ensures s[k] !in SEPARATORS { if k > 0 { assert s[k] == s[1..][k - 1]; } }
      forall j | IsPiece(s, 0, j) ensures j == n + 1 {
        if j > 0 { PieceShifts(s, 0, j - 1); }
      }
    }
  }

  lemma PieceShifts(s: string, i: int, j: int)
    requires s != ""
    ensures i > 0 ==> (IsPiece(s, i + 1, j + 1) <==> IsPiece(s[1..], i, j))
    ensures IsPiece(s, 1, j + 1) <==> Separator(s[0]) && IsPiece(s[1..], 0, j)
    ensures j >= 0 && IsPiece(s, 0, j + 1) ==> IsPiece(s[1..], 0, j)
    ensures 0 <= i <= j < |s| ==> s[i + 1..j + 1] == s[1..][i..j]
  {
    assert forall k :: 0 <= k < |s| - 1 ==> s[1..][k] == s[k + 1];
    if 0 <= i <= j < |s| && forall k :: i + 1 <= k < j + 1 ==> !Separator(s[k]) {
      forall k | i <= k < j ensures !Separator(s[1..][k]) { assert !Separator(s[k + 1]); }
    }
  }

  ghost predicate LaterPiece(s: string, a: string) { exists i, j :: i > 0 && IsPiece(s, i, j) && s[i..j] == a }

  ghost predicate SomePiece(s: string, a: string) { exists i, j :: IsPiece(s, i, j) && s[i..j] == a }

  lemma SomeIsFirstOrLater(s: string, a: string)
    ensures SomePiece(s, a) <==> a == s[..FirstEnd(s)] || LaterPiece(s, a)
  {
    FirstPieceIs(s);
    assert s[0..FirstEnd(s)] == s[..FirstEnd(s)];
  }

  lemma LaterShifts(s: string, a: string)
    requires s != ""
    ensures LaterPiece(s, a) <==> if Separator(s[0]) then SomePiece(s[1..], a) else LaterPiece(s[1..], a)
  {
    forall i, j | i > 0 && IsPiece(s, i, j) && s[i..j] == a
      ensures if Separator(s[0]) then SomePiece(s[1..], a) else LaterPiece(s[1..], a)
    {
      PieceShifts(s, i - 1, j - 1);
      assert IsPiece(s[1..], i - 1, j - 1) && s[1..][i - 1..j - 1] == a;
    }
    forall i, j | IsPiece(s[1..], i, j) && s[1..][i..j] == a && (i > 0 || Separator(s[0])) ensures LaterPiece(s, a) {
      PieceShifts(s, i, j);
      assert IsPiece(s, i + 1, j + 1) && s[i + 1..j + 1] == a;
    }
  }

  /** Splitting gives exactly the pieces between the separators. */
  lemma {:induction false} PiecesAre(s: string, a: string)
    ensures a in Pieces(s)[1..] <==> LaterPiece(s, a)
    ensures a in Pieces(s) <==> SomePiece(s, a)
  {
    FirstPieceIs(s);
    SomeIsFirstOrLater(s, a);
    assert Pieces(s) == [Pieces(s)[0]] + Pieces(s)[1..];
    if s != "" {
      PiecesAre(s[1..], a);
      LaterShifts(s, a);
      assert Pieces(s)[1..] == if Separator(s[0]) then Pieces(s[1..]) else Pieces(s[1..])[1..];
    }
  }

  lemma {:induction false} TrimAllIs(pieces: seq<string>, a: string)
    ensures a in TrimAll(pieces) <==> a != "" && exists p :: p in pieces && Trim(p) == a
  {
    if pieces != [] {
      TrimAllIs(pieces[1..], a);
      assert forall p :: p in pieces <==> p == pieces[0] || p in pieces[1..];
    }
  }

  /** The tokens of a text are its pieces, trimmed, without the empty ones. */
  lemma TokensAre(s: string, a: string)
    ensures a in TokensOf(s) <==> a != "" && exists i, j :: IsPiece(s, i, j) && Trim(s[i..j]) == a
  {
    TrimAllIs(Pieces(s), a);
    forall p ensures p in Pieces(s) <==> SomePiece(s, p) { PiecesAre(s, p); }
    if p :| p in Pieces(s) && Trim(p) == a {
      var i, j :| IsPiece(s, i, j) && s[i..j] == p;
    }
    if i, j :| IsPiece(s, i, j) && Trim(s[i..j]) == a { assert SomePiece(s, s[i..j]); }
  }

  // ---------------------------------------------------------------- flattening

  /** The leaves of a value, left to right. */
  function Leaves(v: Value): seq<Value>
    decreases v, if v.List? then |v.items| + 1 else 0
  {
    match v
    case List(items) => LeavesOf(v, items)
    case _ => [v]
  }

  function LeavesOf(v: Value, items: seq<Value>): seq<Value>
    requires forall i :: 0 <= i < |items| ==> items[i] < v
    decreases v, |items|
  {
    if items == [] then [] else Leaves(items[0]) + LeavesOf(v, items[1..])
  }

  /** The reference: all tokens of all leaves, or the first leaf's error. */
  function Collect(leaves: seq<Value>): Result<seq<string>> {
    if leaves == [] then Ok([])
    else
      match leaves[0]
      case Missing => Collect(leaves[1..])
      case Text(s) =>
        if s == "" then Collect(leaves[1..])
        else if |s| > MAX_INPUT then Err(InputTooLong)
        else
          (match Collect(leaves[1..])
           case Err(e) => Err(e)
           case Ok(rest) => Ok(TokensOf(s) + rest))
      case Other => Err(NotText)
      case List(_) => Err(NotText)
  }

  // ---------------------------------------------------------------- the worklist

  /** A measure of the values still to be looked at: nested lists count for their parts. */
  function Weight(v: Value): nat
    decreases v, if v.List? then |v.items| + 1 else 0
  {
    match v
    case List(items) => 1 + WeightOf(v, items)
    case _ => 1
  }

  function WeightOf(v: Value, items: seq<Value>): nat
    requires forall i :: 0 <= i < |items| ==> items[i] < v
    decreases v, |items|
  {
    if items == [] then 0 else Weight(items[0]) + WeightOf(v, items[1..])
  }

  function Load(pending: seq<Value>): nat { if pending == [] then 0 else Weight(pending[0]) + Load(pending[1..]) }

  function AllLeaves(pending: seq<Value>): seq<Value> {
    if pending == [] then [] else Leaves(pending[0]) + AllLeaves(pending[1..])
  }

  lemma {:induction false} LoadAppend(a: seq<Value>, b: seq<Value>)
    ensures Load(a + b) == Load(a) + Load(b) && AllLeaves(a + b) == AllLeaves(a) + AllLeaves(b)
  {
    if a == [] {
      assert a + b == b;
    } else {
      assert (a + b)[1..] == a[1..] + b;
      LoadAppend(a[1..], b);
    }
  }

  lemma {:induction false} PartsOf(v: Value, items: seq<Value>)
    requires forall i :: 0 <= i < |items| ==> items[i] < v
    ensures Load(items) == WeightOf(v, items) && AllLeaves(items) == LeavesOf(v, items)
  {
    if items != [] { PartsOf(v, items[1..]); }
  }

  /** Opening a list at the front makes the load smaller and changes no leaf. */
  lemma OpenList(v: Value, rest: seq<Value>)
    requires v.List?
    ensures Load(v.items + rest) < Load([v] + rest) && AllLeaves(v.items + rest) == AllLeaves([v] + rest)
  {
    LoadAppend(v.items, rest);
    PartsOf(v, v.items);
    assert ([v] + rest)[1..] == rest;
  }

  function Prefixed(tokens: seq<string>, r: Result<seq<string>>): Result<seq<string>> {
    if r.Err? then r else Ok(tokens + r.value)
  }

  /** What will have been collected in the end. */
  function Outcome(tokens: seq<string>, pending: seq<Value>): Result<seq<string>> { Prefixed(tokens, Collect(AllLeaves(pending))) }

  lemma ListStep(tokens: seq<string>, v: Value, rest: seq<Value>)
    requires v.List?
    ensures Outcome(tokens, v.items + rest) == Outcome(tokens, [v] + rest) && Load(v.items + rest) < Load([v] + rest)
  {
    OpenList(v, rest);
  }

  lemma FirstLeaf(leaf: Value, rest: seq<Value>)
    requires !leaf.List?
    ensures AllLeaves([leaf] + rest) == [leaf] + AllLeaves(rest) && Load(rest) < Load([leaf] + rest)
    ensures ([leaf] + AllLeaves(rest))[1..] == AllLeaves(rest)
  {
  }

  lemma LeafStep(tokens: seq<string>, leaf: Value, rest: seq<Value>)
    requires !leaf.List?
    ensures Load(rest) < Load([leaf] + rest)
    ensures leaf.Missing? || leaf == Text("") ==> Outcome(tokens, [leaf] + rest) == Outcome(tokens, rest)
    ensures leaf.Other? ==> Outcome(tokens, [leaf] + rest) == Err(NotText)
    ensures leaf.Text? && leaf.s != "" && |leaf.s| > MAX_INPUT ==> Outcome(tokens, [leaf] + rest) == Err(InputTooLong)
    ensures leaf.Text? && leaf.s != "" && |leaf.s| <= MAX_INPUT ==>
              Outcome(tokens, [leaf] + rest) == Outcome(tokens + TokensOf(leaf.s), rest)
  {
    FirstLeaf(leaf, rest);
    var more := Collect(AllLeaves(rest));
    if leaf.Text? && more.Ok? { assert tokens + (TokensOf(leaf.s) + more.value) == tokens + TokensOf(leaf.s) + more.value; }
  }

  lemma Finished(tokens: seq<string>)
    ensures Outcome(tokens, []) == Ok(tokens)
  {
    assert tokens + [] == tokens;
  }

  lemma TokensAreKept(tokens: seq<string>, pending: seq<Value>)
    ensures Outcome(tokens, pending).Ok? ==> tokens <= Outcome(tokens, pending).value
  {
  }

  /** recipientTokens: the worklist agrees with collecting the leaves, unless it stops early with more tokens than are allowed. */
  method RecipientTokens(value: Value) returns (r: Result<seq<string>>)
    ensures r.Err? || |r.value| <= MAX_RECIPIENTS + 1 ==> r == Collect(Leaves(value))
    ensures r.Ok? && Collect(Leaves(value)).Ok? ==> r.value <= Collect(Leaves(value)).value
  {
    var pending := if value.List? then value.items else [value];
    var tokens: seq<string> := [];
    InitialLeaves(value);
    while pending != []
      invariant Outcome(tokens, pending) == Collect(Leaves(value))
      invariant |tokens| <= MAX_RECIPIENTS + 1
      decreases Load(pending)
    {
      var item, rest := pending[0], pending[1..];
      assert pending == [item] + rest;
      if item.List? {
        ListStep(tokens, item, rest);
        pending := item.items + rest;
      } else {
        LeafStep(tokens, item, rest);
        pending := rest;
        if item.Missing? || item == Text("") { continue; }
        if !item.Text? { return Err(NotText); }
        if |item.s| > MAX_INPUT { return Err(InputTooLong); }
        tokens := tokens + TokensOf(item.s);
        if |tokens| > MAX_RECIPIENTS + 1 {
          TokensAreKept(tokens, pending);
          return Ok(tokens);
        }
      }
    }
    Finished(tokens);
    r := Ok(tokens);
  }

  lemma InitialLeaves(value: Value)
    ensures Outcome([], if value.List? then value.items else [value]) == Collect(Leaves(value))
  {
    if value.List? {
      PartsOf(value, value.items);
    } else {
      assert [value][1..] == [];
      assert AllLeaves([value]) == Leaves(value) + [] == Leaves(value);
    }
    if Collect(Leaves(value)).Ok? { assert [] + Collect(Leaves(value)).value == Collect(Leaves(value)).value; }
  }

  // ---------------------------------------------------------------- the strict list

  function NormalizeAll(lower: string -> string, tokens: seq<string>): (r: seq<string>)
    ensures |r| == |tokens| && forall i :: 0 <= i < |r| ==> r[i] == Normalize(lower, tokens[i])
  {
    seq(|tokens|, i requires 0 <= i < |tokens| => Normalize(lower, tokens[i]))
  }

  /** [...new Set(list)]: first occurrences, in order. */
  function Unique(list: seq<string>): seq<string> {
    if list == [] then []
    else
      var before, last := Unique(list[..|list| - 1]), list[|list| - 1];
      if last in before then before else before + [last]
  }

  predicate AllValid(addresses: seq<string>) { forall i :: 0 <= i < |addresses| ==> Valid(addresses[i]) }

  /** What a recipient field stands for. */
  function ListOf(lower: string -> string, value: Value): Result<seq<string>> {
    match Collect(Leaves(value))
    case Err(e) => Err(e)
    case Ok(tokens) =>
      if |tokens| > MAX_RECIPIENTS then Err(TooMany)
      else if !AllValid(NormalizeAll(lower, tokens)) then Err(InvalidAddress)
      else Ok(Unique(NormalizeAll(lower, tokens)))
  }

  /** strictRecipientList accepts what the reference accepts, with the same result. */
  method StrictRecipientList(lower: string -> string, value: Value) returns (r: Result<seq<string>>)
    ensures r.Ok? <==> ListOf(lower, value).Ok?
    ensures r.Ok? ==> r == ListOf(lower, value)
  {
    var t := RecipientTokens(value);
    if t.Err? { return Err(t.error); }
    var tokens := t.value;
    if |tokens| > MAX_RECIPIENTS { return Err(TooMany); }
    var addresses := NormalizeAll(lower, tokens);
    if !AllValid(addresses) { return Err(InvalidAddress); }
    return Ok(Unique(addresses));
  }

  lemma {:induction false} UniqueIs(list: seq<string>)
    ensures Distinct(Unique(list)) && |Unique(list)| <= |list|
    ensures forall a :: a in Unique(list) <==> a in list
  {
    if list != [] {
      UniqueIs(list[..|list| - 1]);
      assert forall a :: a in list <==> a in list[..|list| - 1] || a == list[|list| - 1];
    }
  }

  lemma {:induction false} UniqueOfDistinct(list: seq<string>)
    requires Distinct(list)
    ensures Unique(list) == list
  {
    if list != [] {
      var init := list[..|list| - 1];
      UniqueOfDistinct(init);
      assert list == init + [list[|list| - 1]];
    }
  }

  /** A list of addresses as a plan holds it: normalised, valid, each once. */
  predicate Proper(lower: string -> string, list: seq<string>) {
    Distinct(list) && forall a :: a in list ==> Valid(a) && Normalize(lower, a) == a
  }

  lemma ListIsProper(lower: string -> string, value: Value)
    requires IsIdempotent(lower)
    ensures ListOf(lower, value).Ok? ==> Proper(lower, ListOf(lower, value).value) && |ListOf(lower, value).value| <= MAX_RECIPIENTS
  {
    if ListOf(lower, value).Ok? {
      var tokens := Collect(Leaves(value)).value;
      var list := NormalizeAll(lower, tokens);
      UniqueIs(list);
      forall a | a in Unique(list) ensures Valid(a) && Normalize(lower, a) == a {
        var i :| 0 <= i < |list| && list[i] == a;
        NormalizeIsIdempotent(lower, tokens[i]);
      }
    }
  }

  // ---------------------------------------------------------------- whom a field names

  predicate NamedInText(lower: string -> string, s: string, a: string) { exists k :: k in TokensOf(s) && Normalize(lower, k) == a }

  /** Some text, however deeply nested, has a token that is normalised to the address. */
  predicate NamedIn(lower: string -> string, v: Value, a: string)
    decreases v
  {
    match v
    case Text(s) => NamedInText(lower, s, a)
    case List(items) => exists i :: 0 <= i < |items| && NamedIn(lower, items[i], a)
    case _ => false
  }

  predicate NamedInLeaves(lower: string -> string, leaves: seq<Value>, a: string) {
    exists x :: x in leaves && x.Text? && NamedInText(lower, x.s, a)
  }

  lemma {:induction false} NamedInAll(lower: string -> string, v: Value, items: seq<Value>, a: string)
    requires forall i :: 0 <= i < |items| ==> items[i] < v
    ensures NamedInLeaves(lower, LeavesOf(v, items), a) <==> exists i :: 0 <= i < |items| && NamedIn(lower, items[i], a)
    decreases v, |items|
  {
    if items != [] {
      LeavesName(lower, items[0], a);
      NamedInAll(lower, v, items[1..], a);
      assert forall x :: x in LeavesOf(v, items) <==> x in Leaves(items[0]) || x in LeavesOf(v, items[1..]);
      if i :| 0 <= i < |items| && NamedIn(lower, items[i], a) { assert i > 0 ==> items[1..][i - 1] == items[i]; }
      if i :| 0 <= i < |items| - 1 && NamedIn(lower, items[1..][i], a) { assert items[i + 1] == items[1..][i]; }
    }
  }

  lemma {:induction false} LeavesName(lower: string -> string, v: Value, a: string)
    ensures NamedInLeaves(lower, Leaves(v), a) <==> NamedIn(lower, v, a)
    decreases v, if v.List? then |v.items| + 1 else 0
  {
    if v.List? { NamedInAll(lower, v, v.items, a); } else { assert v in Leaves(v); }
  }

  lemma {:induction false} CollectedNames(lower: string -> string, leaves: seq<Value>, a: string)
    requires Collect(leaves).Ok?
    ensures (exists k :: k in Collect(leaves).value && Normalize(lower, k) == a) <==> NamedInLeaves(lower, leaves, a)
  {
    if leaves != [] {
      CollectedNames(lower, leaves[1..], a);
      assert forall x :: x in leaves <==> x == leaves[0] || x in leaves[1..];
      if leaves[0].Text? {
        assert TokensOf("") == [];
        assert forall k :: k in Collect(leaves).value <==> k in TokensOf(leaves[0].s) || k in Collect(leaves[1..]).value;
      }
    }
  }

  /** An accepted list holds exactly the addresses that the field names. */
  lemma ListNames(lower: string -> string, v: Value, a: string)
    requires ListOf(lower, v).Ok?
    ensures a in ListOf(lower, v).value <==> NamedIn(lower, v, a)
  {
    var tokens := Collect(Leaves(v)).value;
    var list := NormalizeAll(lower, tokens);
    UniqueIs(list);
    CollectedNames(lower, Leaves(v), a);
    LeavesName(lower, v, a);
    if k :| k in tokens && Normalize(lower, k) == a {
      var i :| 0 <= i < |tokens| && tokens[i] == k;
      assert list[i] == a;
    }
  }

  /** A value that can be read: text of bounded length, or nothing. */
  predicate Readable(v: Value) { v.Missing? || (v.Text? && |v.s| <= 30_000) }

  lemma {:induction false} CollectOkIff(leaves: seq<Value>)
    ensures Collect(leaves).Ok? <==> forall x :: x in leaves ==> Readable(x)
  {
    if leaves != [] {
      CollectOkIff(leaves[1..]);
      assert leaves == [leaves[0]] + leaves[1..];
      assert (forall x :: x in leaves ==> Readable(x)) <==> Readable(leaves[0]) && forall x :: x in leaves[1..] ==> Readable(x);
    }
  }

  /** A field is accepted if and only if it can be read, has at most 50 tokens, and names valid addresses only. */
  lemma ListAcceptedIff(lower: string -> string, v: Value)
    ensures ListOf(lower, v).Ok? <==>
              && (forall x :: x in Leaves(v) ==> Readable(x))
              && (Collect(Leaves(v)).Ok? ==> |Collect(Leaves(v)).value| <= 50)
              && (forall a :: NamedIn(lower, v, a) ==> Valid(a))
  {
    CollectOkIff(Leaves(v));
    if Collect(Leaves(v)).Ok? {
      var tokens := Collect(Leaves(v)).value;
      var list := NormalizeAll(lower, tokens);
      forall a ensures a in list <==> NamedIn(lower, v, a) {
        CollectedNames(lower, Leaves(v), a);
        LeavesName(lower, v, a);
        if k :| k in tokens && Normalize(lower, k) == a {
          var i :| 0 <= i < |tokens| && tokens[i] == k;
          assert list[i] == a;
        }
      }
      assert AllValid(list) <==> forall a :: a in list ==> Valid(a);
    }
  }

  // ---------------------------------------------------------------- the send plan

  /** list.filter(address => !others.has(address)) */
  function Without(list: seq<string>, others: seq<string>): seq<string> {
    if list == [] then []
    else (if list[0] in others then [] else [list[0]]) + Without(list[1..], others)
  }

  datatype Plan = Plan(to: seq<string>, cc: seq<string>, bcc: seq<string>)

  /** To goes before CC, and both before BCC. */
  function Combine(tos: seq<string>, ccs: seq<string>, bccs: seq<string>, autos: seq<string>): Plan {
    var cc := Without(ccs, tos);
    Plan(tos, cc, Without(Unique(bccs + autos), tos + cc))
  }

  /** From what the four fields stand for; the configured addresses come first, and To before CC before BCC. */
  function PlanOf(tos: Result<seq<string>>, ccs: Result<seq<string>>, bccs: Result<seq<string>>, autos: Result<seq<string>>,
                  required: bool): Result<Plan> {
    if autos.Err? || (required && autos.value == []) then Err(NoAutoBcc)
    else if tos.Err? then Err(tos.error)
    else if ccs.Err? then Err(ccs.error)
    else if bccs.Err? then Err(bccs.error)
    else
      var p := Combine(tos.value, ccs.value, bccs.value, autos.value);
      if tos.value == [] then Err(NoRecipient)
      else if |p.to| + |p.cc| + |p.bcc| > MAX_RECIPIENTS then Err(TooMany)
      else Ok(p)
  }

  /** The recipient part of buildSendPlan; the configured addresses are copied on every message, and may be required. */
  function BuildPlan(lower: string -> string, to: Value, cc: Value, bcc: Value, auto: Value, required: bool): Result<Plan> {
    PlanOf(ListOf(lower, to), ListOf(lower, cc), ListOf(lower, bcc), ListOf(lower, auto), required)
  }

  lemma {:induction false} WithoutIs(list: seq<string>, others: seq<string>)
    ensures forall a :: a in Without(list, others) <==> a in list && a !in others
    ensures Distinct(list) ==> Distinct(Without(list, others))
    ensures |Without(list, others)| <= |list|
  {
    if list != [] {
      WithoutIs(list[1..], others);
      var rest := Without(list[1..], others);
      if Distinct(list) {
        forall j | 0 <= j < |rest| ensures rest[j] != list[0] { assert rest[j] in list[1..]; }
      }
    }
  }

  predicate Disjoint(a: seq<string>, b: seq<string>) { forall x :: x in a ==> x !in b }

  lemma CombineSeparates(lower: string -> string, tos: seq<string>, ccs: seq<string>, bccs: seq<string>, autos: seq<string>)
    requires Proper(lower, tos) && Proper(lower, ccs) && Proper(lower, bccs) && Proper(lower, autos)
    ensures var p := Combine(tos, ccs, bccs, autos);
            Proper(lower, p.cc) && Proper(lower, p.bcc) && Disjoint(p.cc, p.to) && Disjoint(p.bcc, p.to + p.cc)
  {
    WithoutIs(ccs, tos);
    UniqueIs(bccs + autos);
    WithoutIs(Unique(bccs + autos), tos + Without(ccs, tos));
  }

  predicate IsListed(p: Plan, a: string) { a in p.to || a in p.cc || a in p.bcc }

  lemma CombineCovers(tos: seq<string>, ccs: seq<string>, bccs: seq<string>, autos: seq<string>, a: string)
    ensures IsListed(Combine(tos, ccs, bccs, autos), a) <==> a in tos || a in ccs || a in bccs || a in autos
  {
    WithoutIs(ccs, tos);
    UniqueIs(bccs + autos);
    WithoutIs(Unique(bccs + autos), tos + Without(ccs, tos));
  }

  /** Nobody is listed twice, within a list or across lists, and there are at most 50. */
  predicate ListsEachOnce(lower: string -> string, p: Plan) {
    && Proper(lower, p.to) && Proper(lower, p.cc) && Proper(lower, p.bcc)
    && Disjoint(p.cc, p.to) && Disjoint(p.bcc, p.to + p.cc)
    && 1 <= |p.to| && |p.to| + |p.cc| + |p.bcc| <= MAX_RECIPIENTS
  }

  lemma PlanListsEachOnce(lower: string -> string, to: Value, cc: Value, bcc: Value, auto: Value, required: bool)
    requires IsIdempotent(lower)
    ensures BuildPlan(lower, to, cc, bcc, auto, required).Ok? ==> ListsEachOnce(lower, BuildPlan(lower, to, cc, bcc, auto, required).value)
  {
    if BuildPlan(lower, to, cc, bcc, auto, required).Ok? {
      ListIsProper(lower, to); ListIsProper(lower, cc); ListIsProper(lower, bcc); ListIsProper(lower, auto);
      PlanIsCombined(ListOf(lower, to), ListOf(lower, cc), ListOf(lower, bcc), ListOf(lower, auto), required);
      CombineSeparates(lower, ListOf(lower, to).value, ListOf(lower, cc).value, ListOf(lower, bcc).value, ListOf(lower, auto).value);
    }
  }

  /** Everybody asked for, or copied automatically, is listed, and nobody else. */
  lemma PlanCoversRecipients(lower: string -> string, to: Value, cc: Value, bcc: Value, auto: Value, required: bool, a: string)
    ensures BuildPlan(lower, to, cc, bcc, auto, required).Ok? ==>
              && (IsListed(BuildPlan(lower, to, cc, bcc, auto, required).value, a) <==>
                    a in ListOf(lower, to).value || a in ListOf(lower, cc).value || a in ListOf(lower, bcc).value || a in ListOf(lower, auto).value)
              && (required ==> ListOf(lower, auto).value != [])
  {
    if BuildPlan(lower, to, cc, bcc, auto, required).Ok? {
      PlanIsCombined(ListOf(lower, to), ListOf(lower, cc), ListOf(lower, bcc), ListOf(lower, auto), required);
      CombineCovers(ListOf(lower, to).value, ListOf(lower, cc).value, ListOf(lower, bcc).value, ListOf(lower, auto).value, a);
    }
  }

  lemma PlanIsCombined(tos: Result<seq<string>>, ccs: Result<seq<string>>, bccs: Result<seq<string>>, autos: Result<seq<string>>, required: bool)
    requires PlanOf(tos, ccs, bccs, autos, required).Ok?
    ensures tos.Ok? && ccs.Ok? && bccs.Ok? && autos.Ok? && (required ==> autos.value != [])
    ensures var p := PlanOf(tos, ccs, bccs, autos, required).value;
            p == Combine(tos.value, ccs.value, bccs.value, autos.value) && p.to == tos.value
            && 1 <= |p.to| && |p.to| + |p.cc| + |p.bcc| <= MAX_RECIPIENTS
  {
  }

  /** Which list an address is on: To as asked for, CC for those not on To, BCC for those on neither, whether asked for or
      copied automatically.  So nobody whom only BCC or the configuration names is on a list that others see. */
  lemma EachAddressHasItsPlace(lower: string -> string, to: Value, cc: Value, bcc: Value, auto: Value, required: bool, a: string)
    ensures BuildPlan(lower, to, cc, bcc, auto, required).Ok? ==>
              var p := BuildPlan(lower, to, cc, bcc, auto, required).value;
              && p.to == ListOf(lower, to).value
              && (a in p.to <==> NamedIn(lower, to, a))
              && (a in p.cc <==> NamedIn(lower, cc, a) && !NamedIn(lower, to, a))
              && (a in p.bcc <==>
                    (NamedIn(lower, bcc, a) || NamedIn(lower, auto, a)) && !NamedIn(lower, to, a) && !NamedIn(lower, cc, a))
  {
    if BuildPlan(lower, to, cc, bcc, auto, required).Ok? {
      var tos, ccs, bccs, autos := ListOf(lower, to), ListOf(lower, cc), ListOf(lower, bcc), ListOf(lower, auto);
      PlanIsCombined(tos, ccs, bccs, autos, required);
      ListNames(lower, to, a); ListNames(lower, cc, a); ListNames(lower, bcc, a); ListNames(lower, auto, a);
      WithoutIs(ccs.value, tos.value);
      UniqueIs(bccs.value + autos.value);
      WithoutIs(Unique(bccs.value + autos.value), tos.value + Without(ccs.value, tos.value));
    }
  }

  function Everybody(tos: seq<string>, ccs: seq<string>, bccs: seq<string>, autos: seq<string>): set<string> {
    Elements(tos) + Elements(ccs) + Elements(bccs) + Elements(autos)
  }

  lemma CombineCounts(lower: string -> string, tos: seq<string>, ccs: seq<string>, bccs: seq<string>, autos: seq<string>)
    requires Proper(lower, tos) && Proper(lower, ccs) && Proper(lower, bccs) && Proper(lower, autos)
    ensures var p := Combine(tos, ccs, bccs, autos); |p.to| + |p.cc| + |p.bcc| == |Everybody(tos, ccs, bccs, autos)|
  {
    var p := Combine(tos, ccs, bccs, autos);
    CombineSeparates(lower, tos, ccs, bccs, autos);
    forall a ensures IsListed(p, a) <==> a in Everybody(tos, ccs, bccs, autos) { CombineCovers(tos, ccs, bccs, autos, a); }
    var all := p.to + p.cc + p.bcc;
    assert Elements(all) == Everybody(tos, ccs, bccs, autos);
    DisjointIsDistinct(p.to, p.cc);
    DisjointIsDistinct(p.to + p.cc, p.bcc);
    DistinctCount(all);
  }

  lemma DisjointIsDistinct(a: seq<string>, b: seq<string>)
    requires Distinct(a) && Distinct(b) && Disjoint(b, a)
    ensures Distinct(a + b)
  {
    forall i, j | 0 <= i < |a| && 0 <= j < |b| ensures a[i] != b[j] { assert b[j] in b && a[i] in a; }
  }

  lemma PlanOfIff(tos: Result<seq<string>>, ccs: Result<seq<string>>, bccs: Result<seq<string>>, autos: Result<seq<string>>, required: bool)
    ensures PlanOf(tos, ccs, bccs, autos, required).Ok? <==>
              && tos.Ok? && ccs.Ok? && bccs.Ok? && autos.Ok? && tos.value != [] && (required ==> autos.value != [])
              && var p := Combine(tos.value, ccs.value, bccs.value, autos.value); |p.to| + |p.cc| + |p.bcc| <= 50
  {
  }

  /** There is a plan if and only if every field is acceptable by itself, To names somebody, automatic copies are configured
      if they are required, and at most 50 different addresses are named in all. */
  lemma PlanExistsIff(lower: string -> string, to: Value, cc: Value, bcc: Value, auto: Value, required: bool)
    requires IsIdempotent(lower)
    ensures var tos, ccs, bccs, autos := ListOf(lower, to), ListOf(lower, cc), ListOf(lower, bcc), ListOf(lower, auto);
            BuildPlan(lower, to, cc, bcc, auto, required).Ok? <==>
              && tos.Ok? && ccs.Ok? && bccs.Ok? && autos.Ok? && tos.value != [] && (required ==> autos.value != [])
              && |Everybody(tos.value, ccs.value, bccs.value, autos.value)| <= 50
  {
    var tos, ccs, bccs, autos := ListOf(lower, to), ListOf(lower, cc), ListOf(lower, bcc), ListOf(lower, auto);
    PlanOfIff(tos, ccs, bccs, autos, required);
    if tos.Ok? && ccs.Ok? && bccs.Ok? && autos.Ok? {
      ListIsProper(lower, to); ListIsProper(lower, cc); ListIsProper(lower, bcc); ListIsProper(lower, auto);
      CombineCounts(lower, tos.value, ccs.value, bccs.value, autos.value);
    }
  }

  // ---------------------------------------------------------------- the plan of a retry

  function Filtered(list: seq<string>): seq<string> {
    if list == [] then [] else (if Valid(list[0]) then [list[0]] else []) + Filtered(list[1..])
  }

  /** storedAddresses, from the address fields of the stored list. */
  function Stored(lower: string -> string, addresses: seq<string>): seq<string> { Unique(Filtered(NormalizeAll(lower, addresses))) }

  /** The recipient part of storedSendPlan. */
  function StoredPlan(lower: string -> string, to: seq<string>, cc: seq<string>, bcc: seq<string>): Result<Plan> {
    var tos := Stored(lower, to);
    var ccs := Without(Stored(lower, cc), tos);
    var bccs := Without(Stored(lower, bcc), tos + ccs);
    if tos == [] || |tos| + |ccs| + |bccs| > MAX_RECIPIENTS then Err(NoRecipient) else Ok(Plan(tos, ccs, bccs))
  }

  lemma {:induction false} AllValidIsKept(list: seq<string>)
    requires forall a :: a in list ==> Valid(a)
    ensures Filtered(list) == list
  {
    if list != [] {
      assert list[0] in list;
      AllValidIsKept(list[1..]);
      assert [list[0]] + list[1..] == list;
    }
  }

  lemma StoredIsSame(lower: string -> string, list: seq<string>)
    requires Proper(lower, list)
    ensures Stored(lower, list) == list
  {
    forall i | 0 <= i < |list| ensures Normalize(lower, list[i]) == list[i] { assert list[i] in list; }
    assert NormalizeAll(lower, list) == list;
    AllValidIsKept(list);
    UniqueOfDistinct(list);
  }

  lemma {:induction false} DisjointIsKept(list: seq<string>, others: seq<string>)
    requires forall a :: a in list ==> a !in others
    ensures Without(list, others) == list
  {
    if list != [] {
      assert list[0] in list;
      DisjointIsKept(list[1..], others);
      assert [list[0]] + list[1..] == list;
    }
  }

  lemma {:induction false} FilteredIs(list: seq<string>, a: string)
    ensures a in Filtered(list) <==> a in list && Valid(a)
  {
    if list != [] { FilteredIs(list[1..], a); }
  }

  /** What a stored list names: the addresses that are valid once normalised. */
  lemma StoredNames(lower: string -> string, addresses: seq<string>, a: string)
    ensures a in Stored(lower, addresses) <==> Valid(a) && exists s :: s in addresses && Normalize(lower, s) == a
    ensures Distinct(Stored(lower, addresses))
  {
    var all := NormalizeAll(lower, addresses);
    FilteredIs(all, a);
    UniqueIs(Filtered(all));
    if s :| s in addresses && Normalize(lower, s) == a {
      var i :| 0 <= i < |addresses| && addresses[i] == s;
      assert all[i] == a;
    }
  }

  /** Whatever is stored: a retry goes to those that the stored To names, to those that only CC or BCC names, and is refused
      if To names nobody or more than 50 are named. */
  lemma StoredPlanSays(lower: string -> string, to: seq<string>, cc: seq<string>, bcc: seq<string>, a: string)
    ensures var tos, ccs, bccs, r := Stored(lower, to), Stored(lower, cc), Stored(lower, bcc), StoredPlan(lower, to, cc, bcc);
            && (r.Ok? <==> tos != [] && |Elements(tos) + Elements(ccs) + Elements(bccs)| <= 50)
            && (r.Ok? ==>
                  && r.value.to == tos
                  && (a in r.value.cc <==> a in ccs && a !in tos)
                  && (a in r.value.bcc <==> a in bccs && a !in tos && a !in ccs))
  {
    var tos, ccs, bccs := Stored(lower, to), Stored(lower, cc), Stored(lower, bcc);
    StoredNames(lower, to, a); StoredNames(lower, cc, a); StoredNames(lower, bcc, a);
    var cc', bcc' := Without(ccs, tos), Without(bccs, tos + Without(ccs, tos));
    WithoutIs(ccs, tos);
    WithoutIs(bccs, tos + cc');
    DisjointIsDistinct(tos, cc');
    DisjointIsDistinct(tos + cc', bcc');
    DistinctCount(tos + cc' + bcc');
    assert Elements(tos + cc' + bcc') == Elements(tos) + Elements(ccs) + Elements(bccs);
  }

  /** A retry rebuilds exactly the lists of the first attempt. */
  lemma RetryRebuildsPlan(lower: string -> string, to: Value, cc: Value, bcc: Value, auto: Value, required: bool)
    requires IsIdempotent(lower)
    ensures var plan := BuildPlan(lower, to, cc, bcc, auto, required);
            plan.Ok? ==> StoredPlan(lower, plan.value.to, plan.value.cc, plan.value.bcc) == plan
  {
    if BuildPlan(lower, to, cc, bcc, auto, required).Ok? {
      var p := BuildPlan(lower, to, cc, bcc, auto, required).value;
      PlanListsEachOnce(lower, to, cc, bcc, auto, required);
      StoredIsSame(lower, p.to); StoredIsSame(lower, p.cc); StoredIsSame(lower, p.bcc);
      DisjointIsKept(p.cc, p.to);
      DisjointIsKept(p.bcc, p.to + p.cc);
    }
  }
}
