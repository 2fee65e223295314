/**
Email addresses as the Worker normalises and checks them.  `lower` stands for the language's
own toLowerCase, of which nothing is used but that it changes nothing the second time.
*/
module Addresses {
  import opened Options
  import opened Sequences

  const MAX_EMAIL: nat := 320

  /** What String.prototype.trim and \s take for white space. */
  predicate Space(c: char) {
    || c in {' ', '\t', '\n', '\r', '\U{000B}', '\U{000C}', '\U{00A0}', '\U{1680}', '\U{2028}', '\U{2029}'}
    || '\U{2000}' <= c <= '\U{200A}'
    || c in {'\U{202F}', '\U{205F}', '\U{3000}', '\U{FEFF}'}
  }

  function TrimStart(s: string): string { if s != "" && Space(s[0]) then TrimStart(s[1..]) else s }

  function TrimEnd(s: string): string { if s != "" && Space(s[|s| - 1]) then TrimEnd(s[..|s| - 1]) else s }

  function Trim(s: string): string { TrimEnd(TrimStart(s)) }

  /** How many characters stand before the next angle bracket. */
  function PlainRun(s: string): (n: nat)
    ensures n <= |s|
  {
    if s == "" || s[0] == '<' || s[0] == '>' then 0 else 1 + PlainRun(s[1..])
  }

  /** The first group of /<([^<>]+)>/. */
  function Bracketed(s: string): Option<string> {
    if s == "" then None
    else if s[0] == '<' then
      var n := PlainRun(s[1..]);
      if n > 0 && n + 1 < |s| && s[n + 1] == '>' then Some(s[1..n + 1]) else Bracketed(s[1..])
    else Bracketed(s[1..])
  }

  /** normalizeEmail of a string. */
  function Normalize(lower: string -> string, s: string): string {
    var raw := Trim(Take(s, MAX_EMAIL));
    lower(Trim(if Bracketed(raw).Some? then Bracketed(raw).value else raw))
  }

  /** [^\s@<>] */
  predicate AddressChar(c: char) { !Space(c) && c != '@' && c != '<' && c != '>' }

  predicate AllAddressChars(s: string) { forall i :: 0 <= i < |s| ==> AddressChar(s[i]) }

  /** A dot with something on either side. */
  predicate Dotted(domain: string) { exists i :: 0 < i < |domain| - 1 && domain[i] == '.' }

  /** validEmail: /^[^\s@<>]+@[^\s@<>]+\.[^\s@<>]+$/ and not too long. */
  predicate Valid(s: string) {
    && |s| <= MAX_EMAIL
    && exists i :: 0 < i < |s| && s[i] == '@' && AllAddressChars(s[..i]) && AllAddressChars(s[i + 1..]) && Dotted(s[i + 1..])
  }

  // ---------------------------------------------------------------- what these functions find

  predicate AllSpace(s: string) { forall i :: 0 <= i < |s| ==> Space(s[i]) }

  predicate Untrimmed(s: string) { s != "" && (Space(s[0]) || Space(s[|s| - 1])) }

  lemma {:induction false} TrimStartIs(s: string) returns (before: string)
    ensures s == before + TrimStart(s) && AllSpace(before) && (TrimStart(s) != "" ==> !Space(TrimStart(s)[0]))
  {
    if s != "" && Space(s[0]) {
      var more := TrimStartIs(s[1..]);
      before := [s[0]] + more;
      assert s == [s[0]] + s[1..];
    } else {
      before := "";
    }
  }

  lemma {:induction false} TrimEndIs(s: string) returns (after: string)
    ensures s == TrimEnd(s) + after && AllSpace(after) && (TrimEnd(s) != "" ==> !Space(TrimEnd(s)[|TrimEnd(s)| - 1]))
  {
    if s != "" && Space(s[|s| - 1]) {
      var more := TrimEndIs(s[..|s| - 1]);
      after := more + [s[|s| - 1]];
      assert s == s[..|s| - 1] + [s[|s| - 1]];
    } else {
      after := "";
    }
  }

  /** Only white space is taken off, and all of it at either end. */
  lemma TrimIs(s: string)
    ensures exists before, after :: s == before + Trim(s) + after && AllSpace(before) && AllSpace(after)
    ensures !Untrimmed(Trim(s))
  {
    var before := TrimStartIs(s);
    var after := TrimEndIs(TrimStart(s));
    assert s == before + Trim(s) + after;
    if Trim(s) != "" { assert Trim(s)[0] == TrimStart(s)[0]; }
  }

  predicate Plain(s: string) { forall i :: 0 <= i < |s| ==> s[i] != '<' && s[i] != '>' }

  /** The n characters from position i on are a match of the group. */
  predicate Matches(s: string, i: nat, v: string) {
    i + 1 + |v| < |s| && s[i] == '<' && s[i + 1..i + 1 + |v|] == v && s[i + 1 + |v|] == '>' && v != "" && Plain(v)
  }

  lemma {:induction false} PlainRunIs(s: string)
    ensures Plain(s[..PlainRun(s)]) && (PlainRun(s) < |s| ==> s[PlainRun(s)] == '<' || s[PlainRun(s)] == '>')
  {
    if s != "" && s[0] != '<' && s[0] != '>' {
      PlainRunIs(s[1..]);
      assert s[..PlainRun(s)] == [s[0]] + s[1..][..PlainRun(s[1..])];
    }
  }

  lemma MatchIsRun(s: string, v: string)
    requires Matches(s, 0, v)
    ensures PlainRun(s[1..]) == |v|
  {
    PlainRunIs(s[1..]);
    assert forall i :: 0 <= i < |v| ==> s[1..][i] == v[i];
    assert s[1..][|v|] == '>';
  }

  lemma MatchShifts(s: string, i: nat, v: string)
    requires s != ""
    ensures Matches(s, i + 1, v) <==> Matches(s[1..], i, v)
  {
    if i + 2 + |v| < |s| { assert s[i + 2..i + 2 + |v|] == s[1..][i + 1..i + 1 + |v|]; }
  }

  /** The bracketed part is the first one there is. */
  lemma {:induction false} BracketedIsFirst(s: string)
    ensures Bracketed(s).None? ==> forall i, v :: !Matches(s, i, v)
    ensures Bracketed(s).Some? ==> exists i :: Matches(s, i, Bracketed(s).value) && forall j, v :: j < i ==> !Matches(s, j, v)
  {
    if s != "" {
      BracketedIsFirst(s[1..]);
      forall v | Matches(s, 0, v) ensures Bracketed(s) == Some(v) { MatchIsRun(s, v); }
      PlainRunIs(s[1..]);
      var n := PlainRun(s[1..]);
      if s[0] == '<' && n > 0 && n + 1 < |s| && s[n + 1] == '>' {
        assert s[1..n + 1] == s[1..][..n];
        assert Matches(s, 0, s[1..n + 1]);
      } else {
        assert Bracketed(s) == Bracketed(s[1..]);
        forall v ensures !Matches(s, 0, v) { if Matches(s, 0, v) { MatchIsRun(s, v); } }
        forall i: nat, v ensures Matches(s, i + 1, v) <==> Matches(s[1..], i, v) { MatchShifts(s, i, v); }
        if Bracketed(s).Some? {
          var i: nat :| Matches(s[1..], i, Bracketed(s).value) && forall j: nat, v :: j < i ==> !Matches(s[1..], j, v);
          assert Matches(s, i + 1, Bracketed(s).value);
          forall j: nat, v | j < i + 1 ensures !Matches(s, j, v) { if j > 0 { assert !Matches(s[1..], j - 1, v); MatchShifts(s, j - 1, v); } }
        } else {
          forall i: nat, v ensures !Matches(s, i, v) { if i > 0 { assert !Matches(s[1..], i - 1, v); MatchShifts(s, i - 1, v); } }
        }
      }
    }
  }

  /** A local part, an at sign, and a domain with a dot, none of them empty. */
  predicate IsAddress(s: string, user: string, host: string, top: string) {
    && s == user + "@" + host + "." + top && user != "" && host != "" && top != ""
    && AllAddressChars(user) && AllAddressChars(host) && AllAddressChars(top)
  }

  lemma PartsOf(s: string, i: nat, k: nat)
    requires 0 < i < |s| && s[i] == '@' && AllAddressChars(s[..i]) && AllAddressChars(s[i + 1..])
    requires 0 < k < |s| - i - 2 && s[i + 1..][k] == '.'
    ensures IsAddress(s, s[..i], s[i + 1..][..k], s[i + 1..][k + 1..])
  {
    var domain := s[i + 1..];
    CutAt(domain, k);
    CutAt(s, i);
    Regrouped(s[..i], "@", domain[..k], ".", domain[k + 1..]);
    assert [s[i]] == "@" && [domain[k]] == ".";
  }

  lemma ValidHasParts(s: string)
    requires Valid(s)
    ensures exists user, host, top :: IsAddress(s, user, host, top)
  {
    var i :| 0 < i < |s| && s[i] == '@' && AllAddressChars(s[..i]) && AllAddressChars(s[i + 1..]) && Dotted(s[i + 1..]);
    var k :| 0 < k < |s[i + 1..]| - 1 && s[i + 1..][k] == '.';
    PartsOf(s, i, k);
  }

  lemma CutAt(s: string, i: nat)
    requires i < |s|
    ensures s == s[..i] + ([s[i]] + s[i + 1..])
  {
  }

  lemma Regrouped(a: string, b: string, c: string, d: string, e: string)
    ensures a + (b + (c + (d + e))) == a + b + c + d + e
  {
  }

  lemma PartsAreValid(s: string, user: string, host: string, top: string)
    requires IsAddress(s, user, host, top) && |s| <= MAX_EMAIL
    ensures Valid(s)
  {
    var domain := host + "." + top;
    assert s == user + "@" + domain;
    assert s[..|user|] == user && s[|user| + 1..] == domain && domain[|host|] == '.';
    forall i | 0 <= i < |domain| ensures AddressChar(domain[i]) {
      if i > |host| { assert domain[i] == top[i - |host| - 1]; }
    }
  }

  lemma ValidIff(s: string)
    ensures Valid(s) <==> |s| <= 320 && exists user, host, top :: IsAddress(s, user, host, top)
  {
    if Valid(s) {
      ValidHasParts(s);
    }
    if |s| <= 320 {
      forall user, host, top | IsAddress(s, user, host, top) ensures Valid(s) { PartsAreValid(s, user, host, top); }
    }
  }

  // ---------------------------------------------------------------- normalising twice

  predicate Unspaced(s: string) { forall i :: 0 <= i < |s| ==> !Space(s[i]) && s[i] != '<' && s[i] != '>' }

  lemma ValidIsUnspaced(s: string)
    requires Valid(s)
    ensures Unspaced(s)
  {
  }

  lemma {:induction false} UnspacedHasNoBracket(s: string)
    requires Unspaced(s)
    ensures Bracketed(s) == None
  {
    if s != "" { UnspacedHasNoBracket(s[1..]); }
  }

  lemma UnspacedIsTrimmed(s: string)
    requires Unspaced(s)
    ensures Trim(s) == s
  {
  }

  ghost predicate IsIdempotent(lower: string -> string) { forall s :: lower(lower(s)) == lower(s) }

  /** Every accepted address is its own normal form. */
  lemma NormalizeIsIdempotent(lower: string -> string, s: string)
    requires IsIdempotent(lower) && Valid(Normalize(lower, s))
    ensures Normalize(lower, Normalize(lower, s)) == Normalize(lower, s)
  {
    var r := Normalize(lower, s);
    ValidIsUnspaced(r);
    UnspacedHasNoBracket(r);
    UnspacedIsTrimmed(r);
  }
}
