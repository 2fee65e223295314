/** Reading the provider's routing rules page by page, and the mailbox plan they amount to. */
module RoutingRules {
  import opened Options
  import opened Addresses

  datatype Matcher = Matcher(kind: string, field: string, value: string) | NoMatcher

  datatype Action = Action(kind: string, targets: seq<string>) | NoAction

  /** A rule as it was received; an id that is not a string, or absent, is empty. */
  datatype Rule = Rule(id: string, enabled: bool, matchers: seq<Matcher>, actions: seq<Action>)

  // ---------------------------------------------------------------- the paged snapshot

  const MAX_PAGES: nat := 100

  /** One answer of the server; numbers that are no integers are None, items that are no objects are None. */
  datatype Reply =
    | Failure
    | Page(totalPages: Option<int>, page: Option<int>, totalCount: Option<Option<int>>, items: seq<Option<Rule>>)

  type Server = nat -> Reply

  /** The reply claims to be page `page` of `pages`, with an acceptable total if any, and holds rules only. */
  predicate Fits(r: Reply, page: nat, pages: nat) {
    && r.Page? && r.totalPages == Some(pages) && r.page == Some(page)
    && (r.totalCount.Some? ==> r.totalCount.value.Some? && r.totalCount.value.value >= 0)
    && forall i :: 0 <= i < |r.items| ==> r.items[i].Some?
  }

  function Rules(items: seq<Option<Rule>>): seq<Rule> {
    if items == [] then []
    else Rules(items[..|items| - 1]) + if items[|items| - 1].Some? then [items[|items| - 1].value] else []
  }

  /** The rules of pages 1 to n, in order. */
  function Collected(server: Server, n: nat): seq<Rule> {
    if n == 0 then [] else Collected(server, n - 1) + if server(n).Page? then Rules(server(n).items) else []
  }

  predicate DistinctIds(rules: seq<Rule>) {
    forall i, j :: 0 <= i < j < |rules| && rules[i].id != "" ==> rules[i].id != rules[j].id
  }

  predicate SameTotal(server: Server, n: nat, total: Option<int>) {
    forall p :: 1 <= p <= n && server(p).Page? && server(p).totalCount.Some? ==> total.Some? && server(p).totalCount == Some(total)
  }

  predicate TotalIsReported(server: Server, n: nat, total: Option<int>) {
    total.Some? ==> exists p :: 1 <= p <= n && server(p).Page? && server(p).totalCount == Some(total)
  }

  /** The first n of `pages` pages are those of one snapshot. */
  predicate Consistent(server: Server, n: nat, pages: nat, total: Option<int>) {
    && (forall p :: 1 <= p <= n ==> Fits(server(p), p, pages))
    && SameTotal(server, n, total) && TotalIsReported(server, n, total)
    && DistinctIds(Collected(server, n))
  }

  /** What a complete snapshot is. */
  ghost predicate Snapshot(server: Server, pages: nat, rules: seq<Rule>) {
    && 1 <= pages <= MAX_PAGES && rules == Collected(server, pages)
    && exists total :: Consistent(server, pages, pages, total) && (total.Some? ==> |rules| == total.value)
  }

  function Ids(rules: seq<Rule>): set<string> { set r | r in rules && r.id != "" :: r.id }

  lemma {:induction false} IdsMore(rules: seq<Rule>, r: Rule)
    requires DistinctIds(rules)
    ensures Ids(rules + [r]) == Ids(rules) + if r.id == "" then {} else {r.id}
    ensures DistinctIds(rules + [r]) <==> r.id == "" || r.id !in Ids(rules)
  {
    var more := rules + [r];
    assert more[|rules|] == r;
    if r.id != "" && r.id in Ids(rules) {
      var q :| q in rules && q.id == r.id;
      var i :| 0 <= i < |rules| && rules[i] == q;
      assert more[i].id == more[|rules|].id;
    } else {
      forall i, j | 0 <= i < j < |more| && more[i].id != "" ensures more[i].id != more[j].id {
        if j == |rules| { assert rules[i] in rules; }
      }
    }
    assert forall q :: q in more <==> q in rules || q == r;
  }

  /** A longer list with a repeated id at the front is no better. */
  lemma PrefixIsDistinct(a: seq<Rule>, b: seq<Rule>)
    requires DistinctIds(a + b)
    ensures DistinctIds(a)
  {
    forall i, j | 0 <= i < j < |a| && a[i].id != "" ensures a[i].id != a[j].id {
      assert (a + b)[i] == a[i] && (a + b)[j] == a[j];
    }
  }

  /** The loop over one page's items. */
  method AddItems(before: seq<Rule>, items: seq<Option<Rule>>) returns (ok: bool, rules: seq<Rule>)
    requires DistinctIds(before)
    ensures ok <==> (forall i :: 0 <= i < |items| ==> items[i].Some?) && DistinctIds(before + Rules(items))
    ensures ok ==> rules == before + Rules(items)
  {
    rules := before;
    var seen := Ids(before);
    for i := 0 to |items|
      invariant forall j :: 0 <= j < i ==> items[j].Some?
      invariant rules == before + Rules(items[..i]) && DistinctIds(rules) && seen == Ids(rules)
    {
      RulesMore(items, i);
      if items[i].None? { return false, rules; }
      var r := items[i].value;
      IdsMore(rules, r);
      assert before + Rules(items[..i + 1]) == rules + [r];
      if r.id != "" && r.id in seen {
        RepeatedIdStays(before, items, i);
        return false, rules;
      }
      if r.id != "" { seen := seen + {r.id}; }
      rules := rules + [r];
    }
    assert items[..|items|] == items;
    ok := true;
  }

  lemma RulesMore(items: seq<Option<Rule>>, i: nat)
    requires i < |items|
    ensures Rules(items[..i + 1]) == Rules(items[..i]) + if items[i].Some? then [items[i].value] else []
  {
    assert items[..i + 1][..i] == items[..i];
  }

  lemma {:induction false} RulesPrefix(items: seq<Option<Rule>>, i: nat)
    requires i <= |items|
    ensures Rules(items[..i]) <= Rules(items)
  {
    if i < |items| {
      var init := items[..|items| - 1];
      assert init[..i] == items[..i];
      RulesPrefix(init, i);
    } else {
      assert items[..i] == items;
    }
  }

  lemma RepeatedIdStays(before: seq<Rule>, items: seq<Option<Rule>>, i: nat)
    requires i < |items| && !DistinctIds(before + Rules(items[..i + 1]))
    ensures !DistinctIds(before + Rules(items))
  {
    RulesPrefix(items, i + 1);
    LongerIsNoBetter(before, Rules(items[..i + 1]), Rules(items));
  }

  lemma LongerIsNoBetter(before: seq<Rule>, head: seq<Rule>, all: seq<Rule>)
    requires head <= all && !DistinctIds(before + head)
    ensures !DistinctIds(before + all)
  {
    var tail := all[|head|..];
    assert before + all == before + head + tail;
    if DistinctIds(before + head + tail) { PrefixIsDistinct(before + head, tail); }
  }

  // ---------------------------------------------------------------- page after page

  /** The numbers of a reply: a sensible count of pages, this page, and no conflict with what was reported before. */
  predicate HeadOk(r: Reply, p: nat, pages: nat, total: Option<int>) {
    && r.Page? && r.totalPages.Some? && 1 <= r.totalPages.value <= MAX_PAGES && r.page == Some(p)
    && (p > 1 ==> r.totalPages == Some(pages))
    && (r.totalCount.Some? ==>
          r.totalCount.value.Some? && r.totalCount.value.value >= 0 && (total.Some? ==> r.totalCount.value == total))
  }

  /** What the loop accepts as the p-th page, `pages` and `total` being what earlier pages reported. */
  predicate PageOk(server: Server, p: nat, pages: nat, total: Option<int>)
    requires p >= 1
  {
    && HeadOk(server(p), p, pages, total)
    && (forall i :: 0 <= i < |server(p).items| ==> server(p).items[i].Some?)
    && DistinctIds(Collected(server, p))
  }

  /** The loop's state before page p. */
  predicate Reached(server: Server, p: nat, pages: nat, total: Option<int>) {
    p >= 1 && (p > 1 ==> p <= pages) && Consistent(server, p - 1, pages, total)
  }

  lemma AcceptPage(server: Server, p: nat, pages: nat, total: Option<int>)
    requires Reached(server, p, pages, total) && PageOk(server, p, pages, total)
    ensures Consistent(server, p, server(p).totalPages.value, if server(p).totalCount.Some? then server(p).totalCount.value else total)
  {
  }

  lemma {:induction false} CollectedPrefix(server: Server, p: nat, n: nat)
    requires p <= n
    ensures Collected(server, p) <= Collected(server, n)
  {
    if p < n { CollectedPrefix(server, p, n - 1); }
  }

  lemma DistinctUpTo(server: Server, p: nat, n: nat)
    requires p <= n && DistinctIds(Collected(server, n))
    ensures DistinctIds(Collected(server, p))
  {
    CollectedPrefix(server, p, n);
    var head, all := Collected(server, p), Collected(server, n);
    assert all == head + all[|head|..];
    PrefixIsDistinct(head, all[|head|..]);
  }

  /** If there is a snapshot at all, the loop accepts its every page. */
  lemma SnapshotPagesAreOk(server: Server, p: nat, pages: nat, total: Option<int>, n: nat, rules: seq<Rule>)
    requires Reached(server, p, pages, total) && Snapshot(server, n, rules)
    ensures p <= n && PageOk(server, p, pages, total)
  {
    var t :| Consistent(server, n, n, t) && (t.Some? ==> |rules| == t.value);
    if p > 1 {
      assert Fits(server(1), 1, pages) && Fits(server(1), 1, n);
    }
    assert Fits(server(p), p, n);
    DistinctUpTo(server, p, n);
    if total.Some? {
      var q :| 1 <= q <= p - 1 && server(q).Page? && server(q).totalCount == Some(total);
      assert server(q).totalCount == Some(t);
    }
  }

  /** So a page that is not accepted shows that there is none. */
  lemma BadPageRefutes(server: Server, p: nat, pages: nat, total: Option<int>)
    requires Reached(server, p, pages, total) && !PageOk(server, p, pages, total)
    ensures forall n, rules :: !Snapshot(server, n, rules)
  {
    forall n, rules ensures !Snapshot(server, n, rules) {
      if Snapshot(server, n, rules) { SnapshotPagesAreOk(server, p, pages, total, n, rules); }
    }
  }

  lemma BadTotalRefutes(server: Server, pages: nat, total: Option<int>)
    requires pages >= 1 && Consistent(server, pages, pages, total) && total.Some? && |Collected(server, pages)| != total.value
    ensures forall n, rules :: !Snapshot(server, n, rules)
  {
  }

  datatype Fetched = Complete(rules: seq<Rule>) | Refused

  /** One round of the loop: the page is accepted, or there is no snapshot to be had. */
  method ReadPage(server: Server, page: nat, pages: nat, total: Option<int>, rules: seq<Rule>)
    returns (ok: bool, more: seq<Rule>, pages': nat, total': Option<int>)
    requires Reached(server, page, pages, total) && rules == Collected(server, page - 1)
    ensures ok ==> Consistent(server, page, pages', total') && more == Collected(server, page)
                   && 1 <= pages' <= MAX_PAGES && (page > 1 ==> pages' == pages)
    ensures !ok ==> forall n, rs :: !Snapshot(server, n, rs)
  {
    ok, more, pages', total' := false, rules, pages, total;
    var reply := server(page);
    if HeadOk(reply, page, pages, total) {
      ok, more := AddItems(rules, reply.items);
    }
    if !ok {
      BadPageRefutes(server, page, pages, total);
      return;
    }
    AcceptPage(server, page, pages, total);
    pages' := reply.totalPages.value;
    if reply.totalCount.Some? { total' := reply.totalCount.value; }
  }

  /** fetchAllRoutingRules, against any server whatever: at most 100 requests, and a result exactly when the pages form
      one consistent snapshot. */
  method FetchAllRoutingRules(server: Server) returns (r: Fetched, requests: nat)
    ensures requests <= MAX_PAGES
    ensures r.Complete? ==> Snapshot(server, requests, r.rules)
    ensures r.Refused? ==> forall pages, rules :: !Snapshot(server, pages, rules)
  {
    var rules: seq<Rule> := [];
    var expectedPages: nat := 0;
    var expectedTotal: Option<int> := None;
    var page := 1;
    while page <= (if expectedPages == 0 then 1 else expectedPages)
      invariant page >= 1 && (expectedPages == 0 <==> page == 1) && expectedPages <= MAX_PAGES
      invariant page > 1 ==> page <= expectedPages + 1
      invariant Consistent(server, page - 1, expectedPages, expectedTotal) && rules == Collected(server, page - 1)
      decreases (if expectedPages == 0 then MAX_PAGES else expectedPages) + 1 - page
    {
      requests := page;
      var ok;
      ok, rules, expectedPages, expectedTotal := ReadPage(server, page, expectedPages, expectedTotal, rules);
      if !ok { return Refused, requests; }
      page := page + 1;
    }
    requests := expectedPages;
    if expectedTotal.Some? && |rules| != expectedTotal.value {
      BadTotalRefutes(server, expectedPages, expectedTotal);
      return Refused, requests;
    }
    r := Complete(rules);
  }

  // ---------------------------------------------------------------- the plan

  /** The rule's address, if it is an enabled rule for exactly one literal address of the domain; else empty. */
  function LiteralAddress(lower: string -> string, rule: Rule, domain: string): string {
    if !rule.enabled || |rule.matchers| != 1 then ""
    else
      match rule.matchers[0]
      case NoMatcher => ""
      case Matcher(kind, field, value) =>
        if kind != "literal" || field != "to" then ""
        else
          var address := Normalize(lower, value);
          var suffix := "@" + domain;
          if |address| <= |suffix| || address[|address| - |suffix|..] != suffix
             || (exists i :: 0 <= i < |address| - |suffix| && Space(address[i])) then ""
          else address
  }

  predicate RoutesTo(rule: Rule, worker: string) {
    && |rule.actions| == 1 && rule.actions[0].Action?
    && rule.actions[0].kind == "worker" && rule.actions[0].targets == [worker]
  }

  /** Some rule is about this address. */
  predicate Planned(lower: string -> string, rules: seq<Rule>, domain: string, address: string) {
    address != "" && exists r :: r in rules && LiteralAddress(lower, r, domain) == address
  }

  /** Some rule for this address leads to the Worker. */
  predicate Receives(lower: string -> string, rules: seq<Rule>, domain: string, worker: string, address: string) {
    exists r :: r in rules && LiteralAddress(lower, r, domain) == address && RoutesTo(r, worker)
  }

  /** What the plan says about one address. */
  predicate IsPlanAt(lower: string -> string, plan: map<string, bool>, rules: seq<Rule>, domain: string, worker: string, a: string) {
    && (a in plan <==> Planned(lower, rules, domain, a))
    && (a in plan ==> (plan[a] <==> Receives(lower, rules, domain, worker, a)))
  }

  /** The plan: which addresses, and which of them receive. */
  ghost predicate IsPlan(lower: string -> string, plan: map<string, bool>, rules: seq<Rule>, domain: string, worker: string) {
    forall a :: IsPlanAt(lower, plan, rules, domain, worker, a)
  }

  /** The map fold of deriveRoutingMailboxPlan. */
  method DerivePlan(lower: string -> string, rules: seq<Rule>, domain: string, worker: string) returns (plan: map<string, bool>)
    ensures IsPlan(lower, plan, rules, domain, worker)
  {
    plan := map[];
    for i := 0 to |rules|
      invariant IsPlan(lower, plan, rules[..i], domain, worker)
    {
      var address := LiteralAddress(lower, rules[i], domain);
      assert rules[..i + 1] == rules[..i] + [rules[i]];
      PlanMore(lower, plan, rules[..i], rules[i], domain, worker);
      if address == "" { continue; }
      var receives := if address in plan then plan[address] else false;
      plan := plan[address := receives || RoutesTo(rules[i], worker)];
    }
    assert rules[..|rules|] == rules;
  }

  /** An enabled rule whose one matcher names the literal recipient `value`. */
  predicate NamesLiteral(r: Rule, value: string) {
    r.enabled && r.matchers == [Matcher("literal", "to", value)]
  }

  /** A non-empty local part without white space, and the domain. */
  ghost predicate IsOf(a: string, domain: string) {
    exists user :: a == user + ("@" + domain) && user != "" && forall i :: 0 <= i < |user| ==> !Space(user[i])
  }

  /** The rule's only action sends to the Worker, and to it alone. */
  predicate SendsTo(r: Rule, worker: string) { r.actions == [Action("worker", [worker])] }

  /** The rule is about the address. */
  ghost predicate IsAbout(lower: string -> string, r: Rule, domain: string, a: string) {
    IsOf(a, domain) && exists value :: NamesLiteral(r, value) && Normalize(lower, value) == a
  }

  lemma LiteralIff(lower: string -> string, r: Rule, domain: string, a: string)
    ensures IsAbout(lower, r, domain, a) <==> a != "" && LiteralAddress(lower, r, domain) == a
  {
    var suffix := "@" + domain;
    if IsOf(a, domain) {
      var user :| a == user + suffix && user != "" && forall i :: 0 <= i < |user| ==> !Space(user[i]);
      assert a[|a| - |suffix|..] == suffix;
      assert forall i :: 0 <= i < |user| ==> a[i] == user[i];
    }
    if a != "" && LiteralAddress(lower, r, domain) == a {
      var n := |a| - |suffix|;
      assert a == a[..n] + suffix;
      assert r.matchers == [r.matchers[0]];
      assert NamesLiteral(r, r.matchers[0].value);
    }
  }

  /** The plan in terms of the rules' fields: an address of the domain is planned if and only if an enabled rule matches it
      literally as the recipient, and it receives if and only if such a rule sends to the Worker and nowhere else. */
  lemma PlanSays(lower: string -> string, plan: map<string, bool>, rules: seq<Rule>, domain: string, worker: string, a: string)
    requires IsPlan(lower, plan, rules, domain, worker)
    ensures a in plan <==> exists r :: r in rules && IsAbout(lower, r, domain, a)
    ensures a in plan ==> (plan[a] <==> exists r :: r in rules && IsAbout(lower, r, domain, a) && SendsTo(r, worker))
  {
    assert IsPlanAt(lower, plan, rules, domain, worker, a);
    forall r ensures IsAbout(lower, r, domain, a) <==> a != "" && LiteralAddress(lower, r, domain) == a { LiteralIff(lower, r, domain, a); }
    forall r ensures SendsTo(r, worker) <==> RoutesTo(r, worker) { if RoutesTo(r, worker) { assert r.actions == [r.actions[0]]; } }
  }

  lemma MoreRules(lower: string -> string, rules: seq<Rule>, r: Rule, domain: string, worker: string, a: string)
    ensures Planned(lower, rules + [r], domain, a)
            <==> Planned(lower, rules, domain, a) || (a != "" && LiteralAddress(lower, r, domain) == a)
    ensures Receives(lower, rules + [r], domain, worker, a)
            <==> Receives(lower, rules, domain, worker, a) || (LiteralAddress(lower, r, domain) == a && RoutesTo(r, worker))
  {
  }

  /** One turn of the fold. */
  function WithRule(lower: string -> string, plan: map<string, bool>, r: Rule, domain: string, worker: string): map<string, bool> {
    var a := LiteralAddress(lower, r, domain);
    if a == "" then plan else plan[a := (a in plan && plan[a]) || RoutesTo(r, worker)]
  }

  lemma PlanMoreAt(lower: string -> string, plan: map<string, bool>, rules: seq<Rule>, r: Rule, domain: string, worker: string, a: string)
    requires IsPlanAt(lower, plan, rules, domain, worker, a)
    ensures IsPlanAt(lower, WithRule(lower, plan, r, domain, worker), rules + [r], domain, worker, a)
  {
    MoreRules(lower, rules, r, domain, worker, a);
    if a != "" && a !in plan && Receives(lower, rules, domain, worker, a) { ReceivesIsPlanned(lower, rules, domain, worker, a); }
  }

  lemma PlanMore(lower: string -> string, plan: map<string, bool>, rules: seq<Rule>, r: Rule, domain: string, worker: string)
    requires IsPlan(lower, plan, rules, domain, worker)
    ensures IsPlan(lower, WithRule(lower, plan, r, domain, worker), rules + [r], domain, worker)
  {
    var plan', more := WithRule(lower, plan, r, domain, worker), rules + [r];
    forall a ensures IsPlanAt(lower, plan', more, domain, worker, a) { PlanMoreAt(lower, plan, rules, r, domain, worker, a); }
  }

  lemma ReceivesIsPlanned(lower: string -> string, rules: seq<Rule>, domain: string, worker: string, a: string)
    requires Receives(lower, rules, domain, worker, a) && a != ""
    ensures Planned(lower, rules, domain, a)
  {
  }

  /** The order of the rules, and their multiplicity, do not matter. */
  lemma PlanIgnoresOrder(lower: string -> string, a: seq<Rule>, b: seq<Rule>, domain: string, worker: string,
                         p: map<string, bool>, q: map<string, bool>)
    requires (forall r :: r in a <==> r in b) && IsPlan(lower, p, a, domain, worker) && IsPlan(lower, q, b, domain, worker)
    ensures p == q
  {
    forall x ensures (x in p <==> x in q) && (x in p ==> p[x] == q[x]) {
      assert IsPlanAt(lower, p, a, domain, worker, x) && IsPlanAt(lower, q, b, domain, worker, x);
    }
  }
}
