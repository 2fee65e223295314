/** Bringing the mailbox table in line with the routing plan, in one atomic batch. */
module RoutingApply {
  import opened Options

  datatype Box = Box(address: string, canReceive: bool, canSend: bool, active: bool, managed: bool, updated: nat)

  type Boxes = map<string, Box>

  /** How addresses are normalised (normalizeEmail), compared by the UNIQUE index (NOCASE), and turned into ids
      (stableMailboxId), and the clock reading of the run. */
  datatype Setting = Setting(norm: string -> string, fold: string -> string, newId: string -> string, now: nat)

  datatype Statement = Update(id: string, canReceive: bool) | Insert(id: string, address: string, canReceive: bool) | Deactivate(id: string)

  function Planned(b: Box, canReceive: bool, now: nat): Box { Box(b.address, canReceive, true, true, true, now) }

  function Fresh(address: string, canReceive: bool, now: nat): Box { Box(address, canReceive, true, true, true, now) }

  function Deactivated(b: Box, now: nat): Box { Box(b.address, false, false, false, b.managed, now) }

  // ---------------------------------------------------------------- the database

  /** Some row has this address, without regard to case. */
  predicate Taken(c: Setting, boxes: Boxes, address: string) {
    exists j :: j in boxes && c.fold(boxes[j].address) == c.fold(address)
  }

  /** One statement; None if a UNIQUE constraint is violated. */
  function Exec(c: Setting, boxes: Boxes, st: Statement): Option<Boxes> {
    match st
    case Update(id, canReceive) => Some(if id in boxes then boxes[id := Planned(boxes[id], canReceive, c.now)] else boxes)
    case Insert(id, address, canReceive) =>
      if id in boxes || Taken(c, boxes, address) then None else Some(boxes[id := Fresh(address, canReceive, c.now)])
    case Deactivate(id) =>
      Some(if id in boxes && boxes[id].managed then boxes[id := Deactivated(boxes[id], c.now)] else boxes)
  }

  function ExecAll(c: Setting, boxes: Boxes, sts: seq<Statement>): Option<Boxes> {
    if sts == [] then Some(boxes)
    else
      match ExecAll(c, boxes, sts[..|sts| - 1])
      case None => None
      case Some(b) => Exec(c, b, sts[|sts| - 1])
  }

  lemma ExecMore(c: Setting, boxes: Boxes, sts: seq<Statement>, st: Statement)
    ensures var before := ExecAll(c, boxes, sts);
            ExecAll(c, boxes, sts + [st]) == if before.None? then None else Exec(c, before.value, st)
  {
  }

  // ---------------------------------------------------------------- what the plan asks for

  function KeyOf(c: Setting, b: Box): string { c.norm(b.address) }

  /** Every row has an address, and no two rows have the same. */
  predicate Keyed(c: Setting, boxes: Boxes) {
    && (forall id :: id in boxes ==> KeyOf(c, boxes[id]) != "")
    && (forall i, j :: i in boxes && j in boxes && KeyOf(c, boxes[i]) == KeyOf(c, boxes[j]) ==> i == j)
  }

  predicate Present(c: Setting, boxes: Boxes, a: string) { exists id :: id in boxes && KeyOf(c, boxes[id]) == a }

  /** The row ids by address, as the map built from the rows has them: an address that several rows have is mapped to one
      of them, and rows without an address are left out. */
  ghost predicate Indexes(c: Setting, index: map<string, string>, boxes: Boxes) {
    && (forall a :: a in index <==> a != "" && Present(c, boxes, a))
    && (forall a :: a in index ==> index[a] in boxes && KeyOf(c, boxes[index[a]]) == a)
  }

  type Index = map<string, string>

  /** The row that the run takes for its address. */
  predicate Chosen(c: Setting, was: Boxes, index: Index, id: string) {
    id in was && KeyOf(c, was[id]) in index && index[KeyOf(c, was[id])] == id
  }

  /** In a table with one row per address every row is. */
  lemma KeyedIsChosen(c: Setting, was: Boxes, index: Index, id: string)
    requires Keyed(c, was) && Indexes(c, index, was) && id in was
    ensures Chosen(c, was, index, id)
  {
    assert Present(c, was, KeyOf(c, was[id]));
  }

  /** After the statements for the addresses in `done`: the chosen rows there are as planned, others untouched, missing ones
      added under their stable ids. */
  ghost predicate PlanDone(c: Setting, was: Boxes, boxes: Boxes, plan: map<string, bool>, index: Index, done: set<string>) {
    && was.Keys <= boxes.Keys && done <= plan.Keys
    && (forall id :: id in was ==>
          boxes[id] == var a := KeyOf(c, was[id]); if a in done && Chosen(c, was, index, id) then Planned(was[id], plan[a], c.now) else was[id])
    && (forall id :: id in boxes && id !in was ==> Added(c, was, boxes, plan, done, id))
    && (forall a :: a in done && !Present(c, was, a) ==> c.newId(a) in boxes && c.newId(a) !in was && boxes[c.newId(a)] == Fresh(a, plan[a], c.now))
  }

  ghost predicate Added(c: Setting, was: Boxes, boxes: Boxes, plan: map<string, bool>, done: set<string>, id: string)
    requires id in boxes && done <= plan.Keys
  {
    exists a :: a in done && !Present(c, was, a) && id == c.newId(a) && boxes[id] == Fresh(a, plan[a], c.now)
  }

  lemma UpdateStep(c: Setting, was: Boxes, boxes: Boxes, plan: map<string, bool>, index: Index, done: set<string>, id: string)
    requires PlanDone(c, was, boxes, plan, index, done) && Chosen(c, was, index, id)
    requires var a := KeyOf(c, was[id]); a in plan && a !in done
    ensures var a := KeyOf(c, was[id]); PlanDone(c, was, Exec(c, boxes, Update(id, plan[a])).value, plan, index, done + {a})
  {
    var a := KeyOf(c, was[id]);
    var boxes' := boxes[id := Planned(boxes[id], plan[a], c.now)];
    assert Present(c, was, a);
    forall i | i in boxes' && i !in was ensures Added(c, was, boxes', plan, done + {a}, i) {
      assert Added(c, was, boxes, plan, done, i);
    }
  }

  lemma InsertStep(c: Setting, was: Boxes, boxes: Boxes, plan: map<string, bool>, index: Index, done: set<string>, a: string)
    requires PlanDone(c, was, boxes, plan, index, done) && !Present(c, was, a) && a in plan && a !in done
    requires c.newId(a) !in boxes
    ensures PlanDone(c, was, boxes[c.newId(a) := Fresh(a, plan[a], c.now)], plan, index, done + {a})
  {
    var boxes' := boxes[c.newId(a) := Fresh(a, plan[a], c.now)];
    forall i | i in boxes' && i !in was ensures Added(c, was, boxes', plan, done + {a}, i) {
      if i in boxes { assert Added(c, was, boxes, plan, done, i); }
    }
  }

  /** A managed row with an address that is off the plan. */
  predicate IsOffPlan(c: Setting, b: Box, plan: map<string, bool>) { b.managed && KeyOf(c, b) != "" && KeyOf(c, b) !in plan }

  function RowAfter(c: Setting, was: Boxes, plan: map<string, bool>, index: Index, seen: set<string>, id: string): Box
    requires id in was
  {
    var a := KeyOf(c, was[id]);
    if a in plan && Chosen(c, was, index, id) then Planned(was[id], plan[a], c.now)
    else if id in seen && IsOffPlan(c, was[id], plan) then Deactivated(was[id], c.now)
    else was[id]
  }

  /** After the deactivations too: of the rows in `seen`, the managed ones off the plan are inactive. */
  ghost predicate AllDone(c: Setting, was: Boxes, boxes: Boxes, plan: map<string, bool>, index: Index, seen: set<string>) {
    && was.Keys <= boxes.Keys
    && (forall id :: id in was ==>
          boxes[id] == RowAfter(c, was, plan, index, seen, id))
    && (forall id :: id in boxes && id !in was ==> Added(c, was, boxes, plan, plan.Keys, id))
    && (forall a :: a in plan && !Present(c, was, a) ==> c.newId(a) in boxes && c.newId(a) !in was && boxes[c.newId(a)] == Fresh(a, plan[a], c.now))
  }

  lemma DeactivateStep(c: Setting, was: Boxes, boxes: Boxes, plan: map<string, bool>, index: Index, seen: set<string>, id: string)
    requires AllDone(c, was, boxes, plan, index, seen) && id in was && id !in seen
    ensures AllDone(c, was, if IsOffPlan(c, was[id], plan) then Exec(c, boxes, Deactivate(id)).value else boxes, plan, index, seen + {id})
  {
    if IsOffPlan(c, was[id], plan) { DeactivateOne(c, was, boxes, plan, index, seen, id); }
  }

  lemma DeactivateOne(c: Setting, was: Boxes, boxes: Boxes, plan: map<string, bool>, index: Index, seen: set<string>, id: string)
    requires AllDone(c, was, boxes, plan, index, seen) && id in was && id !in seen && IsOffPlan(c, was[id], plan)
    ensures AllDone(c, was, boxes[id := Deactivated(boxes[id], c.now)], plan, index, seen + {id})
  {
    var boxes' := boxes[id := Deactivated(boxes[id], c.now)];
    forall i | i in boxes' && i !in was ensures Added(c, was, boxes', plan, plan.Keys, i) {
      assert Added(c, was, boxes, plan, plan.Keys, i);
    }
    forall i | i in was ensures boxes'[i] == RowAfter(c, was, plan, index, seen + {id}, i) {
      assert boxes[i] == RowAfter(c, was, plan, index, seen, i);
    }
  }

  // ---------------------------------------------------------------- what holds afterwards

  /** The active managed mailboxes are, as a map from address to receive flag, exactly the plan, and all may send. */
  ghost predicate Matches(c: Setting, boxes: Boxes, plan: map<string, bool>) {
    && (forall id :: id in boxes && boxes[id].active && boxes[id].managed ==>
          var a := KeyOf(c, boxes[id]); a in plan && plan[a] == boxes[id].canReceive && boxes[id].canSend)
    && (forall a :: a in plan ==> exists id :: id in boxes && boxes[id].active && boxes[id].managed && KeyOf(c, boxes[id]) == a)
  }

  /** The plan's addresses are normalised and not empty. */
  ghost predicate Proper(c: Setting, plan: map<string, bool>) { forall a :: a in plan ==> a != "" && c.norm(a) == a }

  /** A row that the run does not reach: it has no address, or another row was taken for its address. */
  predicate Unreached(c: Setting, was: Boxes, plan: map<string, bool>, index: Index, id: string) {
    id in was && (KeyOf(c, was[id]) == "" || (KeyOf(c, was[id]) in plan && !Chosen(c, was, index, id)))
  }

  /** The row is active and managed, but not as the plan has it. */
  predicate Contradicts(c: Setting, b: Box, plan: map<string, bool>) {
    b.active && b.managed && !(KeyOf(c, b) in plan && plan[KeyOf(c, b)] == b.canReceive && b.canSend)
  }

  lemma ContradictionsStay(c: Setting, was: Boxes, boxes: Boxes, plan: map<string, bool>, index: Index, id: string)
    requires Indexes(c, index, was) && Proper(c, plan) && AllDone(c, was, boxes, plan, index, was.Keys) && id in boxes
    ensures Contradicts(c, boxes[id], plan) <==> Unreached(c, was, plan, index, id) && Contradicts(c, was[id], plan)
  {
    if id !in was { assert Added(c, was, boxes, plan, plan.Keys, id); }
  }

  predicate Covered(c: Setting, boxes: Boxes, a: string) {
    exists id :: id in boxes && boxes[id].active && boxes[id].managed && KeyOf(c, boxes[id]) == a
  }

  lemma PlanIsCovered(c: Setting, was: Boxes, boxes: Boxes, plan: map<string, bool>, index: Index, a: string)
    requires Indexes(c, index, was) && Proper(c, plan) && AllDone(c, was, boxes, plan, index, was.Keys) && a in plan
    ensures Covered(c, boxes, a)
  {
    if Present(c, was, a) {
      assert Chosen(c, was, index, index[a]);
      assert boxes[index[a]] == Planned(was[index[a]], plan[a], c.now);
    } else {
      assert boxes[c.newId(a)] == Fresh(a, plan[a], c.now);
    }
  }

  /** The committed table matches the plan if and only if no row that the run does not reach contradicts it. */
  lemma DoneMatchesIff(c: Setting, was: Boxes, boxes: Boxes, plan: map<string, bool>, index: Index)
    requires Indexes(c, index, was) && Proper(c, plan) && AllDone(c, was, boxes, plan, index, was.Keys)
    ensures Matches(c, boxes, plan) <==> forall id :: Unreached(c, was, plan, index, id) ==> !Contradicts(c, was[id], plan)
  {
    forall a | a in plan ensures Covered(c, boxes, a) { PlanIsCovered(c, was, boxes, plan, index, a); }
    MatchesIff(c, boxes, plan);
    if Matches(c, boxes, plan) {
      forall id | Unreached(c, was, plan, index, id) ensures !Contradicts(c, was[id], plan) {
        ContradictionsStay(c, was, boxes, plan, index, id);
      }
    } else {
      var id :| id in boxes && Contradicts(c, boxes[id], plan);
      ContradictionsStay(c, was, boxes, plan, index, id);
    }
  }

  lemma MatchesIff(c: Setting, boxes: Boxes, plan: map<string, bool>)
    requires forall a :: a in plan ==> Covered(c, boxes, a)
    ensures Matches(c, boxes, plan) <==> forall id :: id in boxes ==> !Contradicts(c, boxes[id], plan)
  {
  }

  /** So it always does if the table had one row for each address. */
  lemma DoneMatches(c: Setting, was: Boxes, boxes: Boxes, plan: map<string, bool>, index: Index)
    requires Keyed(c, was) && Indexes(c, index, was) && Proper(c, plan) && AllDone(c, was, boxes, plan, index, was.Keys)
    ensures Matches(c, boxes, plan)
  {
    DoneMatchesIff(c, was, boxes, plan, index);
    forall id | id in was ensures !Unreached(c, was, plan, index, id) { KeyedIsChosen(c, was, index, id); }
  }

  /** A row keeps its address; an added row has one that was not there. */
  lemma KeyAfter(c: Setting, was: Boxes, boxes: Boxes, plan: map<string, bool>, index: Index, id: string)
    requires Proper(c, plan) && AllDone(c, was, boxes, plan, index, was.Keys) && id in boxes
    ensures id in was ==> KeyOf(c, boxes[id]) == KeyOf(c, was[id])
    ensures id !in was ==> var a := KeyOf(c, boxes[id]); a != "" && !Present(c, was, a) && id == c.newId(a)
  {
    if id !in was { assert Added(c, was, boxes, plan, plan.Keys, id); }
  }

  lemma KeysStayDistinct(c: Setting, was: Boxes, boxes: Boxes, plan: map<string, bool>, index: Index)
    requires Keyed(c, was) && Proper(c, plan) && AllDone(c, was, boxes, plan, index, was.Keys)
    ensures Keyed(c, boxes)
  {
    forall id | id in boxes ensures KeyOf(c, boxes[id]) != "" { KeyAfter(c, was, boxes, plan, index, id); }
    forall i, j | i in boxes && j in boxes && KeyOf(c, boxes[i]) == KeyOf(c, boxes[j]) ensures i == j {
      KeyAfter(c, was, boxes, plan, index, i);
      KeyAfter(c, was, boxes, plan, index, j);
      if i in was { assert Present(c, was, KeyOf(c, was[i])); }
      if j in was { assert Present(c, was, KeyOf(c, was[j])); }
    }
  }

  /** No row goes or changes its address, and those taken for planned addresses are as planned; nothing off the plan that was
      not managed is touched, nor is a row that the run
      does not reach; and the managed ones off the plan become inactive. */
  lemma OthersAreUntouched(c: Setting, was: Boxes, boxes: Boxes, plan: map<string, bool>, index: Index, id: string)
    requires AllDone(c, was, boxes, plan, index, was.Keys) && id in was
    ensures id in boxes && boxes[id].address == was[id].address
    ensures KeyOf(c, was[id]) !in plan && !was[id].managed ==> boxes[id] == was[id]
    ensures Proper(c, plan) && Unreached(c, was, plan, index, id) ==> boxes[id] == was[id]
    ensures IsOffPlan(c, was[id], plan) ==> boxes[id] == Box(was[id].address, false, false, false, true, c.now)
    ensures Chosen(c, was, index, id) && KeyOf(c, was[id]) in plan ==>
              boxes[id] == Box(was[id].address, plan[KeyOf(c, was[id])], true, true, true, c.now)
  {
  }

  /** The row needs a change other than of its timestamp. */
  predicate Differs(b: Box, canReceive: bool) { b.canReceive != canReceive || !b.canSend || !b.active || !b.managed }

  /** The managed rows off the plan, active or not. */
  function OffPlan(c: Setting, boxes: Boxes, plan: map<string, bool>): set<string> {
    set id | id in boxes && IsOffPlan(c, boxes[id], plan)
  }

  /** Where the table already matches, a run inserts and changes nothing. */
  predicate Settled(c: Setting, boxes: Boxes, plan: map<string, bool>) {
    && (forall a :: a in plan ==> Present(c, boxes, a))
    && (forall id :: id in boxes && KeyOf(c, boxes[id]) in plan ==> !Differs(boxes[id], plan[KeyOf(c, boxes[id])]))
  }

  lemma DoneIsSettled(c: Setting, was: Boxes, boxes: Boxes, plan: map<string, bool>, index: Index)
    requires Keyed(c, was) && Indexes(c, index, was) && Proper(c, plan) && AllDone(c, was, boxes, plan, index, was.Keys)
    ensures Settled(c, boxes, plan)
  {
    DoneMatches(c, was, boxes, plan, index);
    forall id | id in boxes && KeyOf(c, boxes[id]) in plan ensures !Differs(boxes[id], plan[KeyOf(c, boxes[id])]) {
      KeyAfter(c, was, boxes, plan, index, id);
      if id !in was { assert Added(c, was, boxes, plan, plan.Keys, id); } else { KeyedIsChosen(c, was, index, id); }
    }
  }

  // ---------------------------------------------------------------- the method

  /** A failed verification says which addresses the database listed. */
  datatype Outcome = Synced(inserted: nat, changed: nat, deactivated: nat) | DatabaseFailed | VerifyFailed(listed: seq<string>)

  ghost predicate Lists(names: seq<string>, wanted: set<string>) {
    && (forall n :: n in names <==> n in wanted)
    && forall i, j :: 0 <= i < j < |names| ==> names[i] != names[j]
  }

  function ActiveManaged(boxes: Boxes): set<string> { set id | id in boxes && boxes[id].active && boxes[id].managed }

  function KeysIn(c: Setting, boxes: Boxes, ids: seq<string>): seq<string>
    requires forall i :: 0 <= i < |ids| ==> ids[i] in boxes
  {
    seq(|ids|, i requires 0 <= i < |ids| => KeyOf(c, boxes[ids[i]]))
  }

  /** The addresses of the active managed rows, in some order of the rows. */
  ghost predicate IsListing(c: Setting, boxes: Boxes, listed: seq<string>) {
    exists ids: seq<string> :: Lists(ids, ActiveManaged(boxes)) && (forall i :: 0 <= i < |ids| ==> ids[i] in boxes)
      && listed == KeysIn(c, boxes, ids)
  }

  lemma PassedMatches(c: Setting, boxes: Boxes, plan: map<string, bool>, order: seq<string>, ids: seq<string>)
    requires Lists(order, plan.Keys) && Lists(ids, ActiveManaged(boxes)) && |ids| == |order|
    requires forall i :: 0 <= i < |ids| ==>
      ids[i] in boxes && order[i] in plan && var b := boxes[ids[i]]; KeyOf(c, b) == order[i] && b.canReceive == plan[order[i]] && b.canSend
    ensures Matches(c, boxes, plan)
  {
    forall id | id in boxes && boxes[id].active && boxes[id].managed
      ensures var a := KeyOf(c, boxes[id]); a in plan && plan[a] == boxes[id].canReceive && boxes[id].canSend
    {
      assert id in ActiveManaged(boxes) && id in ids;
      var i :| 0 <= i < |ids| && ids[i] == id;
    }
    forall a | a in plan ensures exists id :: id in boxes && boxes[id].active && boxes[id].managed && KeyOf(c, boxes[id]) == a {
      assert a in order;
      var i :| 0 <= i < |order| && order[i] == a;
      assert ids[i] in ids && ids[i] in ActiveManaged(boxes);
    }
  }

  class MailboxTable {
    var boxes: Boxes

    /** A SELECT, in whatever order the database lists rows. */
    method Select(wanted: set<string>) returns (rows: seq<string>)
      ensures Lists(rows, wanted)
    {
      var rest := wanted;
      rows := [];
      while rest != {}
        invariant rest <= wanted && Lists(rows, wanted - rest)
      {
        var n :| n in rest;
        rows, rest := rows + [n], rest - {n};
      }
    }

    /** The map from address to row id; of several rows with one address the last is taken. */
    method IndexRows(c: Setting, rows: seq<string>) returns (index: Index)
      requires Lists(rows, boxes.Keys)
      ensures Indexes(c, index, boxes)
    {
      index := map[];
      forall j | 0 <= j < |rows| ensures rows[j] in boxes { assert rows[j] in rows; }
      for i := 0 to |rows|
        invariant forall j :: 0 <= j < i && KeyOf(c, boxes[rows[j]]) != "" ==> KeyOf(c, boxes[rows[j]]) in index
        invariant forall a :: a in index ==> a != "" && index[a] in boxes && KeyOf(c, boxes[index[a]]) == a
      {
        var a := KeyOf(c, boxes[rows[i]]);
        if a != "" { index := index[a := rows[i]]; }
      }
      forall a | a != "" && Present(c, boxes, a) ensures a in index {
        var id :| id in boxes && KeyOf(c, boxes[id]) == a;
        assert id in rows;
        var j :| 0 <= j < |rows| && rows[j] == id;
      }
    }

    /** D1's batch: all statements or none. */
    method Batch(c: Setting, sts: seq<Statement>) returns (ok: bool)
      modifies this
      ensures ok <==> ExecAll(c, old(boxes), sts).Some?
      ensures boxes == if ok then ExecAll(c, old(boxes), sts).value else old(boxes)
    {
      var work := boxes;
      for i := 0 to |sts|
        invariant boxes == old(boxes) && ExecAll(c, boxes, sts[..i]) == Some(work)
      {
        assert sts[..i + 1] == sts[..i] + [sts[i]];
        ExecMore(c, boxes, sts[..i], sts[i]);
        var next := Exec(c, work, sts[i]);
        if next.None? {
          NoneStays(c, boxes, sts, i + 1);
          return false;
        }
        work := next.value;
      }
      assert sts[..|sts|] == sts;
      boxes := work;
      ok := true;
    }

    /** The statement for one address of the plan. */
    method StatementFor(c: Setting, plan: map<string, bool>, order: seq<string>, i: nat, index: Index, ghost sts: seq<Statement>)
      returns (st: Statement, right: bool)
      requires Proper(c, plan) && Lists(order, plan.Keys) && i < |order| && Progress(c, boxes, sts, plan, index, order, i)
      requires Indexes(c, index, boxes)
      ensures Progress(c, boxes, sts + [st], plan, index, order, i + 1)
      ensures right <==> AlreadyRight(boxes, plan, index, order[i])
      ensures st.Insert? ==> !right
    {
      var a := order[i];
      assert a in order && a in plan;
      if a in index {
        UpdateProgress(c, boxes, sts, plan, index, order, i, index[a]);
        st, right := Update(index[a], plan[a]), !Differs(boxes[index[a]], plan[a]);
      } else {
        InsertProgress(c, boxes, sts, plan, index, order, i);
        st, right := Insert(c.newId(a), a, plan[a]), false;
      }
    }

    /** The UPDATE and INSERT statements, one for each address of the plan. */
    method PlanStatements(c: Setting, plan: map<string, bool>, order: seq<string>, index: Index)
      returns (sts: seq<Statement>, inserted: nat, changed: nat)
      requires Proper(c, plan) && Lists(order, plan.Keys) && Indexes(c, index, boxes)
      ensures Progress(c, boxes, sts, plan, index, order, |order|)
      ensures inserted + changed == NotRight(boxes, plan, index, order, |order|)
    {
      sts, inserted, changed := [], 0, 0;
      ProgressStart(c, boxes, plan, index, order);
      for i := 0 to |order|
        invariant Progress(c, boxes, sts, plan, index, order, i)
        invariant inserted + changed == NotRight(boxes, plan, index, order, i)
      {
        var st, right := StatementFor(c, plan, order, i, index, sts);
        sts := sts + [st];
        if st.Insert? {
          inserted := inserted + 1;
        } else if !right {
          changed := changed + 1;
        }
      }
    }

    /** The deactivations, one for each managed row off the plan. */
    method DeactivateStatements(c: Setting, plan: map<string, bool>, rows: seq<string>, ghost index: Index, before: seq<Statement>)
      returns (sts: seq<Statement>, deactivated: nat)
      requires Lists(rows, boxes.Keys) && (forall i :: 0 <= i < |rows| ==> rows[i] in boxes)
      requires Deactivating(c, boxes, before, before, plan, index, {})
      ensures Deactivating(c, boxes, before, sts, plan, index, boxes.Keys)
      ensures deactivated == |OffPlan(c, boxes, plan)|
    {
      sts, deactivated := before, 0;
      for i := 0 to |rows|
        invariant sts == before + Deactivations(c, boxes, plan, rows, i)
        invariant deactivated == |Deactivations(c, boxes, plan, rows, i)|
      {
        if IsOffPlan(c, boxes[rows[i]], plan) {
          sts := sts + [Deactivate(rows[i])];
          deactivated := deactivated + 1;
        }
      }
      DeactivationsWork(c, boxes, plan, rows, before, index, |rows|);
      DeactivationsCount(c, boxes, plan, rows, |rows|);
      AllNames(rows, boxes.Keys);
      assert OffPlan(c, boxes, plan) * boxes.Keys == OffPlan(c, boxes, plan);
    }

    /** The closing comparison with the plan, position by position in the two orders: it passes if and only if the table
        matches the plan and the database lists the addresses in the plan's own order. */
    method Verify(c: Setting, plan: map<string, bool>, order: seq<string>) returns (ok: bool, listed: seq<string>)
      requires Lists(order, plan.Keys)
      ensures IsListing(c, boxes, listed)
      ensures ok <==> Matches(c, boxes, plan) && listed == order
    {
      var live := ActiveManaged(boxes);
      var actual := Select(live);
      forall i | 0 <= i < |actual| ensures actual[i] in live { assert actual[i] in actual; }
      forall i | 0 <= i < |order| ensures order[i] in plan { assert order[i] in order; }
      listed := KeysIn(c, boxes, actual);
      ok := |actual| == |order|
            && forall i :: 0 <= i < |actual| ==>
                 var b := boxes[actual[i]]; KeyOf(c, b) == order[i] && b.canReceive == plan[order[i]] && b.canSend;
      if ok { PassedMatches(c, boxes, plan, order, actual); }
    }

    /** applyRoutingPlan: `order` is the plan's own order, `index` the rows it took for the addresses. */
    method ApplyRoutingPlan(c: Setting, plan: map<string, bool>, order: seq<string>) returns (r: Outcome, ghost index: Index)
      requires Proper(c, plan) && Lists(order, plan.Keys)
      modifies this
      ensures Indexes(c, index, old(boxes))
      ensures r.DatabaseFailed? <==> Clash(c, old(boxes), order, |order|)
      ensures r.DatabaseFailed? ==> boxes == old(boxes)
      ensures !r.DatabaseFailed? ==> AllDone(c, old(boxes), boxes, plan, index, old(boxes).Keys)
      ensures !r.DatabaseFailed? && Keyed(c, old(boxes)) ==> Matches(c, boxes, plan) && Keyed(c, boxes) && Settled(c, boxes, plan)
      ensures r.Synced? ==> Matches(c, boxes, plan) && IsListing(c, boxes, order)
      ensures r.Synced? ==> ((forall a :: a in plan ==> AlreadyRight(old(boxes), plan, index, a)) <==> r.inserted == 0 && r.changed == 0)
      ensures r.Synced? && Keyed(c, old(boxes)) ==> (Settled(c, old(boxes), plan) <==> r.inserted == 0 && r.changed == 0)
      ensures r.Synced? ==> r.deactivated == |OffPlan(c, old(boxes), plan)|
      ensures r.VerifyFailed? ==> IsListing(c, boxes, r.listed) && (r.listed != order || !Matches(c, boxes, plan))
    {
      var rows := Select(boxes.Keys);
      var rowIds := IndexRows(c, rows);
      index := rowIds;
      var sts, inserted, changed := PlanStatements(c, plan, order, rowIds);
      PlanIsDone(c, boxes, sts, plan, index, order);
      AllRightIff(boxes, plan, index, order);
      if Keyed(c, boxes) { SettledIff(c, boxes, plan, index); }
      forall i | 0 <= i < |rows| ensures rows[i] in boxes { assert rows[i] in rows; }
      var all, deactivated := DeactivateStatements(c, plan, rows, index, sts);
      var ok := Batch(c, all);
      if !ok { return DatabaseFailed, index; }
      KeyedAfter(c, old(boxes), boxes, plan, index);
      var verified, listed := Verify(c, plan, order);
      r := if verified then Synced(inserted, changed, deactivated) else VerifyFailed(listed);
    }
  }

  lemma KeyedAfter(c: Setting, was: Boxes, boxes: Boxes, plan: map<string, bool>, index: Index)
    requires Indexes(c, index, was) && Proper(c, plan) && AllDone(c, was, boxes, plan, index, was.Keys)
    ensures Keyed(c, was) ==> Matches(c, boxes, plan) && Keyed(c, boxes) && Settled(c, boxes, plan)
  {
    if Keyed(c, was) {
      DoneMatches(c, was, boxes, plan, index);
      KeysStayDistinct(c, was, boxes, plan, index);
      DoneIsSettled(c, was, boxes, plan, index);
    }
  }

  // ---------------------------------------------------------------- its loops, step by step

  function Names(names: seq<string>, i: nat): set<string>
    requires i <= |names|
  {
    set j | 0 <= j < i :: names[j]
  }

  lemma NamesMore(names: seq<string>, i: nat)
    requires i < |names| && forall j, k :: 0 <= j < k < |names| ==> names[j] != names[k]
    ensures Names(names, i + 1) == Names(names, i) + {names[i]} && names[i] !in Names(names, i)
  {
  }

  /** Of the first n addresses of the plan one that is not there yet finds its id or its address taken, by a row or by one
      that is added before it. */
  ghost predicate Clash(c: Setting, was: Boxes, order: seq<string>, n: nat)
    requires n <= |order|
  {
    exists i :: 0 <= i < n && !Present(c, was, order[i]) && Clashes(c, was, order, i)
  }

  ghost predicate Clashes(c: Setting, was: Boxes, order: seq<string>, i: nat)
    requires i < |order|
  {
    || c.newId(order[i]) in was || Taken(c, was, order[i])
    || exists k :: 0 <= k < i && !Present(c, was, order[k])
                   && (c.newId(order[k]) == c.newId(order[i]) || c.fold(order[k]) == c.fold(order[i]))
  }

  ghost predicate Progress(c: Setting, was: Boxes, sts: seq<Statement>, plan: map<string, bool>, index: Index, order: seq<string>, i: nat)
    requires i <= |order|
  {
    var r := ExecAll(c, was, sts);
    (r.Some? <==> !Clash(c, was, order, i)) && (r.Some? ==> PlanDone(c, was, r.value, plan, index, Names(order, i)))
  }

  /** The statements for the first i rows. */
  function Deactivations(c: Setting, boxes: Boxes, plan: map<string, bool>, rows: seq<string>, i: nat): seq<Statement>
    requires i <= |rows| && forall j :: 0 <= j < |rows| ==> rows[j] in boxes
  {
    if i == 0 then []
    else Deactivations(c, boxes, plan, rows, i - 1) + if IsOffPlan(c, boxes[rows[i - 1]], plan) then [Deactivate(rows[i - 1])] else []
  }

  lemma {:induction false} DeactivationsCount(c: Setting, boxes: Boxes, plan: map<string, bool>, rows: seq<string>, i: nat)
    requires Lists(rows, boxes.Keys) && i <= |rows| && forall j :: 0 <= j < |rows| ==> rows[j] in boxes
    ensures |Deactivations(c, boxes, plan, rows, i)| == |OffPlan(c, boxes, plan) * Names(rows, i)|
  {
    if i == 0 {
      assert Names(rows, 0) == {};
    } else {
      DeactivationsCount(c, boxes, plan, rows, i - 1);
      NamesMore(rows, i - 1);
      CountMore(OffPlan(c, boxes, plan), Names(rows, i - 1), rows[i - 1]);
    }
  }

  lemma NextDeactivation(c: Setting, boxes: Boxes, plan: map<string, bool>, rows: seq<string>, before: seq<Statement>, i: nat)
    requires Lists(rows, boxes.Keys) && i < |rows| && forall j :: 0 <= j < |rows| ==> rows[j] in boxes
    ensures var sts := before + Deactivations(c, boxes, plan, rows, i);
            before + Deactivations(c, boxes, plan, rows, i + 1)
            == if IsOffPlan(c, boxes[rows[i]], plan) then sts + [Deactivate(rows[i])] else sts
  {
  }

  lemma {:induction false} DeactivationsWork(c: Setting, boxes: Boxes, plan: map<string, bool>, rows: seq<string>, before: seq<Statement>,
                                             index: Index, i: nat)
    requires Lists(rows, boxes.Keys) && i <= |rows| && forall j :: 0 <= j < |rows| ==> rows[j] in boxes
    requires Deactivating(c, boxes, before, before, plan, index, {})
    ensures Deactivating(c, boxes, before, before + Deactivations(c, boxes, plan, rows, i), plan, index, Names(rows, i))
  {
    if i == 0 {
      assert before + [] == before && Names(rows, 0) == {};
    } else {
      DeactivationsWork(c, boxes, plan, rows, before, index, i - 1);
      NamesMore(rows, i - 1);
      NextDeactivation(c, boxes, plan, rows, before, i - 1);
      DeactivateProgress(c, boxes, before, before + Deactivations(c, boxes, plan, rows, i - 1), plan, index, Names(rows, i - 1), rows[i - 1]);
    }
  }

  ghost predicate Deactivating(c: Setting, was: Boxes, before: seq<Statement>, sts: seq<Statement>, plan: map<string, bool>, index: Index,
                               seen: set<string>) {
    var r := ExecAll(c, was, sts);
    (r.Some? <==> ExecAll(c, was, before).Some?) && (r.Some? ==> AllDone(c, was, r.value, plan, index, seen))
  }

  lemma DeactivateProgress(c: Setting, was: Boxes, before: seq<Statement>, sts: seq<Statement>, plan: map<string, bool>, index: Index,
                           seen: set<string>, id: string)
    requires Deactivating(c, was, before, sts, plan, index, seen) && id in was && id !in seen
    ensures Deactivating(c, was, before, if IsOffPlan(c, was[id], plan) then sts + [Deactivate(id)] else sts, plan, index, seen + {id})
  {
    ExecMore(c, was, sts, Deactivate(id));
    var r := ExecAll(c, was, sts);
    if r.Some? { DeactivateStep(c, was, r.value, plan, index, seen, id); }
  }

  lemma CountMore(wanted: set<string>, seen: set<string>, n: string)
    requires n !in seen
    ensures |wanted * (seen + {n})| == |wanted * seen| + if n in wanted then 1 else 0
  {
    assert wanted * (seen + {n}) == wanted * seen + if n in wanted then {n} else {};
  }

  lemma AllNames(names: seq<string>, wanted: set<string>)
    requires Lists(names, wanted)
    ensures Names(names, |names|) == wanted
  {
  }

  /** All the plan's statements together, ready for the deactivations. */
  lemma PlanIsDone(c: Setting, was: Boxes, sts: seq<Statement>, plan: map<string, bool>, index: Index, order: seq<string>)
    requires Lists(order, plan.Keys) && Progress(c, was, sts, plan, index, order, |order|)
    ensures Deactivating(c, was, sts, sts, plan, index, {})
    ensures ExecAll(c, was, sts).None? <==> Clash(c, was, order, |order|)
  {
    AllNames(order, plan.Keys);
  }

  lemma UpdateProgress(c: Setting, was: Boxes, sts: seq<Statement>, plan: map<string, bool>, index: Index, order: seq<string>, i: nat, id: string)
    requires Lists(order, plan.Keys) && i < |order| && Progress(c, was, sts, plan, index, order, i)
    requires Chosen(c, was, index, id) && KeyOf(c, was[id]) == order[i] && order[i] in plan
    ensures Progress(c, was, sts + [Update(id, plan[order[i]])], plan, index, order, i + 1)
  {
    assert Present(c, was, order[i]);
    ExecMore(c, was, sts, Update(id, plan[order[i]]));
    NamesMore(order, i);
    var r := ExecAll(c, was, sts);
    if r.Some? { UpdateStep(c, was, r.value, plan, index, Names(order, i), id); }
  }

  lemma InsertProgress(c: Setting, was: Boxes, sts: seq<Statement>, plan: map<string, bool>, index: Index, order: seq<string>, i: nat)
    requires Lists(order, plan.Keys) && i < |order| && Progress(c, was, sts, plan, index, order, i)
    requires order[i] in plan && !Present(c, was, order[i])
    ensures Progress(c, was, sts + [Insert(c.newId(order[i]), order[i], plan[order[i]])], plan, index, order, i + 1)
  {
    var a := order[i];
    ExecMore(c, was, sts, Insert(c.newId(a), a, plan[a]));
    NamesMore(order, i);
    var r := ExecAll(c, was, sts);
    if r.Some? { InsertOne(c, was, r.value, plan, index, order, i); }
  }

  lemma InsertOne(c: Setting, was: Boxes, boxes: Boxes, plan: map<string, bool>, index: Index, order: seq<string>, i: nat)
    requires i < |order| && order[i] in plan && PlanDone(c, was, boxes, plan, index, Names(order, i)) && !Present(c, was, order[i])
    requires order[i] !in Names(order, i)
    ensures var a := order[i];
            var after := Exec(c, boxes, Insert(c.newId(a), a, plan[a]));
            && (after.None? <==> Clashes(c, was, order, i))
            && (after.Some? ==> PlanDone(c, was, after.value, plan, index, Names(order, i) + {a}))
  {
    InsertClashesIff(c, was, boxes, plan, index, order, i);
    if !Clashes(c, was, order, i) { InsertStep(c, was, boxes, plan, index, Names(order, i), order[i]); }
  }

  lemma InsertClashesIff(c: Setting, was: Boxes, boxes: Boxes, plan: map<string, bool>, index: Index, order: seq<string>, i: nat)
    requires i < |order| && PlanDone(c, was, boxes, plan, index, Names(order, i)) && !Present(c, was, order[i])
    ensures c.newId(order[i]) in boxes || Taken(c, boxes, order[i]) <==> Clashes(c, was, order, i)
  {
    var a := order[i];
    if c.newId(a) in boxes && c.newId(a) !in was { assert Added(c, was, boxes, plan, Names(order, i), c.newId(a)); }
    if Taken(c, boxes, a) {
      var j :| j in boxes && c.fold(boxes[j].address) == c.fold(a);
      if j in was { assert boxes[j].address == was[j].address; } else { assert Added(c, was, boxes, plan, Names(order, i), j); }
    }
    if Taken(c, was, a) {
      var j :| j in was && c.fold(was[j].address) == c.fold(a);
      assert boxes[j].address == was[j].address;
    }
    if k :| 0 <= k < i && !Present(c, was, order[k]) && (c.newId(order[k]) == c.newId(a) || c.fold(order[k]) == c.fold(a)) {
      assert order[k] in Names(order, i);
      assert boxes[c.newId(order[k])].address == order[k];
    }
  }

  /** The row taken for the address needs no change. */
  predicate AlreadyRight(boxes: Boxes, plan: map<string, bool>, index: Index, a: string) {
    a in plan && a in index && index[a] in boxes && !Differs(boxes[index[a]], plan[a])
  }

  /** How many of the first i addresses have no row, or one that differs. */
  function NotRight(boxes: Boxes, plan: map<string, bool>, index: Index, order: seq<string>, i: nat): nat
    requires i <= |order|
  {
    if i == 0 then 0
    else NotRight(boxes, plan, index, order, i - 1) + if AlreadyRight(boxes, plan, index, order[i - 1]) then 0 else 1
  }

  lemma {:induction false} NotRightIs(boxes: Boxes, plan: map<string, bool>, index: Index, order: seq<string>, i: nat)
    requires i <= |order|
    ensures NotRight(boxes, plan, index, order, i) == 0 <==> forall j :: 0 <= j < i ==> AlreadyRight(boxes, plan, index, order[j])
  {
    if i > 0 { NotRightIs(boxes, plan, index, order, i - 1); }
  }

  lemma ProgressStart(c: Setting, boxes: Boxes, plan: map<string, bool>, index: Index, order: seq<string>)
    ensures Progress(c, boxes, [], plan, index, order, 0)
  {
  }

  lemma AllRightIff(boxes: Boxes, plan: map<string, bool>, index: Index, order: seq<string>)
    requires Lists(order, plan.Keys)
    ensures (forall a :: a in plan ==> AlreadyRight(boxes, plan, index, a)) <==> NotRight(boxes, plan, index, order, |order|) == 0
  {
    NotRightIs(boxes, plan, index, order, |order|);
    forall j | 0 <= j < |order| ensures order[j] in plan { assert order[j] in order; }
    if NotRight(boxes, plan, index, order, |order|) == 0 {
      forall a | a in plan ensures AlreadyRight(boxes, plan, index, a) {
        assert a in order;
        var j :| 0 <= j < |order| && order[j] == a;
      }
    }
  }

  lemma SettledIff(c: Setting, boxes: Boxes, plan: map<string, bool>, index: Index)
    requires Keyed(c, boxes) && Indexes(c, index, boxes) && Proper(c, plan)
    ensures Settled(c, boxes, plan) <==> forall a :: a in plan ==> AlreadyRight(boxes, plan, index, a)
  {
    forall id | id in boxes ensures Chosen(c, boxes, index, id) { KeyedIsChosen(c, boxes, index, id); }
  }

  lemma {:induction false} NoneStays(c: Setting, boxes: Boxes, sts: seq<Statement>, i: nat)
    requires i <= |sts| && ExecAll(c, boxes, sts[..i]).None?
    ensures ExecAll(c, boxes, sts).None?
    decreases |sts| - i
  {
    if i < |sts| {
      assert sts[..i + 1] == sts[..i] + [sts[i]];
      ExecMore(c, boxes, sts[..i], sts[i]);
      NoneStays(c, boxes, sts, i + 1);
    } else {
      assert sts[..i] == sts;
    }
  }
}
