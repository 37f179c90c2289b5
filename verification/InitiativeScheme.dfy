/** Initiative validation and the chooser of the next block to work on. */
module InitiativeScheme {
  import opened Wrappers
  import opened CycleDetection

  const ALLOWED_STATUSES: set<string> := {"TODO", "IN_PROGRESS", "BLOCKED", "DONE"}

  /** What the validator reads about a block's files. */
  datatype BlockFiles = BlockFiles(
    present: bool, headerStatus: Option<string>, reportExists: bool, reviewReportExists: bool)

  datatype Block = Block(
    id: string, status: string, depends: seq<string>, requirements: seq<string>, files: BlockFiles)

  /** An initiative as loaded: blocks in manifest order, with the facts read from its directory. */
  datatype Initiative = Initiative(
    isLegacy: bool,
    closed: bool,
    archived: bool,
    blocks: seq<Block>,
    statusTable: map<string, string>,
    specification: seq<string>,
    closureRecord: bool,
    adoptionRecord: bool)

  datatype SchemeError =
    | MissingId
    | DuplicateId(id: string)
    | InvalidStatus(id: string)
    | MissingFile(id: string)
    | HeaderMismatch(id: string)
    | TableMismatch(id: string)
    | UnknownPrerequisite(id: string, dep: string)
    | MissingReport(id: string)
    | DependencyCycle(path: seq<string>)
    | UncoveredRequirement(requirement: string)
    | UnfinishedClosure
    | MissingClosureRecord
    | MissingAdoptionRecord
    | MissingImplementationReport(id: string)

  // ----- What a clean initiative is -----

  predicate DistinctIds(blocks: seq<Block>) {
    forall i, j :: 0 <= i < j < |blocks| ==> blocks[i].id != blocks[j].id
  }

  predicate AllIdentified(blocks: seq<Block>) {
    forall i :: 0 <= i < |blocks| ==> blocks[i].id != ""
  }

  function Ids(blocks: seq<Block>): set<string> {
    set i | 0 <= i < |blocks| :: blocks[i].id
  }

  predicate BlockInOrder(block: Block, table: map<string, string>, ids: set<string>) {
    && block.status in ALLOWED_STATUSES
    && block.files.present
    && (block.files.headerStatus.Some? ==> block.files.headerStatus.value == block.status)
    && (block.id in table ==> table[block.id] == block.status)
    && (forall dep :: dep in block.depends ==> dep in ids)
    && (block.status == "DONE" ==> block.files.reportExists || block.files.reviewReportExists)
  }

  predicate Covered(requirement: string, blocks: seq<Block>) {
    exists i :: 0 <= i < |blocks| && requirement in blocks[i].requirements
  }

  predicate SpecificationCovered(init: Initiative) {
    forall requirement :: requirement in init.specification ==> Covered(requirement, init.blocks)
  }

  predicate ClosureInOrder(init: Initiative) {
    init.closed ==>
      && init.blocks != [] && init.closureRecord && init.adoptionRecord
      && forall i :: 0 <= i < |init.blocks| ==>
           init.blocks[i].status == "DONE" && init.blocks[i].files.reportExists
  }

  /** The dependency graph as the validator builds it; a later block with the same id replaces an earlier one. */
  function GraphOf(blocks: seq<Block>): Graph {
    if blocks == [] then map[]
    else GraphOf(blocks[..|blocks| - 1])[blocks[|blocks| - 1].id := blocks[|blocks| - 1].depends]
  }

  ghost predicate InOrder(init: Initiative) {
    && AllIdentified(init.blocks) && DistinctIds(init.blocks)
    && ClosureInOrder(init)
    && (!init.isLegacy ==>
          && (forall i :: 0 <= i < |init.blocks| ==>
                BlockInOrder(init.blocks[i], init.statusTable, Ids(init.blocks)))
          && Acyclic(GraphOf(init.blocks))
          && SpecificationCovered(init))
  }

  lemma {:induction false} GraphKeys(blocks: seq<Block>)
    ensures GraphOf(blocks).Keys == Ids(blocks)
  {
    if blocks != [] {
      var last := |blocks| - 1;
      GraphKeys(blocks[..last]);
      assert Ids(blocks) == Ids(blocks[..last]) + {blocks[last].id} by {
        forall i | 0 <= i < |blocks| ensures blocks[i].id in Ids(blocks[..last]) + {blocks[last].id} {
          if i < last { assert blocks[..last][i] == blocks[i]; }
        }
        forall id | id in Ids(blocks[..last]) ensures id in Ids(blocks) {
          var i :| 0 <= i < last && blocks[..last][i].id == id;
          assert blocks[i].id == id;
        }
      }
    }
  }

  lemma {:induction false} GraphHolds(blocks: seq<Block>, i: nat)
    requires DistinctIds(blocks) && i < |blocks|
    ensures blocks[i].id in GraphOf(blocks) && GraphOf(blocks)[blocks[i].id] == blocks[i].depends
    decreases |blocks|
  {
    var last := |blocks| - 1;
    if i < last { GraphHolds(blocks[..last], i); }
  }

  // ----- Validation -----

  method ValidateBlockIds(blocks: seq<Block>) returns (seen: set<string>, errors: seq<SchemeError>)
    ensures seen == Ids(blocks) - {""}
    ensures errors == [] <==> AllIdentified(blocks) && DistinctIds(blocks)
    ensures MissingId in errors <==> !AllIdentified(blocks)
    ensures forall id :: DuplicateId(id) in errors <==>
      id != "" && exists j, k :: 0 <= j < k < |blocks| && blocks[j].id == id && blocks[k].id == id
    ensures forall e :: e in errors ==> e.MissingId? || e.DuplicateId?
  {
    seen, errors := {}, [];
    for n := 0 to |blocks|
      invariant seen == (set i | 0 <= i < n && blocks[i].id != "" :: blocks[i].id)
      invariant MissingId in errors <==> exists i :: 0 <= i < n && blocks[i].id == ""
      invariant forall id :: DuplicateId(id) in errors <==>
        id != "" && exists j, k :: 0 <= j < k < n && blocks[j].id == id && blocks[k].id == id
      invariant forall e :: e in errors ==> e.MissingId? || e.DuplicateId?
    {
      var block := blocks[n];
      if block.id == "" {
        errors := errors + [MissingId];
      } else {
        if block.id in seen { errors := errors + [DuplicateId(block.id)]; }
        seen := seen + {block.id};
      }
    }
    if errors != [] {
      assert errors[0] in errors;
    } else {
      forall j, k | 0 <= j < k < |blocks| ensures blocks[j].id != blocks[k].id {
        assert DuplicateId(blocks[j].id) !in errors;
        assert blocks[j].id != "";
      }
    }
  }

  /** Which of the checks on one block fail is exactly what is reported. */
  method ValidateSingleBlock(block: Block, table: map<string, string>, ids: set<string>)
    returns (errors: seq<SchemeError>)
    ensures errors == [] <==> BlockInOrder(block, table, ids)
    ensures forall e :: e in errors <==> Reports(block, table, ids, e)
  {
    errors := [];
    if block.status !in ALLOWED_STATUSES { errors := errors + [InvalidStatus(block.id)]; }
    if !block.files.present {
      errors := errors + [MissingFile(block.id)];
    } else if block.files.headerStatus.Some? && block.files.headerStatus.value != block.status {
      errors := errors + [HeaderMismatch(block.id)];
    }
    if block.id in table && table[block.id] != block.status { errors := errors + [TableMismatch(block.id)]; }
    var unknown := UnknownPrerequisites(block, ids);
    errors := errors + unknown;
    if block.status == "DONE" && !block.files.reportExists && !block.files.reviewReportExists {
      errors := errors + [MissingReport(block.id)];
    }
    NothingReportedInOrder(block, table, ids, errors);
  }

  /** The condition under which each error is reported for a block. */
  predicate Reports(block: Block, table: map<string, string>, ids: set<string>, e: SchemeError) {
    match e
    case InvalidStatus(id) => id == block.id && block.status !in ALLOWED_STATUSES
    case MissingFile(id) => id == block.id && !block.files.present
    case HeaderMismatch(id) =>
      && id == block.id && block.files.present
      && block.files.headerStatus.Some? && block.files.headerStatus.value != block.status
    case TableMismatch(id) => id == block.id && id in table && table[id] != block.status
    case UnknownPrerequisite(id, dep) => id == block.id && dep in block.depends && dep !in ids
    case MissingReport(id) =>
      id == block.id && block.status == "DONE" && !block.files.reportExists && !block.files.reviewReportExists
    case _ => false
  }

  lemma NothingReportedInOrder(block: Block, table: map<string, string>, ids: set<string>, errors: seq<SchemeError>)
    requires forall e :: e in errors <==> Reports(block, table, ids, e)
    ensures errors == [] <==> BlockInOrder(block, table, ids)
  {
    if errors != [] {
      assert Reports(block, table, ids, errors[0]);
    } else {
      assert !Reports(block, table, ids, InvalidStatus(block.id)) && !Reports(block, table, ids, MissingFile(block.id));
      assert !Reports(block, table, ids, HeaderMismatch(block.id));
      assert !Reports(block, table, ids, TableMismatch(block.id));
      assert !Reports(block, table, ids, MissingReport(block.id));
      forall dep | dep in block.depends ensures dep in ids {
        assert !Reports(block, table, ids, UnknownPrerequisite(block.id, dep));
      }
    }
  }

  method UnknownPrerequisites(block: Block, ids: set<string>) returns (errors: seq<SchemeError>)
    ensures forall e :: e in errors <==>
      e.UnknownPrerequisite? && e.id == block.id && e.dep in block.depends && e.dep !in ids
  {
    errors := [];
    for n := 0 to |block.depends|
      invariant forall e :: e in errors <==>
        e.UnknownPrerequisite? && e.id == block.id && e.dep in block.depends[..n] && e.dep !in ids
    {
      if block.depends[n] !in ids { errors := errors + [UnknownPrerequisite(block.id, block.depends[n])]; }
    }
  }

  method ValidateSpecificationCoverage(init: Initiative) returns (errors: seq<SchemeError>)
    ensures forall e :: e in errors <==>
      e.UncoveredRequirement? && e.requirement in init.specification && !Covered(e.requirement, init.blocks)
    ensures errors == [] <==> SpecificationCovered(init)
  {
    errors := [];
    var covered: set<string> := {};
    for n := 0 to |init.blocks|
      invariant forall r :: r in covered <==> exists i :: 0 <= i < n && r in init.blocks[i].requirements
    {
      covered := covered + (set r | r in init.blocks[n].requirements);
    }
    for n := 0 to |init.specification|
      invariant forall e :: e in errors <==>
        e.UncoveredRequirement? && e.requirement in init.specification[..n] && !Covered(e.requirement, init.blocks)
    {
      if init.specification[n] !in covered { errors := errors + [UncoveredRequirement(init.specification[n])]; }
    }
    if errors != [] {
      assert errors[0] in errors;
    } else {
      forall r | r in init.specification ensures Covered(r, init.blocks) {
        assert UncoveredRequirement(r) !in errors;
      }
    }
  }

  method ValidateClosure(init: Initiative) returns (errors: seq<SchemeError>)
    ensures errors == [] <==> ClosureInOrder(init)
    ensures forall e :: e in errors ==> !e.DependencyCycle?
  {
    errors := [];
    if !init.closed { return; }
    var unfinished := init.blocks == [] || exists i :: 0 <= i < |init.blocks| && init.blocks[i].status != "DONE";
    if unfinished { errors := errors + [UnfinishedClosure]; }
    if !init.closureRecord { errors := errors + [MissingClosureRecord]; }
    if !init.adoptionRecord { errors := errors + [MissingAdoptionRecord]; }
    var clean := errors == [];
    for n := 0 to |init.blocks|
      invariant errors == [] <==> clean && forall i :: 0 <= i < n ==> init.blocks[i].files.reportExists
      invariant forall e :: e in errors ==> !e.DependencyCycle?
    {
      if !init.blocks[n].files.reportExists {
        errors := errors + [MissingImplementationReport(init.blocks[n].id)];
      }
    }
  }

  /** Validation reports nothing exactly when the initiative is in order, and a reported cycle is one. */
  method ValidateInitiative(init: Initiative) returns (errors: seq<SchemeError>)
    ensures errors == [] <==> InOrder(init)
    ensures forall e :: e in errors && e.DependencyCycle? ==> ClosedWalk(GraphOf(init.blocks), e.path)
    ensures
      AllIdentified(init.blocks) && DistinctIds(init.blocks) && !init.isLegacy && !Acyclic(GraphOf(init.blocks)) ==>
      exists e :: e in errors && e.DependencyCycle?
  {
    hide Acyclic, ClosedWalk, BlockInOrder, ClosureInOrder, SpecificationCovered;
    var seen: set<string>;
    seen, errors := ValidateBlockIds(init.blocks);
    if errors != [] { return; }
    IdentifiedIds(init.blocks);
    if init.isLegacy {
      errors := ValidateClosure(init);
      return;
    }
    for n := 0 to |init.blocks|
      invariant errors == [] <==> forall i :: 0 <= i < n ==> BlockInOrder(init.blocks[i], init.statusTable, seen)
      invariant forall e :: e in errors ==> !e.DependencyCycle?
    {
      var found := ValidateSingleBlock(init.blocks[n], init.statusTable, seen);
      errors := errors + found;
    }
    var graph := GraphOf(init.blocks);
    GraphKeys(init.blocks);
    var detector := new CycleDetector(graph, IdList(init.blocks));
    var cycle := detector.DetectCycle();
    if cycle.Some? { errors := errors + [DependencyCycle(cycle.value)]; }
    assert cycle.Some? ==> DependencyCycle(cycle.value) in errors;
    var uncovered := ValidateSpecificationCoverage(init);
    var closure := ValidateClosure(init);
    errors := errors + uncovered + closure;
    assert cycle.Some? ==> DependencyCycle(cycle.value) in errors;
  }

  lemma IdentifiedIds(blocks: seq<Block>)
    requires AllIdentified(blocks)
    ensures Ids(blocks) - {""} == Ids(blocks)
  {
  }

  function IdList(blocks: seq<Block>): (ids: seq<string>)
    ensures |ids| == |blocks| && forall i :: 0 <= i < |ids| ==> ids[i] == blocks[i].id
  {
    seq(|blocks|, i requires 0 <= i < |blocks| => blocks[i].id)
  }

  // ----- Choosing the next block -----

  /** The status recorded for an id; a later block with the same id replaces an earlier one. */
  function StatusOf(blocks: seq<Block>, id: string): Option<string> {
    if blocks == [] then None
    else if blocks[|blocks| - 1].id == id then Some(blocks[|blocks| - 1].status)
    else StatusOf(blocks[..|blocks| - 1], id)
  }

  predicate PrerequisitesDone(blocks: seq<Block>, block: Block) {
    forall dep :: dep in block.depends ==> StatusOf(blocks, dep) == Some("DONE")
  }

  predicate Eligible(blocks: seq<Block>, i: nat)
    requires i < |blocks|
  {
    blocks[i].status == "TODO" && PrerequisitesDone(blocks, blocks[i])
  }

  /** The first eligible block from position i on. */
  function NextFrom(blocks: seq<Block>, i: nat): (next: Option<nat>)
    requires i <= |blocks|
    ensures next.Some? ==> i <= next.value < |blocks| && Eligible(blocks, next.value)
    ensures next.Some? ==> forall j :: i <= j < next.value ==> !Eligible(blocks, j)
    ensures next.None? ==> forall j :: i <= j < |blocks| ==> !Eligible(blocks, j)
    decreases |blocks| - i
  {
    if i == |blocks| then None else if Eligible(blocks, i) then Some(i) else NextFrom(blocks, i + 1)
  }

  /** Closed and archived initiatives offer nothing. */
  function NextBlock(init: Initiative): Option<nat> {
    if init.closed || init.archived then None else NextFrom(init.blocks, 0)
  }

  method StatusById(blocks: seq<Block>) returns (statuses: map<string, string>)
    ensures forall id :: (id in statuses <==> StatusOf(blocks, id).Some?)
    ensures forall id :: id in statuses ==> StatusOf(blocks, id) == Some(statuses[id])
  {
    statuses := map[];
    for n := 0 to |blocks|
      invariant forall id :: (id in statuses <==> StatusOf(blocks[..n], id).Some?)
      invariant forall id :: id in statuses ==> StatusOf(blocks[..n], id) == Some(statuses[id])
    {
      assert blocks[..n + 1][..n] == blocks[..n];
      statuses := statuses[blocks[n].id := blocks[n].status];
    }
    assert blocks[..|blocks|] == blocks;
  }

  method CommandNext(init: Initiative) returns (next: Option<nat>)
    ensures next == NextBlock(init)
  {
    if init.closed || init.archived { return None; }
    var statuses := StatusById(init.blocks);
    for n := 0 to |init.blocks|
      invariant NextFrom(init.blocks, 0) == NextFrom(init.blocks, n)
    {
      if init.blocks[n].status != "TODO" { continue; }
      var allDone := true;
      for k := 0 to |init.blocks[n].depends|
        invariant allDone
        invariant forall j :: 0 <= j < k ==> StatusOf(init.blocks, init.blocks[n].depends[j]) == Some("DONE")
      {
        var dep := init.blocks[n].depends[k];
        if dep !in statuses || statuses[dep] != "DONE" {
          allDone := false;
          break;
        }
      }
      if allDone { return Some(n); }
    }
    return None;
  }

  // ----- Working an initiative to its end -----

  function MarkDone(blocks: seq<Block>, i: nat): seq<Block>
    requires i < |blocks|
  {
    blocks[i := blocks[i].(status := "DONE")]
  }

  function CountTodo(blocks: seq<Block>): nat {
    if blocks == [] then 0
    else CountTodo(blocks[..|blocks| - 1]) + if blocks[|blocks| - 1].status == "TODO" then 1 else 0
  }

  lemma {:induction false} MarkingCountsDown(blocks: seq<Block>, i: nat)
    requires i < |blocks| && blocks[i].status == "TODO"
    ensures CountTodo(MarkDone(blocks, i)) == CountTodo(blocks) - 1
    decreases |blocks|
  {
    var last := |blocks| - 1;
    var marked := MarkDone(blocks, i);
    if i == last {
      assert marked[..last] == blocks[..last];
    } else {
      MarkingCountsDown(blocks[..last], i);
      assert marked[..last] == MarkDone(blocks[..last], i);
    }
  }

  /** The blocks picked by asking for the next one and marking it done until nothing is offered. */
  function Picks(init: Initiative): seq<nat>
    decreases CountTodo(init.blocks)
  {
    match NextBlock(init)
    case None => []
    case Some(i) =>
      MarkingCountsDown(init.blocks, i);
      [i] + Picks(init.(blocks := MarkDone(init.blocks, i)))
  }

  /** The initiative after marking the given picks done in turn. */
  function Worked(init: Initiative, picks: seq<nat>): Initiative
    requires forall k :: 0 <= k < |picks| ==> picks[k] < |init.blocks|
    decreases |picks|
  {
    if picks == [] then init else Worked(init.(blocks := MarkDone(init.blocks, picks[0])), picks[1..])
  }

  predicate OnlyTodoOrDone(blocks: seq<Block>) {
    forall i :: 0 <= i < |blocks| ==> blocks[i].status == "TODO" || blocks[i].status == "DONE"
  }

  predicate AllDone(blocks: seq<Block>) {
    forall i :: 0 <= i < |blocks| ==> blocks[i].status == "DONE"
  }

  lemma {:induction false} StatusHolds(blocks: seq<Block>, i: nat)
    requires DistinctIds(blocks) && i < |blocks|
    ensures StatusOf(blocks, blocks[i].id) == Some(blocks[i].status)
    decreases |blocks|
  {
    var last := |blocks| - 1;
    if i < last {
      StatusHolds(blocks[..last], i);
    }
  }

  lemma {:induction false} UnknownHasNoStatus(blocks: seq<Block>, id: string)
    ensures StatusOf(blocks, id).Some? <==> exists i :: 0 <= i < |blocks| && blocks[i].id == id
  {
    if blocks != [] {
      var last := |blocks| - 1;
      UnknownHasNoStatus(blocks[..last], id);
      if StatusOf(blocks[..last], id).Some? {
        var i :| 0 <= i < last && blocks[..last][i].id == id;
        assert blocks[i].id == id;
      }
      if i :| 0 <= i < |blocks| && blocks[i].id == id {
        if i < last { assert blocks[..last][i].id == id; }
      }
    }
  }

  // ----- When the chooser finishes everything -----

  /** Prerequisites among the blocks still to do. */
  function TodoGraph(blocks: seq<Block>): Graph {
    if blocks == [] then map[]
    else
      var last := blocks[|blocks| - 1];
      var rest := TodoGraph(blocks[..|blocks| - 1]);
      if last.status == "TODO" then rest[last.id := last.depends] else rest
  }

  predicate Known(blocks: seq<Block>, dep: string) {
    exists i :: 0 <= i < |blocks| && blocks[i].id == dep
  }

  /** Everything still to do has known prerequisites and no cycle among itself. */
  ghost predicate Runnable(blocks: seq<Block>) {
    && (forall i, dep :: 0 <= i < |blocks| && blocks[i].status == "TODO" && dep in blocks[i].depends ==>
          Known(blocks, dep))
    && Acyclic(TodoGraph(blocks))
  }

  lemma {:induction false} TodoGraphHas(blocks: seq<Block>, i: nat)
    requires DistinctIds(blocks) && i < |blocks|
    ensures blocks[i].id in TodoGraph(blocks) <==> blocks[i].status == "TODO"
    ensures blocks[i].status == "TODO" ==> TodoGraph(blocks)[blocks[i].id] == blocks[i].depends
    decreases |blocks|
  {
    var last := |blocks| - 1;
    if i < last {
      TodoGraphHas(blocks[..last], i);
    } else {
      TodoGraphNames(blocks[..last], blocks[last].id);
    }
  }

  lemma {:induction false} TodoGraphNames(blocks: seq<Block>, id: string)
    ensures id in TodoGraph(blocks) ==>
      exists i :: 0 <= i < |blocks| && blocks[i].id == id && blocks[i].status == "TODO"
  {
    if blocks != [] && id in TodoGraph(blocks) {
      var last := |blocks| - 1;
      TodoGraphNames(blocks[..last], id);
      if id in TodoGraph(blocks[..last]) {
        var i :| 0 <= i < last && blocks[..last][i].id == id && blocks[..last][i].status == "TODO";
        assert blocks[i].id == id;
      } else {
        assert blocks[last].id == id;
      }
    }
  }

  /** A block that is not eligible waits for another block still to do. */
  lemma WaitsFor(blocks: seq<Block>, i: nat) returns (dep: string)
    requires DistinctIds(blocks) && OnlyTodoOrDone(blocks) && i < |blocks| && blocks[i].status == "TODO"
    requires forall d :: d in blocks[i].depends ==> Known(blocks, d)
    requires !Eligible(blocks, i)
    ensures Edge(TodoGraph(blocks), blocks[i].id, dep)
  {
    dep :| dep in blocks[i].depends && StatusOf(blocks, dep) != Some("DONE");
    var k :| 0 <= k < |blocks| && blocks[k].id == dep;
    StatusHolds(blocks, k);
    TodoGraphHas(blocks, k);
    TodoGraphHas(blocks, i);
  }

  lemma {:induction false} WaitingWalk(blocks: seq<Block>, i: nat, n: nat) returns (p: seq<string>)
    requires DistinctIds(blocks) && OnlyTodoOrDone(blocks) && i < |blocks| && blocks[i].status == "TODO"
    requires forall j, dep :: 0 <= j < |blocks| && blocks[j].status == "TODO" && dep in blocks[j].depends ==>
      Known(blocks, dep)
    requires forall j :: 0 <= j < |blocks| ==> !Eligible(blocks, j)
    ensures |p| == n + 1 && p[0] == blocks[i].id && Walk(TodoGraph(blocks), p)
    ensures forall k :: 0 <= k < |p| ==> p[k] in TodoGraph(blocks)
    decreases n
  {
    TodoGraphHas(blocks, i);
    if n == 0 { return [blocks[i].id]; }
    var dep := WaitsFor(blocks, i);
    TodoGraphNames(blocks, dep);
    var k :| 0 <= k < |blocks| && blocks[k].id == dep && blocks[k].status == "TODO";
    var rest := WaitingWalk(blocks, k, n - 1);
    p := [blocks[i].id] + rest;
    forall m | 0 <= m < |p| - 1 ensures Edge(TodoGraph(blocks), p[m], p[m + 1]) {
      if m > 0 { assert Edge(TodoGraph(blocks), rest[m - 1], rest[m]); }
    }
  }

  /** Nothing is offered only when nothing is left to do. */
  lemma NeverStuck(blocks: seq<Block>)
    requires DistinctIds(blocks) && OnlyTodoOrDone(blocks) && Runnable(blocks)
    requires NextFrom(blocks, 0).None?
    ensures AllDone(blocks)
  {
    if i :| 0 <= i < |blocks| && blocks[i].status == "TODO" {
      var p := WaitingWalk(blocks, i, |TodoGraph(blocks).Keys|);
      var closed := LongWalkCloses(TodoGraph(blocks), p);
    }
  }

  lemma MarkedTodoGraph(blocks: seq<Block>, i: nat, id: string)
    requires DistinctIds(blocks) && i < |blocks| && blocks[i].status == "TODO"
    ensures id in TodoGraph(MarkDone(blocks, i)) <==> id in TodoGraph(blocks) && id != blocks[i].id
    ensures id in TodoGraph(MarkDone(blocks, i)) ==> TodoGraph(MarkDone(blocks, i))[id] == TodoGraph(blocks)[id]
  {
    var marked := MarkDone(blocks, i);
    if id in TodoGraph(marked) {
      TodoGraphNames(marked, id);
      var k :| 0 <= k < |marked| && marked[k].id == id && marked[k].status == "TODO";
      TodoGraphHas(marked, k);
      TodoGraphHas(blocks, k);
    } else if id in TodoGraph(blocks) {
      TodoGraphNames(blocks, id);
      var k :| 0 <= k < |blocks| && blocks[k].id == id && blocks[k].status == "TODO";
      TodoGraphHas(marked, k);
    }
  }

  lemma MarkingKeepsRunnable(blocks: seq<Block>, i: nat)
    requires DistinctIds(blocks) && i < |blocks| && blocks[i].status == "TODO" && Runnable(blocks)
    ensures Runnable(MarkDone(blocks, i))
  {
    var marked := MarkDone(blocks, i);
    forall id | id in TodoGraph(marked)
      ensures id in TodoGraph(blocks) && TodoGraph(marked)[id] == TodoGraph(blocks)[id]
    {
      MarkedTodoGraph(blocks, i, id);
    }
    SubgraphIsAcyclic(TodoGraph(blocks), TodoGraph(marked));
    forall j, dep | 0 <= j < |marked| && marked[j].status == "TODO" && dep in marked[j].depends
      ensures Known(marked, dep)
    {
      assert Known(blocks, dep);
      var k :| 0 <= k < |blocks| && blocks[k].id == dep;
      assert marked[k].id == dep;
    }
  }

  /** An eligible block is on no cycle, so adding it back to the blocks to do keeps them runnable. */
  lemma EligibleKeepsRunnable(blocks: seq<Block>, i: nat)
    requires DistinctIds(blocks) && i < |blocks| && Eligible(blocks, i) && Runnable(MarkDone(blocks, i))
    ensures Runnable(blocks)
  {
    var marked := MarkDone(blocks, i);
    forall j, dep | 0 <= j < |blocks| && blocks[j].status == "TODO" && dep in blocks[j].depends
      ensures Known(blocks, dep)
    {
      if j == i {
        UnknownHasNoStatus(blocks, dep);
      } else {
        assert marked[j].status == "TODO";
        assert Known(marked, dep);
        var k :| 0 <= k < |marked| && marked[k].id == dep;
        assert blocks[k].id == dep;
      }
    }
    WalksStayAmongTheRest(blocks, i);
  }

  lemma WalkStaysAmongTheRest(blocks: seq<Block>, i: nat, p: seq<string>)
    requires DistinctIds(blocks) && i < |blocks| && Eligible(blocks, i)
    requires ClosedWalk(TodoGraph(blocks), p)
    ensures ClosedWalk(TodoGraph(MarkDone(blocks, i)), p)
  {
    hide Eligible;
    WalkAvoidsEligible(blocks, i, p);
    EligibleIsTodo(blocks, i);
    var rest := TodoGraph(MarkDone(blocks, i));
    forall m | 0 <= m < |p| - 1 ensures Edge(rest, p[m], p[m + 1]) {
      assert Edge(TodoGraph(blocks), p[m], p[m + 1]);
      MarkedTodoGraph(blocks, i, p[m]);
      MarkedTodoGraph(blocks, i, p[m + 1]);
    }
  }

  lemma EligibleIsTodo(blocks: seq<Block>, i: nat)
    requires i < |blocks| && Eligible(blocks, i)
    ensures blocks[i].status == "TODO"
  {
  }

  lemma WalksStayAmongTheRest(blocks: seq<Block>, i: nat)
    requires DistinctIds(blocks) && i < |blocks| && Eligible(blocks, i)
    ensures forall p :: ClosedWalk(TodoGraph(blocks), p) ==> ClosedWalk(TodoGraph(MarkDone(blocks, i)), p)
  {
    forall p | ClosedWalk(TodoGraph(blocks), p) ensures ClosedWalk(TodoGraph(MarkDone(blocks, i)), p) {
      WalkStaysAmongTheRest(blocks, i, p);
    }
  }

  lemma WalkAvoidsEligible(blocks: seq<Block>, i: nat, p: seq<string>)
    requires DistinctIds(blocks) && i < |blocks| && Eligible(blocks, i)
    requires ClosedWalk(TodoGraph(blocks), p)
    ensures forall m :: 0 <= m < |p| ==> p[m] != blocks[i].id
  {
    var g := TodoGraph(blocks);
    forall m | 0 <= m < |p| - 1 ensures p[m] != blocks[i].id {
      assert Edge(g, p[m], p[m + 1]);
      if p[m] == blocks[i].id {
        TodoGraphHas(blocks, i);
        TodoGraphNames(blocks, p[m + 1]);
        var k :| 0 <= k < |blocks| && blocks[k].id == p[m + 1] && blocks[k].status == "TODO";
        StatusHolds(blocks, k);
      }
    }
  }

  predicate InRange(picks: seq<nat>, n: nat) {
    forall k :: 0 <= k < |picks| ==> picks[k] < n
  }

  lemma {:induction false} PicksInRange(init: Initiative)
    ensures InRange(Picks(init), |init.blocks|)
    decreases CountTodo(init.blocks)
  {
    var next := NextBlock(init);
    if next.Some? {
      MarkingCountsDown(init.blocks, next.value);
      PicksInRange(init.(blocks := MarkDone(init.blocks, next.value)));
    }
  }

  lemma {:induction false} NothingTodoCountsZero(blocks: seq<Block>)
    requires AllDone(blocks)
    ensures CountTodo(blocks) == 0
  {
    if blocks != [] { NothingTodoCountsZero(blocks[..|blocks| - 1]); }
  }

  /**
   * Working an open initiative of TODO and DONE blocks to its end finishes every block exactly when the
   * blocks to do have known prerequisites and no cycle among them, and then in one pick per block to do.
   */
  lemma {:induction false} FinishesExactlyWhenRunnable(init: Initiative)
    requires !init.closed && !init.archived && DistinctIds(init.blocks) && OnlyTodoOrDone(init.blocks)
    ensures InRange(Picks(init), |init.blocks|)
    ensures AllDone(Worked(init, Picks(init)).blocks) <==> Runnable(init.blocks)
    ensures Runnable(init.blocks) ==> |Picks(init)| == CountTodo(init.blocks)
    decreases CountTodo(init.blocks)
  {
    hide Runnable, Eligible;
    PicksInRange(init);
    var next := NextBlock(init);
    match next {
      case None =>
        if Runnable(init.blocks) {
          NeverStuck(init.blocks);
          NothingTodoCountsZero(init.blocks);
        }
        if AllDone(init.blocks) { DoneIsRunnable(init.blocks); }
      case Some(i) =>
        NextIsTodo(init.blocks, i);
        var rest := init.(blocks := MarkDone(init.blocks, i));
        MarkingCountsDown(init.blocks, i);
        FinishesExactlyWhenRunnable(rest);
        assert Picks(init)[1..] == Picks(rest);
        if Runnable(init.blocks) { MarkingKeepsRunnable(init.blocks, i); }
        if Runnable(rest.blocks) { EligibleKeepsRunnable(init.blocks, i); }
    }
  }

  lemma NextIsTodo(blocks: seq<Block>, i: nat)
    requires NextFrom(blocks, 0) == Some(i)
    ensures i < |blocks| && Eligible(blocks, i) && blocks[i].status == "TODO"
  {
  }

  lemma DoneIsRunnable(blocks: seq<Block>)
    requires AllDone(blocks)
    ensures Runnable(blocks)
  {
    forall p ensures !ClosedWalk(TodoGraph(blocks), p) {
      if ClosedWalk(TodoGraph(blocks), p) {
        assert Edge(TodoGraph(blocks), p[0], p[1]);
        TodoGraphNames(blocks, p[0]);
      }
    }
  }

  /** A current-schema initiative that validates is runnable. */
  lemma InOrderIsRunnable(init: Initiative)
    requires InOrder(init) && !init.isLegacy
    ensures Runnable(init.blocks)
  {
    forall id | id in TodoGraph(init.blocks)
      ensures id in GraphOf(init.blocks) && TodoGraph(init.blocks)[id] == GraphOf(init.blocks)[id]
    {
      TodoGraphNames(init.blocks, id);
      var k :| 0 <= k < |init.blocks| && init.blocks[k].id == id && init.blocks[k].status == "TODO";
      TodoGraphHas(init.blocks, k);
      GraphHolds(init.blocks, k);
    }
    SubgraphIsAcyclic(GraphOf(init.blocks), TodoGraph(init.blocks));
    forall i, dep | 0 <= i < |init.blocks| && init.blocks[i].status == "TODO" && dep in init.blocks[i].depends
      ensures Known(init.blocks, dep)
    {
      assert BlockInOrder(init.blocks[i], init.statusTable, Ids(init.blocks));
      assert dep in Ids(init.blocks);
    }
  }

  /**
   * Validation makes the greedy chooser a complete execution: it finishes every block, in one pick per
   * block to do, unless the initiative sits in the archive with work left.
   */
  lemma ValidatedInitiativeFinishes(init: Initiative)
    requires InOrder(init) && !init.isLegacy && OnlyTodoOrDone(init.blocks)
    ensures InRange(Picks(init), |init.blocks|)
    ensures AllDone(Worked(init, Picks(init)).blocks) <==> !init.archived || AllDone(init.blocks)
    ensures !init.archived ==> |Picks(init)| == CountTodo(init.blocks)
  {
    hide Runnable, Acyclic, BlockInOrder, SpecificationCovered;
    InOrderIsRunnable(init);
    if !init.closed && !init.archived {
      FinishesExactlyWhenRunnable(init);
    } else {
      assert Picks(init) == [];
      if init.closed { NothingTodoCountsZero(init.blocks); }
    }
  }

  /** No block is picked before its prerequisites: each one was done at the start or picked earlier. */
  lemma {:induction false} PrerequisitesComeFirst(init: Initiative, k: nat, dep: string)
    requires InRange(Picks(init), |init.blocks|) && k < |Picks(init)|
    requires dep in init.blocks[Picks(init)[k]].depends
    ensures StatusOf(init.blocks, dep) == Some("DONE")
      || exists j :: 0 <= j < k && init.blocks[Picks(init)[j]].id == dep
    decreases k
  {
    hide Eligible, StatusOf, MarkDone, NextFrom;
    var i := NextBlock(init).value;
    NextIsTodo(init.blocks, i);
    var rest := init.(blocks := MarkDone(init.blocks, i));
    MarkingCountsDown(init.blocks, i);
    assert Picks(init) == [i] + Picks(rest);
    if k == 0 {
      EligibleIsReady(init.blocks, i, dep);
    } else {
      PicksInRange(rest);
      MarkedBlocks(init.blocks, i);
      assert Picks(rest)[k - 1] == Picks(init)[k];
      PrerequisitesComeFirst(rest, k - 1, dep);
      if j :| 0 <= j < k - 1 && rest.blocks[Picks(rest)[j]].id == dep {
        assert init.blocks[Picks(init)[j + 1]].id == dep;
      } else if dep == init.blocks[i].id {
        assert init.blocks[Picks(init)[0]].id == dep;
      } else {
        MarkedStatus(init.blocks, i, dep);
      }
    }
  }

  lemma EligibleIsReady(blocks: seq<Block>, i: nat, dep: string)
    requires i < |blocks| && Eligible(blocks, i) && dep in blocks[i].depends
    ensures StatusOf(blocks, dep) == Some("DONE")
  {
  }

  lemma MarkedBlocks(blocks: seq<Block>, i: nat)
    requires i < |blocks|
    ensures |MarkDone(blocks, i)| == |blocks|
    ensures forall k :: 0 <= k < |blocks| ==>
      MarkDone(blocks, i)[k].id == blocks[k].id && MarkDone(blocks, i)[k].depends == blocks[k].depends
  {
  }

  lemma {:induction false} MarkedStatus(blocks: seq<Block>, i: nat, id: string)
    requires i < |blocks| && id != blocks[i].id
    ensures StatusOf(MarkDone(blocks, i), id) == StatusOf(blocks, id)
    decreases |blocks|
  {
    var last := |blocks| - 1;
    var marked := MarkDone(blocks, i);
    if i == last {
      assert marked[..last] == blocks[..last];
    } else if blocks[last].id != id {
      assert marked[..last] == MarkDone(blocks[..last], i);
      MarkedStatus(blocks[..last], i, id);
    }
  }

  // ----- The chooser and the closure, as a reader would put them -----

  /** The block still to do whose prerequisites were all done. */
  predicate Ready(blocks: seq<Block>, i: nat)
    requires i < |blocks|
  {
    blocks[i].status == "TODO" && forall dep :: dep in blocks[i].depends ==> StatusOf(blocks, dep) == Some("DONE")
  }

  /** The next block is the first ready one of an initiative that is neither closed nor archived. */
  lemma {:induction false} NextBlockExactly(init: Initiative, i: nat)
    ensures NextBlock(init) == Some(i) <==>
      && !init.closed && !init.archived && i < |init.blocks| && Ready(init.blocks, i)
      && forall j :: 0 <= j < i ==> !Ready(init.blocks, j)
    ensures NextBlock(init).None? <==>
      init.closed || init.archived || forall j :: 0 <= j < |init.blocks| ==> !Ready(init.blocks, j)
  {
    assert forall j :: 0 <= j < |init.blocks| ==> (Ready(init.blocks, j) <==> Eligible(init.blocks, j));
  }

  /** A closed initiative is in order exactly when it has blocks, all done with their reports, and both records. */
  lemma {:induction false} ClosureExactly(init: Initiative)
    ensures ClosureInOrder(init) <==>
      !init.closed
      || (&& |init.blocks| >= 1 && init.closureRecord && init.adoptionRecord
          && forall block :: block in init.blocks ==> block.status == "DONE" && block.files.reportExists)
  {
    assert forall i :: 0 <= i < |init.blocks| ==> init.blocks[i] in init.blocks;
  }

  /** The later of two blocks with one identity decides its status. */
  lemma {:induction false} StatusIsTheLast(blocks: seq<Block>, id: string, i: nat)
    requires i < |blocks| && blocks[i].id == id && forall j :: i < j < |blocks| ==> blocks[j].id != id
    ensures StatusOf(blocks, id) == Some(blocks[i].status)
    decreases |blocks|
  {
    if i < |blocks| - 1 { StatusIsTheLast(blocks[..|blocks| - 1], id, i); }
  }
}
