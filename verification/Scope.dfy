// ScopeBuilder: who may see and change a step's output. Go maps, slices and byte
// slices are objects on the heap, so that sharing them is visible; Json is the
// value an object graph stands for, and deep copies are what keeps builders,
// their branches and what they hand out apart.
module Scope {
  import opened Wrappers

  datatype Json =
    | Null
    | Scalar(text: string)
    | Bytes(content: seq<bv8>)
    | List(items: seq<Json>)
    | Object(fields: map<string, Json>)

  // A Go `any`: nil, a value type, or a reference.
  datatype Value =
    | Nil
    | Plain(text: string)
    | RawRef(raw: array?<bv8>)
    | ListRef(list: array<Value>)
    | MapRef(obj: GoMap?)

  class GoMap {
    var entries: map<string, Value>

    constructor (entries: map<string, Value>)
      ensures this.entries == entries
    {
      this.entries := entries;
    }
  }

  // v stands for t, and everything reachable from v lies in repr. A nil map
  // reads as an empty one, a nil byte slice as nil.
  ghost predicate Represents(v: Value, t: Json, repr: set<object>)
    reads repr
    decreases t
  {
    match t
    case Null => v == Nil || v == RawRef(null)
    case Scalar(text) => v == Plain(text)
    case Bytes(content) => v.RawRef? && v.raw != null && v.raw in repr && v.raw[..] == content
    case List(items) =>
      && v.ListRef? && v.list in repr && v.list.Length == |items|
      && forall i | 0 <= i < |items| :: Represents(v.list[i], items[i], repr)
    case Object(fields) =>
      && v.MapRef?
      && (v.obj == null ==> fields == map[])
      && (v.obj != null ==>
            && v.obj in repr && v.obj.entries.Keys == fields.Keys
            && forall k | k in fields :: Represents(v.obj.entries[k], fields[k], repr))
  }

  // The entries of a map, one by one.
  ghost predicate Holds(entries: map<string, Value>, trees: map<string, Json>, repr: set<object>)
    reads repr
  {
    && entries.Keys == trees.Keys
    && forall k | k in trees :: Represents(entries[k], trees[k], repr)
  }

  lemma {:induction false} RepresentsInMore(v: Value, t: Json, repr: set<object>, more: set<object>)
    requires Represents(v, t, repr) && repr <= more
    ensures Represents(v, t, more)
    decreases t
  {
    match t
    case List(items) =>
      forall i | 0 <= i < |items| ensures Represents(v.list[i], items[i], more) {
        RepresentsInMore(v.list[i], items[i], repr, more);
      }
    case Object(fields) =>
      if v.obj != null {
        forall k | k in fields ensures Represents(v.obj.entries[k], fields[k], more) {
          RepresentsInMore(v.obj.entries[k], fields[k], repr, more);
        }
      }
    case _ =>
  }

  lemma HoldsInMore(entries: map<string, Value>, trees: map<string, Json>, repr: set<object>, more: set<object>)
    requires Holds(entries, trees, repr) && repr <= more
    ensures Holds(entries, trees, more)
  {
    forall k | k in trees ensures Represents(entries[k], trees[k], more) {
      RepresentsInMore(entries[k], trees[k], repr, more);
    }
  }

  // A reference graph stands for one value only.
  lemma {:induction false} RepresentsOne(v: Value, t: Json, u: Json, repr: set<object>, repr': set<object>)
    requires Represents(v, t, repr) && Represents(v, u, repr')
    ensures t == u
    decreases t
  {
    match t
    case List(items) =>
      forall i | 0 <= i < |items| ensures items[i] == u.items[i] {
        RepresentsOne(v.list[i], items[i], u.items[i], repr, repr');
      }
      assert items == u.items;
    case Object(fields) =>
      if v.obj != null {
        forall k | k in fields ensures fields[k] == u.fields[k] {
          RepresentsOne(v.obj.entries[k], fields[k], u.fields[k], repr, repr');
        }
      }
      assert fields == u.fields;
    case _ =>
  }

  // ----- Deep copies -----

  // The copy stands for the same value and shares no object with anything that
  // existed before.
  method DeepCopyAny(v: Value, ghost t: Json, ghost repr: set<object>) returns (c: Value, ghost owned: set<object>)
    requires Represents(v, t, repr)
    ensures fresh(owned) && Represents(c, t, owned)
    decreases t, 2
  {
    owned := {};
    match v
    case MapRef(obj) =>
      if obj == null {
        return v, {};
      }
      var entries;
      entries, owned := DeepCopyMap(obj.entries, t, repr);
      var cp := new GoMap(entries);
      HoldsInMore(entries, t.fields, owned, owned + {cp});
      return MapRef(cp), owned + {cp};
    case ListRef(list) =>
      c, owned := DeepCopyList(list, t, repr);
    case RawRef(raw) =>
      if raw == null {
        return Nil, {};
      }
      var cp := new bv8[raw.Length](i requires 0 <= i < raw.Length reads raw => raw[i]);
      assert cp[..] == raw[..];
      return RawRef(cp), {cp};
    case _ =>
      return v, {};
  }

  method DeepCopyMap(m: map<string, Value>, ghost t: Json, ghost repr: set<object>)
    returns (cp: map<string, Value>, ghost owned: set<object>)
    requires t.Object? && Holds(m, t.fields, repr)
    ensures fresh(owned) && Holds(cp, t.fields, owned)
    decreases t, 1
  {
    cp, owned := map[], {};
    var todo := m.Keys;
    while todo != {}
      invariant todo <= m.Keys && cp.Keys == m.Keys - todo
      invariant fresh(owned)
      invariant forall k | k in cp :: Represents(cp[k], t.fields[k], owned)
    {
      var k :| k in todo;
      var v, more := DeepCopyAny(m[k], t.fields[k], repr);
      forall j | j in cp ensures Represents(cp[j], t.fields[j], owned + more) {
        RepresentsInMore(cp[j], t.fields[j], owned, owned + more);
      }
      RepresentsInMore(v, t.fields[k], more, owned + more);
      cp := cp[k := v];
      owned := owned + more;
      todo := todo - {k};
    }
  }

  method DeepCopyList(list: array<Value>, ghost t: Json, ghost repr: set<object>)
    returns (c: Value, ghost owned: set<object>)
    requires t.List? && Represents(ListRef(list), t, repr)
    ensures fresh(owned) && Represents(c, t, owned)
    decreases t, 0
  {
    var cp := new Value[list.Length](i => Nil);
    owned := {};
    for i := 0 to list.Length
      invariant fresh(owned) && cp !in owned
      invariant forall j | 0 <= j < i :: Represents(cp[j], t.items[j], owned)
    {
      var v, more := DeepCopyAny(list[i], t.items[i], repr);
      forall j | 0 <= j < i ensures Represents(cp[j], t.items[j], owned + more) {
        RepresentsInMore(cp[j], t.items[j], owned, owned + more);
      }
      RepresentsInMore(v, t.items[i], more, owned + more);
      owned := owned + more;
      cp[i] := v;
    }
    forall j | 0 <= j < list.Length ensures Represents(cp[j], t.items[j], owned + {cp}) {
      RepresentsInMore(cp[j], t.items[j], owned, owned + {cp});
    }
    c, owned := ListRef(cp), owned + {cp};
  }

  // ----- Step outputs as values -----

  type Outputs = map<string, Json>

  // What AddStepOutput does to the outputs. The first registration stands.
  function WithOutput(outputs: Outputs, id: string, t: Json): Outputs {
    if id in outputs then outputs else outputs[id := t]
  }

  // What MergeBranchOutputs does: new ids only.
  function Merged(outputs: Outputs, branch: Outputs): Outputs {
    branch + outputs
  }

  // The part of a branch's outputs outside todo.
  ghost function Without(branch: Outputs, todo: set<string>): Outputs {
    map id | id in branch && id !in todo :: branch[id]
  }

  lemma MergedStep(outputs: Outputs, branch: Outputs, todo: set<string>, id: string)
    requires id in todo && id in branch
    ensures WithOutput(Merged(outputs, Without(branch, todo)), id, branch[id])
         == Merged(outputs, Without(branch, todo - {id}))
  {
  }

  lemma MergedAll(outputs: Outputs, branch: Outputs)
    ensures Merged(outputs, Without(branch, branch.Keys)) == outputs
    ensures Without(branch, {}) == branch
  {
  }

  // ----- The builder -----

  // The steps map. Builders made by WithLoopVars share it.
  class StepTable {
    var steps: map<string, Value>
    ghost var outputs: Outputs
    ghost var owned: set<object>

    constructor (steps: map<string, Value>, ghost outputs: Outputs, ghost owned: set<object>)
      requires Holds(steps, outputs, owned)
      ensures this.steps == steps && this.outputs == outputs && this.owned == owned
    {
      this.steps, this.outputs, this.owned := steps, outputs, owned;
    }

    ghost predicate Valid()
      reads this, owned
    {
      && this !in owned
      && Holds(steps, outputs, owned)
    }

    ghost function Footprint(): set<object>
      reads this
    {
      {this} + owned
    }
  }

  datatype LoopVars = LoopVars(item: Value, index: int)

  datatype Parsed = Empty | Malformed | Parsed(value: Value)

  // The JSON value of an output: none at all counts as null.
  ghost predicate Denotes(output: Parsed, t: Json, repr: set<object>)
    reads repr
  {
    && (output.Empty? ==> t == Null)
    && (output.Parsed? ==> Represents(output.value, t, repr))
  }

  // What Build returns.
  datatype InterpolationScope = InterpolationScope(
    steps: GoMap, inputs: GoMap?, workflow: GoMap?, context: GoMap?, loop: Option<LoopVars>)

  class ScopeBuilder {
    const table: StepTable
    const inputs: GoMap?
    const workflow: GoMap?
    const context: GoMap?
    const loop: Option<LoopVars>
    // What the constants stand for, and the objects that holds it: written once,
    // before the builder exists.
    ghost const frozen: seq<Json>
    ghost const frozenRepr: set<object>

    // Go's composite literal.
    constructor (table: StepTable, inputs: GoMap?, workflow: GoMap?, context: GoMap?, loop: Option<LoopVars>,
                 ghost frozen: seq<Json>, ghost frozenRepr: set<object>)
      ensures this.table == table && this.inputs == inputs && this.workflow == workflow && this.context == context
      ensures this.loop == loop && this.frozen == frozen && this.frozenRepr == frozenRepr
    {
      this.table, this.inputs, this.workflow, this.context := table, inputs, workflow, context;
      this.loop, this.frozen, this.frozenRepr := loop, frozen, frozenRepr;
    }

    static method NewScopeBuilder(inputs: GoMap?, workflow: GoMap?, context: GoMap?,
                                  ghost trees: seq<Json>, ghost repr: set<object>) returns (sb: ScopeBuilder)
      requires |trees| == 3
      requires Represents(MapRef(inputs), trees[0], repr)
      requires Represents(MapRef(workflow), trees[1], repr)
      requires Represents(MapRef(context), trees[2], repr)
      ensures sb.Valid() && fresh(sb) && fresh(sb.Footprint()) && fresh(sb.frozenRepr)
      ensures sb.table.outputs == map[] && sb.frozen == trees + [Null]
    {
      var i, w, c, all := Freeze(inputs, workflow, context, trees, repr);
      var table := new StepTable(map[], map[], {});
      sb := new ScopeBuilder(table, i, w, c, None, trees + [Null], all);
    }

    static method Freeze(inputs: GoMap?, workflow: GoMap?, context: GoMap?,
                         ghost trees: seq<Json>, ghost repr: set<object>)
      returns (i: GoMap?, w: GoMap?, c: GoMap?, ghost all: set<object>)
      requires |trees| == 3
      requires Represents(MapRef(inputs), trees[0], repr)
      requires Represents(MapRef(workflow), trees[1], repr)
      requires Represents(MapRef(context), trees[2], repr)
      ensures fresh(all)
      ensures Represents(MapRef(i), trees[0], all)
      ensures Represents(MapRef(w), trees[1], all)
      ensures Represents(MapRef(c), trees[2], all)
    {
      var vi, ownI := DeepCopyAny(MapRef(inputs), trees[0], repr);
      var vw, ownW := DeepCopyAny(MapRef(workflow), trees[1], repr);
      var vc, ownC := DeepCopyAny(MapRef(context), trees[2], repr);
      all := ownI + ownW + ownC;
      RepresentsInMore(vi, trees[0], ownI, all);
      RepresentsInMore(vw, trees[1], ownW, all);
      RepresentsInMore(vc, trees[2], ownC, all);
      i, w, c := vi.obj, vw.obj, vc.obj;
    }

    ghost predicate Valid()
      reads table, table.owned, frozenRepr
    {
      && table.Valid()
      && table.Footprint() !! frozenRepr
      && Frozen()
    }

    ghost predicate Frozen()
      reads frozenRepr
    {
      && |frozen| == 4
      && Represents(MapRef(inputs), frozen[0], frozenRepr)
      && Represents(MapRef(workflow), frozen[1], frozenRepr)
      && Represents(MapRef(context), frozen[2], frozenRepr)
      && (loop.Some? ==> Represents(loop.value.item, frozen[3], frozenRepr))
    }

    ghost function Footprint(): set<object>
      reads table
    {
      table.Footprint()
    }

    // The parsed output may be reachable from anywhere: what is stored is a copy.
    method AddStepOutput(stepID: string, output: Parsed, ghost t: Json, ghost repr: set<object>) returns (ok: bool)
      requires Valid()
      requires Denotes(output, t, repr)
      modifies table
      ensures Valid() && fresh(Footprint() - old(Footprint()))
      ensures ok <==> stepID !in old(table.outputs) && output != Malformed
      ensures table.outputs ==
              if output == Malformed then old(table.outputs) else WithOutput(old(table.outputs), stepID, t)
    {
      if stepID in table.steps {
        return false;
      }
      match output
      case Empty =>
        table.steps := table.steps[stepID := Nil];
        table.outputs := table.outputs[stepID := Null];
        return true;
      case Malformed =>
        return false;
      case Parsed(value) =>
        StoreCopy(stepID, value, t, repr);
        return true;
    }

    // sb.steps[id] = deepCopyAny(v).
    method StoreCopy(id: string, v: Value, ghost t: Json, ghost repr: set<object>)
      requires Valid() && id !in table.steps && Represents(v, t, repr)
      modifies table
      ensures Valid() && fresh(table.owned - old(table.owned))
      ensures table.outputs == old(table.outputs)[id := t]
    {
      var cp, own := DeepCopyAny(v, t, repr);
      HoldsInMore(table.steps, table.outputs, table.owned, table.owned + own);
      RepresentsInMore(cp, t, own, table.owned + own);
      table.steps := table.steps[id := cp];
      table.outputs := table.outputs[id := t];
      table.owned := table.owned + own;
    }

    // The outputs are copied; the three constant maps are handed out as they are.
    method Build() returns (scope: InterpolationScope, ghost own: set<object>)
      requires Valid()
      ensures fresh(own) && Represents(MapRef(scope.steps), Object(table.outputs), own)
      ensures scope.inputs == inputs && scope.workflow == workflow
      ensures context != null ==> scope.context == context
      ensures context == null && loop.None? ==> scope.context == null
      ensures context == null && loop.Some? ==> scope.context in own && scope.context.entries == map[]
      ensures scope.loop.Some? <==> loop.Some?
      ensures loop.Some? ==> scope.loop.value.index == loop.value.index
      ensures loop.Some? ==> Represents(scope.loop.value.item, frozen[3], own)
    {
      var steps, ownS := StepOutputs();
      var ctx := context;
      own := ownS;
      var vars := None;
      if loop.Some? {
        if ctx == null {
          ctx := new GoMap(map[]);
        }
        var item, ownI := DeepCopyAny(loop.value.item, frozen[3], frozenRepr);
        own := ownS + ownI + (if context == null then {ctx} else {});
        RepresentsInMore(item, frozen[3], ownI, own);
        RepresentsInMore(MapRef(steps), Object(table.outputs), ownS, own);
        vars := Some(LoopVars(item, loop.value.index));
      }
      scope := InterpolationScope(steps, inputs, workflow, ctx, vars);
    }

    // The child shares the steps map and has its own loop variables.
    method WithLoopVars(item: Value, index: int, ghost t: Json, ghost repr: set<object>) returns (child: ScopeBuilder)
      requires Valid() && Represents(item, t, repr)
      ensures fresh(child) && child.Valid() && child.table == table
      ensures child.frozen == frozen[..3] + [t] && child.loop.Some? && child.loop.value.index == index
      ensures fresh(child.frozenRepr - frozenRepr)
    {
      var cp, own := DeepCopyAny(item, t, repr);
      ghost var all := frozenRepr + own;
      RepresentsInMore(cp, t, own, all);
      RepresentsInMore(MapRef(inputs), frozen[0], frozenRepr, all);
      RepresentsInMore(MapRef(workflow), frozen[1], frozenRepr, all);
      RepresentsInMore(MapRef(context), frozen[2], frozenRepr, all);
      child := new ScopeBuilder(table, inputs, workflow, context, Some(LoopVars(cp, index)), frozen[..3] + [t], all);
    }

    // The branch starts from the same outputs and shares no steps map or output
    // with its parent.
    method ForParallelBranch() returns (branch: ScopeBuilder)
      requires Valid()
      ensures fresh(branch) && branch.Valid() && fresh(branch.Footprint())
      ensures branch.table.outputs == table.outputs && branch.loop == None
      ensures branch.frozen == frozen[..3] + [Null] && branch.frozenRepr == frozenRepr
    {
      var steps, own := DeepCopyMap(table.steps, Object(table.outputs), table.owned);
      var cp := new StepTable(steps, table.outputs, own);
      branch := new ScopeBuilder(cp, inputs, workflow, context, None, frozen[..3] + [Null], frozenRepr);
    }

    // Two builders that share their steps map, or nothing that can change.
    ghost predicate Apart(other: ScopeBuilder)
      reads table, other.table
    {
      || other.table == table
      || (other.Footprint() !! Footprint() && other.frozenRepr !! Footprint() && frozenRepr !! other.Footprint())
    }

    // Merging goes through the branch's outputs in any order.
    method MergeBranchOutputs(branch: ScopeBuilder)
      requires Valid() && branch.Valid()
      requires Apart(branch)
      modifies table
      ensures Valid() && branch.Valid() && fresh(Footprint() - old(Footprint()))
      ensures table.outputs == Merged(old(table.outputs), old(branch.table.outputs))
    {
      var todo := branch.table.steps.Keys;
      ghost var given, had := branch.table.outputs, table.outputs;
      MergedAll(had, given);
      while todo != {}
        invariant todo <= given.Keys
        invariant Valid() && branch.Valid() && fresh(Footprint() - old(Footprint()))
        invariant Apart(branch)
        invariant branch.table.outputs == given
        invariant table.outputs == Merged(had, Without(given, todo))
      {
        var stepID :| stepID in todo;
        MergeOne(stepID, branch);
        MergedStep(had, given, todo, stepID);
        todo := todo - {stepID};
      }
    }

    // One turn of that loop.
    method MergeOne(stepID: string, branch: ScopeBuilder)
      requires Valid() && branch.Valid() && stepID in branch.table.outputs
      requires Apart(branch)
      modifies table
      ensures Valid() && branch.Valid() && fresh(Footprint() - old(Footprint()))
      ensures Apart(branch)
      ensures branch.table.outputs == old(branch.table.outputs)
      ensures table.outputs == WithOutput(old(table.outputs), stepID, branch.table.outputs[stepID])
    {
      if stepID !in table.steps {
        StoreCopy(stepID, branch.table.steps[stepID], branch.table.outputs[stepID], branch.table.owned);
      }
    }

    // The caller gets its own copy.
    method StepOutputs() returns (m: GoMap, ghost own: set<object>)
      requires Valid()
      ensures fresh(own) && Represents(MapRef(m), Object(table.outputs), own)
    {
      var entries, ownE := DeepCopyMap(table.steps, Object(table.outputs), table.owned);
      m := new GoMap(entries);
      own := ownE + {m};
      HoldsInMore(entries, table.outputs, ownE, own);
    }
  }

  // ----- Trees of builders, as values -----

  datatype Op =
    | Add(b: nat, id: string, output: Parsed, t: Json)
    | Fork(b: nat)
    | Merge(b: nat, branch: nat)
    // A caller asks for a builder's outputs and keeps what it is given, nested
    // maps and lists included; at any later time it overwrites one of those.
    | Ask(b: nat)
    | ScribbleMap(kept: nat, entries: map<string, Value>)
    | ScribbleList(kept: nat, i: nat, v: Value)

  // The outputs of every builder after an operation; one on a builder that does
  // not exist does nothing.
  function Effect(forest: seq<Outputs>, op: Op): (r: seq<Outputs>)
    ensures |forest| <= |r|
  {
    match op
    case Add(b, id, output, t) =>
      if b >= |forest| || output == Malformed then forest else forest[b := WithOutput(forest[b], id, t)]
    case Fork(b) => if b >= |forest| then forest else forest + [forest[b]]
    case Merge(b, branch) =>
      if b >= |forest| || branch >= |forest| then forest else forest[b := Merged(forest[b], forest[branch])]
    case _ => forest
  }

  function Run(forest: seq<Outputs>, ops: seq<Op>): (r: seq<Outputs>)
    ensures |forest| <= |r|
    decreases |ops|
  {
    if ops == [] then forest else Run(Effect(forest, ops[0]), ops[1..])
  }

  // A registered output keeps its value, whatever happens in the whole tree.
  lemma {:induction false} OutputsAreForever(forest: seq<Outputs>, ops: seq<Op>, b: nat, id: string)
    requires b < |forest| && id in forest[b]
    ensures id in Run(forest, ops)[b] && Run(forest, ops)[b][id] == forest[b][id]
    decreases |ops|
  {
    if ops != [] {
      OutputsAreForever(Effect(forest, ops[0]), ops[1..], b, id);
    }
  }

  predicate Writes(op: Op, b: nat) {
    (op.Add? || op.Merge?) && op.b == b
  }

  // Only its own additions and merges into it change what a builder sees.
  lemma {:induction false} OthersAreInvisible(forest: seq<Outputs>, ops: seq<Op>, b: nat)
    requires b < |forest| && forall op | op in ops :: !Writes(op, b)
    ensures Run(forest, ops)[b] == forest[b]
    decreases |ops|
  {
    if ops != [] {
      assert ops[0] in ops && !Writes(ops[0], b);
      forall op | op in ops[1..] ensures !Writes(op, b) {
        assert op in ops;
      }
      OthersAreInvisible(Effect(forest, ops[0]), ops[1..], b);
    }
  }

  // ----- The order of merges -----

  function MergeAll(outputs: Outputs, branches: seq<Outputs>): Outputs
    decreases |branches|
  {
    if branches == [] then outputs else MergeAll(Merged(outputs, branches[0]), branches[1..])
  }

  // Branches that both add an id agree on it. Branches with disjoint new ids do.
  ghost predicate Agree(outputs: Outputs, branches: seq<Outputs>) {
    forall i, j, id | 0 <= i < |branches| && 0 <= j < |branches| && id in branches[i] && id in branches[j] ::
      id in outputs || branches[i][id] == branches[j][id]
  }

  lemma {:induction false} MergeAllKeys(outputs: Outputs, branches: seq<Outputs>, id: string)
    ensures id in MergeAll(outputs, branches) <==> id in outputs || exists x :: x in branches && id in x
    ensures id in outputs ==> MergeAll(outputs, branches)[id] == outputs[id]
    decreases |branches|
  {
    if branches != [] {
      MergeAllKeys(Merged(outputs, branches[0]), branches[1..], id);
      assert forall x :: x in branches <==> x == branches[0] || x in branches[1..];
    }
  }

  lemma {:induction false} MergeAllValue(outputs: Outputs, branches: seq<Outputs>, i: nat, id: string)
    requires Agree(outputs, branches) && i < |branches| && id in branches[i] && id !in outputs
    ensures id in MergeAll(outputs, branches) && MergeAll(outputs, branches)[id] == branches[i][id]
    decreases |branches|
  {
    var next, rest := Merged(outputs, branches[0]), branches[1..];
    if id in branches[0] {
      MergeAllKeys(next, rest, id);
    } else {
      assert rest[i - 1] == branches[i];
      assert Agree(next, rest);
      MergeAllValue(next, rest, i - 1, id);
    }
  }

  lemma AgreeingOrdersAreEqual(outputs: Outputs, xs: seq<Outputs>, ys: seq<Outputs>)
    requires Agree(outputs, xs) && multiset(xs) == multiset(ys)
    ensures MergeAll(outputs, xs) == MergeAll(outputs, ys)
  {
    assert forall x :: x in xs <==> x in multiset(xs);
    assert forall x :: x in ys <==> x in multiset(ys);
    assert Agree(outputs, ys) by {
      forall i, j, id | 0 <= i < |ys| && 0 <= j < |ys| && id in ys[i] && id in ys[j]
        ensures id in outputs || ys[i][id] == ys[j][id]
      {
        assert ys[i] in ys && ys[j] in ys;
        var k, l :| 0 <= k < |xs| && 0 <= l < |xs| && xs[k] == ys[i] && xs[l] == ys[j];
      }
    }
    var m, n := MergeAll(outputs, xs), MergeAll(outputs, ys);
    forall id ensures id in m <==> id in n {
      MergeAllKeys(outputs, xs, id);
      MergeAllKeys(outputs, ys, id);
    }
    forall id | id in m ensures m[id] == n[id] {
      MergeAllKeys(outputs, xs, id);
      MergeAllKeys(outputs, ys, id);
      if id !in outputs {
        var x :| x in xs && id in x;
        var i :| 0 <= i < |xs| && xs[i] == x;
        assert x in ys;
        var j :| 0 <= j < |ys| && ys[j] == x;
        MergeAllValue(outputs, xs, i, id);
        MergeAllValue(outputs, ys, j, id);
      }
    }
    assert m == n;
  }

  function Promoted(xs: seq<Outputs>, i: nat): (r: seq<Outputs>)
    requires i < |xs|
    ensures multiset(r) == multiset(xs)
  {
    assert xs == xs[..i] + [xs[i]] + xs[i + 1..];
    [xs[i]] + xs[..i] + xs[i + 1..]
  }

  // Every order of merging gives the same outputs exactly when the branches
  // agree on the ids they add.
  lemma MergeOrderIsIrrelevantIff(outputs: Outputs, branches: seq<Outputs>)
    ensures Agree(outputs, branches) <==>
            forall order | multiset(order) == multiset(branches) ::
              MergeAll(outputs, order) == MergeAll(outputs, branches)
  {
    if Agree(outputs, branches) {
      forall order | multiset(order) == multiset(branches)
        ensures MergeAll(outputs, order) == MergeAll(outputs, branches)
      {
        AgreeingOrdersAreEqual(outputs, branches, order);
      }
    } else {
      var i, j, id :| 0 <= i < |branches| && 0 <= j < |branches| && id in branches[i] && id in branches[j]
                      && id !in outputs && branches[i][id] != branches[j][id];
      FirstMergedWins(outputs, branches, i, id);
      FirstMergedWins(outputs, branches, j, id);
      var p, q := Promoted(branches, i), Promoted(branches, j);
      assert multiset(p) == multiset(branches) && multiset(q) == multiset(branches);
      assert MergeAll(outputs, p) != MergeAll(outputs, q);
    }
  }

  lemma FirstMergedWins(outputs: Outputs, branches: seq<Outputs>, i: nat, id: string)
    requires i < |branches| && id in branches[i] && id !in outputs
    ensures id in MergeAll(outputs, Promoted(branches, i))
    ensures MergeAll(outputs, Promoted(branches, i))[id] == branches[i][id]
  {
    var order := Promoted(branches, i);
    MergeAllKeys(Merged(outputs, order[0]), order[1..], id);
  }

  // ----- Trees of builders, on the heap -----

  ghost predicate Alone(sb: ScopeBuilder, outside: set<object>)
    reads sb.table, sb.table.owned, sb.frozenRepr
  {
    sb.Valid() && sb.Footprint() !! outside
  }

  ghost predicate Separate(sb: ScopeBuilder, other: ScopeBuilder)
    reads sb.table, other.table
  {
    sb.table != other.table && sb.Apart(other)
  }

  ghost predicate Ready(builders: seq<ScopeBuilder>, forest: seq<Outputs>, outside: set<object>)
    reads set sb | sb in builders :: sb.table
    reads set sb, o | sb in builders && o in sb.table.owned :: o
    reads set sb, o | sb in builders && o in sb.frozenRepr :: o
  {
    && |builders| == |forest|
    && (forall i {:trigger builders[i]} | 0 <= i < |builders| ::
          Alone(builders[i], outside) && builders[i].table.outputs == forest[i])
    && forall i, j {:trigger Separate(builders[i], builders[j])} |
         0 <= i < |builders| && 0 <= j < |builders| && i != j :: Separate(builders[i], builders[j])
  }

  twostate predicate Untouched(sb: ScopeBuilder)
    reads sb.table, sb.table.owned, sb.frozenRepr
  {
    unchanged(sb.table) && unchanged(sb.table.owned) && unchanged(sb.frozenRepr)
  }

  // Additions, forks and merges of real builders have the effect they have on
  // values.
  method Perform(builders: seq<ScopeBuilder>, op: Op, ghost forest: seq<Outputs>, ghost outside: set<object>)
    returns (after: seq<ScopeBuilder>)
    requires Ready(builders, forest, outside) && (op.Add? || op.Fork? || op.Merge?)
    requires op.Add? ==> Denotes(op.output, op.t, outside)
    modifies set sb | sb in builders :: sb.table
    ensures Ready(after, Effect(forest, op), outside)
    ensures forall sb | sb in after :: sb in builders || fresh(sb.table)
    ensures forall sb | sb in after :: exists c :: c in builders && c.frozenRepr == sb.frozenRepr
  {
    after := builders;
    if op.b >= |builders| {
      return;
    }
    match op
    case Add(b, id, output, t) =>
      PerformAdd(builders, b, id, output, t, forest, outside);
    case Fork(b) =>
      after := PerformFork(builders, b, forest, outside);
    case Merge(b, branch) =>
      if branch < |builders| {
        PerformMerge(builders, b, branch, forest, outside);
      }
    case _ =>
  }

  // The maps and lists a value is made of.
  method Collect(v: Value, ghost t: Json, ghost repr: set<object>) returns (maps: seq<GoMap>, lists: seq<array<Value>>)
    requires Represents(v, t, repr)
    ensures (forall m | m in maps :: m in repr) && forall l | l in lists :: l in repr
    decreases t
  {
    maps, lists := [], [];
    match v
    case MapRef(obj) =>
      if obj == null {
        return;
      }
      maps := [obj];
      var todo := obj.entries.Keys;
      while todo != {}
        invariant todo <= obj.entries.Keys
        invariant (forall m | m in maps :: m in repr) && forall l | l in lists :: l in repr
      {
        var k :| k in todo;
        var ms, ls := Collect(obj.entries[k], t.fields[k], repr);
        maps, lists := maps + ms, lists + ls;
        todo := todo - {k};
      }
    case ListRef(list) =>
      lists := [list];
      for i := 0 to list.Length
        invariant (forall m | m in maps :: m in repr) && forall l | l in lists :: l in repr
      {
        var ms, ls := Collect(list[i], t.items[i], repr);
        maps, lists := maps + ms, lists + ls;
      }
    case _ =>
  }

  // What callers hold is no part of any builder.
  ghost predicate Clear(builders: seq<ScopeBuilder>, maps: seq<GoMap>, lists: seq<array<Value>>, loose: set<object>) {
    && (forall m | m in maps :: m in loose)
    && (forall l | l in lists :: l in loose)
    && forall sb | sb in builders :: sb.frozenRepr !! loose
  }

  method AskOne(sb: ScopeBuilder) returns (maps: seq<GoMap>, lists: seq<array<Value>>, ghost own: set<object>)
    requires sb.Valid()
    ensures fresh(own) && (forall m | m in maps :: m in own) && forall l | l in lists :: l in own
  {
    var m;
    m, own := sb.StepOutputs();
    maps, lists := Collect(MapRef(m), Object(sb.table.outputs), own);
  }

  method PerformAsk(builders: seq<ScopeBuilder>, b: nat, ghost forest: seq<Outputs>, ghost outside: set<object>)
    returns (maps: seq<GoMap>, lists: seq<array<Value>>, ghost own: set<object>)
    requires Ready(builders, forest, outside) && b < |builders|
    ensures Ready(builders, forest, outside + own) && fresh(own)
    ensures Clear(builders, maps, lists, own)
  {
    assert Alone(builders[b], outside);
    maps, lists, own := AskOne(builders[b]);
    forall i {:trigger builders[i]} | 0 <= i < |builders| ensures Alone(builders[i], outside + own) {
      assert Alone(builders[i], outside);
    }
  }

  lemma DenotesInMore(output: Parsed, t: Json, repr: set<object>, more: set<object>)
    requires Denotes(output, t, repr) && repr <= more
    ensures Denotes(output, t, more)
  {
    if output.Parsed? {
      RepresentsInMore(output.value, t, repr, more);
    }
  }

  // So does any history of a whole tree of builders, with callers overwriting
  // whatever they were ever handed, at any depth and at any later time.
  method PerformAll(builders: seq<ScopeBuilder>, ops: seq<Op>, ghost forest: seq<Outputs>, ghost outside: set<object>)
    returns (after: seq<ScopeBuilder>)
    requires Ready(builders, forest, outside)
    requires forall op | op in ops && op.Add? :: Denotes(op.output, op.t, outside)
    modifies set sb | sb in builders :: sb.table
    ensures Ready(after, Run(forest, ops), outside)
  {
    after := builders;
    var maps: seq<GoMap>, lists: seq<array<Value>> := [], [];
    ghost var now, loose: set<object> := forest, {};
    assert outside + loose == outside;
    for i := 0 to |ops|
      invariant Ready(after, now, outside + loose) && Clear(after, maps, lists, loose)
      invariant fresh(loose) && Run(now, ops[i..]) == Run(forest, ops)
      invariant forall sb | sb in after :: sb in builders || fresh(sb.table)
    {
      var op := ops[i];
      TablesAreOutside(after, now, outside + loose);
      if op.Add? || op.Fork? || op.Merge? {
        if op.Add? {
          DenotesInMore(op.output, op.t, outside, outside + loose);
        }
        after := Perform(after, op, now, outside + loose);
      } else if op.Ask? && op.b < |after| {
        var ms, ls, own := PerformAsk(after, op.b, now, outside + loose);
        assert outside + loose + own == outside + (loose + own);
        maps, lists, loose := maps + ms, lists + ls, loose + own;
      } else if op.ScribbleMap? && op.kept < |maps| {
        assert maps[op.kept] in loose;
        ScribbleIsHarmless(after, now, outside, loose, maps[op.kept]);
        maps[op.kept].entries := op.entries;
      } else if op.ScribbleList? && op.kept < |lists| && op.i < lists[op.kept].Length {
        assert lists[op.kept] in loose;
        ScribbleIsHarmless(after, now, outside, loose, lists[op.kept]);
        lists[op.kept][op.i] := op.v;
      }
      assert ops[i..][0] == ops[i] && ops[i..][1..] == ops[i + 1..];
      now := Effect(now, op);
    }
    assert ops[|ops|..] == [];
    LessOutside(after, now, outside, outside + loose);
  }

  lemma ScribbleIsHarmless(builders: seq<ScopeBuilder>, forest: seq<Outputs>, outside: set<object>, loose: set<object>,
                           o: object)
    requires Ready(builders, forest, outside + loose) && o in loose
    requires forall sb | sb in builders :: sb.frozenRepr !! loose
    ensures forall sb | sb in builders :: o != sb.table && o !in sb.table.owned && o !in sb.frozenRepr
  {
    forall sb | sb in builders ensures o != sb.table && o !in sb.table.owned && o !in sb.frozenRepr {
      var i :| 0 <= i < |builders| && builders[i] == sb;
      assert Alone(builders[i], outside + loose);
    }
  }

  lemma LessOutside(builders: seq<ScopeBuilder>, forest: seq<Outputs>, outside: set<object>, more: set<object>)
    requires Ready(builders, forest, more) && outside <= more
    ensures Ready(builders, forest, outside)
  {
    forall i {:trigger builders[i]} | 0 <= i < |builders| ensures Alone(builders[i], outside) {
      assert Alone(builders[i], more);
    }
  }

  lemma TablesAreOutside(builders: seq<ScopeBuilder>, forest: seq<Outputs>, outside: set<object>)
    requires Ready(builders, forest, outside)
    ensures forall sb | sb in builders :: sb.table !in outside
  {
    forall sb | sb in builders ensures sb.table !in outside {
      var i :| 0 <= i < |builders| && builders[i] == sb;
      assert Alone(builders[i], outside);
    }
  }

  method PerformAdd(builders: seq<ScopeBuilder>, b: nat, id: string, output: Parsed, t: Json,
                    ghost forest: seq<Outputs>, ghost outside: set<object>)
    requires Ready(builders, forest, outside) && b < |builders|
    requires Denotes(output, t, outside)
    modifies builders[b].table
    ensures Ready(builders, Effect(forest, Add(b, id, output, t)), outside)
  {
    AddTo(builders, b, id, output, t, forest, outside);
    forall i: nat, j: nat | i < |builders| && j < |builders| && i != j ensures Separate(builders[i], builders[j]) {
      assert old(Separate(builders[i], builders[j]));
      assert i != b ==> Untouched(builders[i]);
      assert j != b ==> Untouched(builders[j]);
    }
    assert forest[b := forest[b]] == forest;
  }

  method AddTo(builders: seq<ScopeBuilder>, b: nat, id: string, output: Parsed, t: Json,
               ghost forest: seq<Outputs>, ghost outside: set<object>)
    requires Ready(builders, forest, outside) && b < |builders|
    requires Denotes(output, t, outside)
    modifies builders[b].table
    ensures Alone(builders[b], outside) && fresh(builders[b].Footprint() - old(builders[b].Footprint()))
    ensures builders[b].table.outputs == if output == Malformed then forest[b] else WithOutput(forest[b], id, t)
    ensures forall i {:trigger Untouched(builders[i])} | 0 <= i < |builders| && i != b :: Untouched(builders[i])
  {
    var _ := builders[b].AddStepOutput(id, output, t, outside);
    forall i | 0 <= i < |builders| && i != b ensures Untouched(builders[i]) {
      assert old(Separate(builders[i], builders[b]));
    }
  }

  method PerformFork(builders: seq<ScopeBuilder>, b: nat, ghost forest: seq<Outputs>, ghost outside: set<object>)
    returns (after: seq<ScopeBuilder>)
    requires Ready(builders, forest, outside) && b < |builders|
    ensures Ready(after, Effect(forest, Fork(b)), outside)
    ensures forall sb | sb in after :: sb in builders || fresh(sb.table)
    ensures forall sb | sb in after :: exists c :: c in builders && c.frozenRepr == sb.frozenRepr
  {
    var branch := builders[b].ForParallelBranch();
    after := builders + [branch];
    forall i: nat | i < |builders| ensures Separate(builders[i], branch) && Separate(branch, builders[i]) {
      assert Alone(builders[i], outside);
      assert i != b ==> Separate(builders[i], builders[b]);
    }
    OneMoreIsReady(builders, branch, forest, forest[b], outside);
  }

  lemma OneMoreIsReady(builders: seq<ScopeBuilder>, branch: ScopeBuilder, forest: seq<Outputs>, outputs: Outputs,
                       outside: set<object>)
    requires Ready(builders, forest, outside)
    requires Alone(branch, outside) && branch.table.outputs == outputs
    requires forall i | 0 <= i < |builders| :: Separate(builders[i], branch) && Separate(branch, builders[i])
    ensures Ready(builders + [branch], forest + [outputs], outside)
  {
    var after := builders + [branch];
    forall i: nat, j: nat | i < |after| && j < |after| && i != j ensures Separate(after[i], after[j]) {
      assert i < |builders| && j < |builders| ==> Separate(builders[i], builders[j]);
    }
  }

  method PerformMerge(builders: seq<ScopeBuilder>, b: nat, branch: nat,
                      ghost forest: seq<Outputs>, ghost outside: set<object>)
    requires Ready(builders, forest, outside) && b < |builders| && branch < |builders|
    modifies builders[b].table
    ensures Ready(builders, Effect(forest, Merge(b, branch)), outside)
  {
    MergeInto(builders, b, branch, forest, outside);
    forall i: nat, j: nat | i < |builders| && j < |builders| && i != j ensures Separate(builders[i], builders[j]) {
      assert old(Separate(builders[i], builders[j]));
      assert i != b ==> Untouched(builders[i]);
      assert j != b ==> Untouched(builders[j]);
    }
  }

  method MergeInto(builders: seq<ScopeBuilder>, b: nat, branch: nat,
                   ghost forest: seq<Outputs>, ghost outside: set<object>)
    requires Ready(builders, forest, outside) && b < |builders| && branch < |builders|
    modifies builders[b].table
    ensures Alone(builders[b], outside) && fresh(builders[b].Footprint() - old(builders[b].Footprint()))
    ensures builders[b].table.outputs == Merged(forest[b], forest[branch])
    ensures forall i {:trigger Untouched(builders[i])} | 0 <= i < |builders| && i != b :: Untouched(builders[i])
  {
    assert b != branch ==> Separate(builders[b], builders[branch]);
    builders[b].MergeBranchOutputs(builders[branch]);
    forall i | 0 <= i < |builders| && i != b ensures Untouched(builders[i]) {
      assert old(Separate(builders[i], builders[b]));
    }
  }
}
