/** AccountCreateBulk.Save: n builders whose mutators call each other through their hooks, around one batch insert. */
module BulkCreate {
  import opened Collections
  import opened AccountSchema
  import opened AccountCodec
  import opened AccountCreation
  import opened AccountRoundTrip

  /** What can be seen happening: hooks entered and left, checks, the insert, mutations marked as done. */
  datatype Event =
    | Before(builder: nat, hook: nat)
    | After(builder: nat, hook: nat)
    | Checked(builder: nat, passed: bool)
    | Batch(specs: seq<CreateSpec>)
    | MarkedDone(builder: nat)

  datatype SaveError = ValidationError(check: Check) | ConstraintError | DriverError

  /** The database's answer to the batch: an id per spec where it returned one, or an error. */
  datatype BatchAnswer = Inserted(ids: seq<Option<int>>) | Rejected(constraint: bool)

  /** A mutation object. `id` points at the id of a node. */
  class AccountMutation {
    var data: Mutation
    var done: bool
    var id: Account?

    constructor (data: Mutation)
      ensures this.data == data && !done && id == null
    {
      this.data, done, id := data, false, null;
    }
  }

  /** A builder. Hooks hand on the mutation they are given, so its mutation stays the one it was created with. */
  class AccountCreate {
    const mutation: AccountMutation
    const hooks: nat

    constructor (mutation: AccountMutation, hooks: nat)
      ensures this.mutation == mutation && this.hooks == hooks
    {
      this.mutation, this.hooks := mutation, hooks;
    }
  }

  /** A mutator: the innermost one of a builder, or a hook around another mutator. */
  datatype Mutator = Innermost(builder: nat) | Hooked(builder: nat, hook: nat, next: Mutator)

  /** hooks[0](hooks[1](... innermost)) from hook `h` inwards. */
  function Chain(i: nat, h: nat, hooks: nat): Mutator
    requires h <= hooks
    decreases hooks - h
  {
    if h == hooks then Innermost(i) else Hooked(i, h, Chain(i, h + 1, hooks))
  }

  // ---------- what a run does, from the mutations alone ----------

  datatype Run = Run(rt: Runtime, data: seq<Mutation>, hooks: seq<nat>, answer: BatchAnswer) {
    ghost predicate Ok() {
      |data| == |hooks| && (answer.Inserted? ==> |answer.ids| == |data|)
    }

    function CheckOf(i: nat): Option<Check>
      requires i < |data|
    {
      Validation(rt, data[i].fields)
    }

    function BatchError(): Option<SaveError> {
      match answer
      case Inserted(_) => None
      case Rejected(constraint) => Some(if constraint then ConstraintError else DriverError)
    }

    /** The error of the mutators from builder i on. */
    function Error(i: nat): Option<SaveError>
      requires i <= |data|
      decreases |data| - i
    {
      if i == |data| then BatchError()
      else if CheckOf(i).Some? then Some(ValidationError(CheckOf(i).value))
      else Error(i + 1)
    }

    function Specs(): (specs: seq<CreateSpec>)
      ensures |specs| == |data|
      ensures forall i | 0 <= i < |data| :: specs[i] == CreateSpecOf(data[i]).1
    {
      seq(|data|, i requires 0 <= i < |data| => CreateSpecOf(data[i]).1)
    }

    /** The node of builder i once the insert succeeded. */
    function Saved(i: nat): Struct
      requires i < |data| && answer.Inserted? && |answer.ids| == |data|
    {
      var node := CreateSpecOf(data[i]).0;
      match answer.ids[i] case Some(id) => node[ID := Plain(VInt64(id))] case None => node
    }

    /** The events of the innermost mutator of builder i, with everything it calls. */
    function InnerTrace(i: nat): seq<Event>
      requires i < |data| == |hooks|
      decreases |data| - i, 1
    {
      if CheckOf(i).Some? then [Checked(i, false)]
      else
        [Checked(i, true)]
        + NextTrace(i)
        + (if Error(i).None? then [MarkedDone(i)] else [])
    }

    /** The events of the next builder's mutator, or of the insert. */
    function NextTrace(i: nat): seq<Event>
      requires i < |data| == |hooks|
      decreases |data| - i, 0
    {
      if i + 1 < |data| then HookTrace(i + 1, 0) else [Batch(Specs())]
    }

    /** The events of builder i's mutator from hook h inwards. */
    function HookTrace(i: nat, h: nat): seq<Event>
      requires i < |data| == |hooks| && h <= hooks[i]
      decreases |data| - i, hooks[i] - h + 2
    {
      if h == hooks[i] then InnerTrace(i)
      else [Before(i, h)] + HookTrace(i, h + 1) + [After(i, h)]
    }
  }

  /** Without a failing check from builder i on, the database decides. */
  lemma {:induction false} DatabaseDecides(r: Run, i: nat)
    requires i <= |r.data| && forall j | i <= j < |r.data| :: r.CheckOf(j).None?
    ensures match r.answer
            case Inserted(_) => r.Error(i).None?
            case Rejected(true) => r.Error(i) == Some(ConstraintError)
            case Rejected(false) => r.Error(i) == Some(DriverError)
    decreases |r.data| - i
  {
    hide Run.CheckOf;
    if i < |r.data| {
      DatabaseDecides(r, i + 1);
    }
  }

  /** The first failing check is the error. */
  lemma {:induction false} FirstCheckDecides(r: Run, i: nat, j: nat)
    requires i <= j < |r.data| && r.CheckOf(j).Some? && forall k | i <= k < j :: r.CheckOf(k).None?
    ensures r.Error(i) == Some(ValidationError(r.CheckOf(j).value))
    decreases |r.data| - i
  {
    hide Run.CheckOf, Run.BatchError;
    if i < j {
      FirstCheckDecides(r, i + 1, j);
    }
  }

  function Mutations(builders: seq<AccountCreate>): (ms: seq<AccountMutation>)
    ensures |ms| == |builders|
    ensures forall i | 0 <= i < |builders| :: ms[i] == builders[i].mutation
  {
    seq(|builders|, i requires 0 <= i < |builders| => builders[i].mutation)
  }

  function DataOf(ms: seq<AccountMutation>): (data: seq<Mutation>)
    reads ms`data
    ensures |data| == |ms|
    ensures forall i | 0 <= i < |ms| :: data[i] == ms[i].data
  {
    if ms == [] then [] else DataOf(ms[..|ms| - 1]) + [ms[|ms| - 1].data]
  }

  function Hooks(builders: seq<AccountCreate>): (hooks: seq<nat>)
    ensures |hooks| == |builders|
    ensures forall i | 0 <= i < |builders| :: hooks[i] == builders[i].hooks
  {
    seq(|builders|, i requires 0 <= i < |builders| => builders[i].hooks)
  }

  class AccountCreateBulk {
    const builders: seq<AccountCreate>
    const err: bool
    const rt: Runtime
    const answer: BatchAnswer
    var specs: seq<Option<CreateSpec>>
    var nodes: seq<Account?>
    var specIDs: seq<Option<int>>
    var mutators: seq<Mutator>
    var trace: seq<Event>

    constructor (builders: seq<AccountCreate>, err: bool, rt: Runtime, answer: BatchAnswer)
      ensures this.builders == builders && this.err == err && this.rt == rt && this.answer == answer && trace == []
    {
      this.builders, this.err, this.rt, this.answer := builders, err, rt, answer;
      specs, nodes, specIDs, mutators, trace := [], [], [], [], [];
    }

    /** The pure description `r` is about these builders, and the mutators are the builders' hook chains. */
    ghost predicate Describes(r: Run)
      reads this`mutators, Mutations(builders)`data
    {
      && r.Ok() && r.rt == rt && r.answer == answer
      && |r.data| == |builders| == |mutators|
      && (forall i | 0 <= i < |builders| :: r.data[i] == builders[i].mutation.data)
      && (forall i | 0 <= i < |builders| :: r.hooks[i] == builders[i].hooks)
      && (forall i | 0 <= i < |builders| :: mutators[i] == Chain(i, 0, r.hooks[i]))
    }

    /** The slots exist and builders before i have filled in their specs. */
    ghost predicate SpecsUpTo(r: Run, i: nat)
      reads this`specs, this`nodes, this`specIDs
    {
      && |specs| == |nodes| == |specIDs| == |r.data|
      && i <= |r.data|
      && forall k | 0 <= k < i :: specs[k] == Some(r.Specs()[k])
    }

    /** The nodes from builder i on carry what was created and the ids the database returned. */
    ghost predicate NodesSaved(r: Run, i: nat)
      reads this`nodes, nodes
    {
      && r.Ok() && r.answer.Inserted?
      && |nodes| == |r.data|
      && (forall k | i <= k < |r.data| :: nodes[k] != null && nodes[k].fields == r.Saved(k))
    }

    /** The mutations from builder i on are done, and the one of each builder points at the id of its node. */
    ghost predicate MutationsDone(i: nat)
      reads this`nodes, Mutations(builders)`done, Mutations(builders)`id
    {
      |nodes| == |builders| && AllDone(i) && IDsLinked(i)
    }

    ghost predicate AllDone(i: nat)
      reads Mutations(builders)`done
    {
      forall k | i <= k < |builders| :: builders[k].mutation.done
    }

    ghost predicate IDsLinked(i: nat)
      reads this`nodes, Mutations(builders)`id
    {
      && |nodes| == |builders|
      && forall k | i <= k < |builders| && (forall j | i <= j < k :: builders[j].mutation != builders[k].mutation) ::
           builders[k].mutation.id == nodes[k]
    }

    ghost predicate Completed(r: Run, i: nat)
      reads this`nodes, this`specIDs, nodes, Mutations(builders)`done, Mutations(builders)`id
    {
      && answer.Inserted? && specIDs == answer.ids
      && NodesSaved(r, i)
      && MutationsDone(i)
    }

    twostate predicate NewNodes(i: nat)
      reads this`nodes
    {
      forall k | i <= k < |nodes| :: fresh(nodes[k])
    }

    twostate predicate MutationsUntouched()
      reads Mutations(builders)`done, Mutations(builders)`id
    {
      forall m | m in Mutations(builders) :: m.done == old(m.done) && m.id == old(m.id)
    }

    /** Runs a mutator: a hook reports before and after what it wraps and returns its result. */
    method Mutate(mut: Mutator, i: nat, ghost h: nat, ghost r: Run) returns (error: Option<SaveError>)
      requires Describes(r) && SpecsUpTo(r, i)
      requires i < |r.data| && h <= r.hooks[i] && mut == Chain(i, h, r.hooks[i])
      modifies this`specs, this`nodes, this`specIDs, this`trace, Mutations(builders)`done, Mutations(builders)`id
      ensures trace == old(trace) + r.HookTrace(i, h)
      ensures error == r.Error(i)
      ensures |specs| == |nodes| == |specIDs| == |r.data| && nodes[..i] == old(nodes)[..i]
      ensures error.None? ==> Completed(r, i) && NewNodes(i)
      ensures error.Some? ==> MutationsUntouched()
      decreases |r.data| - i, r.hooks[i] - h + 3
    {
      hide CreateSpecOf, Validation, Completed;
      match mut {
        case Hooked(builder, hook, next) =>
          trace := trace + [Before(builder, hook)];
          error := Mutate(next, i, h + 1, r);
          trace := trace + [After(builder, hook)];
        case Innermost(builder) =>
          error := MutateInnermost(i, r);
      }
    }

    /** The closure Save builds for builder i. */
    method MutateInnermost(i: nat, ghost r: Run) returns (error: Option<SaveError>)
      requires Describes(r) && SpecsUpTo(r, i) && i < |r.data|
      modifies this`specs, this`nodes, this`specIDs, this`trace, Mutations(builders)`done, Mutations(builders)`id
      ensures trace == old(trace) + r.InnerTrace(i)
      ensures error == r.Error(i)
      ensures |specs| == |nodes| == |specIDs| == |r.data| && nodes[..i] == old(nodes)[..i]
      ensures error.None? ==> Completed(r, i) && NewNodes(i)
      ensures error.Some? ==> MutationsUntouched()
      decreases |r.data| - i, 2
    {
      hide CreateSpecOf, Validation, Completed;
      var failed := Validation(rt, builders[i].mutation.data.fields);
      trace := trace + [Checked(i, failed.None?)];
      if failed.Some? {
        return Some(ValidationError(failed.value));
      }
      error := Create(i, r);
    }

    /** The rest of that closure, once the check has passed. */
    method Create(i: nat, ghost r: Run) returns (error: Option<SaveError>)
      requires Describes(r) && SpecsUpTo(r, i) && i < |r.data|
      modifies this`specs, this`nodes, this`specIDs, this`trace, Mutations(builders)`done, Mutations(builders)`id
      ensures trace == old(trace) + r.NextTrace(i) + (if error.None? then [MarkedDone(i)] else [])
      ensures error == r.Error(i + 1)
      ensures |specs| == |nodes| == |specIDs| == |r.data| && nodes[..i] == old(nodes)[..i]
      ensures error.None? ==> Completed(r, i) && NewNodes(i)
      ensures error.Some? ==> MutationsUntouched()
      decreases |r.data| - i, 1
    {
      hide CreateSpecOf, Validation, Completed, Run.Error;
      var node := BuildNode(i, r);
      error := Proceed(i, r);
      assert nodes[..i + 1][i] == node;
      assert nodes[..i] == nodes[..i + 1][..i];
      if error.None? {
        Finish(i, node, r);
      }
    }

    /** The next builder's mutator, or the insert after the last. */
    method Proceed(i: nat, ghost r: Run) returns (error: Option<SaveError>)
      requires Describes(r) && i < |r.data| && SpecsUpTo(r, i + 1)
      modifies this`specs, this`nodes, this`specIDs, this`trace, Mutations(builders)`done, Mutations(builders)`id
      ensures trace == old(trace) + r.NextTrace(i)
      ensures error == r.Error(i + 1)
      ensures |specs| == |nodes| == |specIDs| == |r.data| && nodes[..i + 1] == old(nodes)[..i + 1]
      ensures error.None? ==> Completed(r, i + 1) && NewNodes(i + 1)
      ensures error.Some? ==> MutationsUntouched()
      decreases |r.data| - i, 0
    {
      hide CreateSpecOf, Validation;
      if i + 1 < |mutators| {
        error := Mutate(mutators[i + 1], i + 1, 0, r);
      } else {
        error := BatchCreate(r);
      }
    }

    /** `nodes[i], specs[i] = builder.createSpec()` */
    method BuildNode(i: nat, ghost r: Run) returns (node: Account)
      requires Describes(r) && SpecsUpTo(r, i) && i < |r.data|
      modifies this`specs, this`nodes
      ensures SpecsUpTo(r, i + 1)
      ensures |nodes| == |old(nodes)| && nodes[..i] == old(nodes)[..i]
      ensures nodes[i] == node && fresh(node) && node.fields == CreateSpecOf(r.data[i]).0
    {
      var created := CreateSpecOf(builders[i].mutation.data);
      node := new Account();
      node.fields := created.0;
      nodes, specs := nodes[i := node], specs[i := Some(created.1)];
    }

    /** After a successful insert: the mutation gets the node's id, the node the id the database returned. */
    method Finish(i: nat, node: Account, ghost r: Run)
      requires Describes(r) && i < |r.data| == |nodes|
      requires nodes[i] == node && node.fields == CreateSpecOf(r.data[i]).0
      requires Completed(r, i + 1)
      requires forall k | i < k < |nodes| :: nodes[k] != node
      modifies node`fields, this`trace, builders[i].mutation`done, builders[i].mutation`id
      ensures Completed(r, i)
      ensures trace == old(trace) + [MarkedDone(i)]
    {
      assert MutationsDone(i + 1) && |nodes| == |builders|;
      hide CreateSpecOf, Validation, NodesSaved, MutationsDone;
      LinkID(i, node);
      AssignID(i, node, r);
      MarkDone(i);
      trace := trace + [MarkedDone(i)];
    }

    /** `mutation.id = &nodes[i].ID` */
    method LinkID(i: nat, node: Account)
      requires i < |nodes| == |builders| && nodes[i] == node && MutationsDone(i + 1)
      modifies builders[i].mutation`id
      ensures AllDone(i + 1) && IDsLinked(i)
    {
      builders[i].mutation.id := node;
    }

    /** `mutation.done = true` */
    method MarkDone(i: nat)
      requires i < |nodes| == |builders| && AllDone(i + 1) && IDsLinked(i)
      modifies builders[i].mutation`done
      ensures MutationsDone(i)
    {
      builders[i].mutation.done := true;
    }

    method AssignID(i: nat, node: Account, ghost r: Run)
      requires Describes(r) && i < |r.data| == |nodes| && answer.Inserted? && specIDs == answer.ids
      requires nodes[i] == node && node.fields == CreateSpecOf(r.data[i]).0
      requires NodesSaved(r, i + 1)
      requires forall k | i < k < |nodes| :: nodes[k] != node
      modifies node`fields
      ensures NodesSaved(r, i)
    {
      hide CreateSpecOf, Validation;
      if specIDs[i].Some? {
        node.fields := node.fields[ID := Plain(VInt64(specIDs[i].value))];
      }
      assert node.fields == r.Saved(i);
    }

    /** sqlgraph.BatchCreate on the collected specs. */
    method BatchCreate(ghost r: Run) returns (error: Option<SaveError>)
      requires Describes(r) && SpecsUpTo(r, |r.data|)
      modifies this`specIDs, this`trace
      ensures trace == old(trace) + [Batch(r.Specs())]
      ensures error == r.BatchError()
      ensures |specIDs| == |r.data|
      ensures error.None? ==> answer.Inserted? && specIDs == answer.ids
    {
      var collected := seq(|specs|, k requires 0 <= k < |specs| && specs[k].Some? reads this`specs => specs[k].value);
      assert collected == r.Specs();
      trace := trace + [Batch(collected)];
      match answer {
        case Inserted(ids) =>
          specIDs := ids;
          return None;
        case Rejected(constraint) =>
          return Some(if constraint then ConstraintError else DriverError);
      }
    }

    /** The run the builders describe as they are now. */
    function Description(): (r: Run)
      reads Mutations(builders)`data
    {
      Run(rt, DataOf(Mutations(builders)), Hooks(builders), answer)
    }

    function WithDefaults(m: Mutation): Mutation {
      m.(fields := Defaults(rt, DEFAULTED, m.fields).fields)
    }

    /** For every builder `defaults()`, its error dropped; then its hooks around its innermost mutator. */
    method PrepareBuilders()
      modifies this`mutators, Mutations(builders)`data
      ensures |mutators| == |builders|
      ensures forall i | 0 <= i < |builders| :: mutators[i] == Chain(i, 0, builders[i].hooks)
      ensures forall m | m in Mutations(builders) :: m.data == WithDefaults(old(m.data))
    {
      hide Defaults, CreateSpecOf;
      mutators := [];
      for i := 0 to |builders|
        invariant |mutators| == i
        invariant forall k | 0 <= k < i :: mutators[k] == Chain(k, 0, builders[k].hooks)
        invariant forall m | m in Mutations(builders) ::
            m.data == if m in Mutations(builders)[..i] then WithDefaults(old(m.data)) else old(m.data)
      {
        var mutation := builders[i].mutation;
        assert Mutations(builders)[i] == mutation;
        assert Mutations(builders)[..i + 1] == Mutations(builders)[..i] + [mutation];
        DefaultsIdempotent(rt, DEFAULTED, old(mutation.data).fields);
        mutation.data := WithDefaults(mutation.data);
        var mut := BuildChain(i, builders[i].hooks);
        mutators := mutators + [mut];
      }
      assert Mutations(builders)[..|builders|] == Mutations(builders);
    }

    /** The loop that wraps the hooks, the last one first. */
    method BuildChain(i: nat, hooks: nat) returns (mut: Mutator)
      ensures mut == Chain(i, 0, hooks)
    {
      mut := Innermost(i);
      for h := hooks downto 0
        invariant mut == Chain(i, h, hooks)
      {
        mut := Hooked(i, h, mut);
      }
    }

    /** Once the mutators are built, the description is about these builders. */
    lemma DescribedNow()
      requires answer.Inserted? ==> |answer.ids| == |builders|
      requires |mutators| == |builders|
      requires forall i | 0 <= i < |builders| :: mutators[i] == Chain(i, 0, builders[i].hooks)
      ensures Describes(Description())
      ensures |Description().data| == |Description().hooks| == |builders|
      ensures forall i | 0 <= i < |builders| :: Description().hooks[i] == builders[i].hooks
    {
    }

    /** `mutators[0].Mutate(...)`, with everything prepared. */
    method RunAll() returns (error: Option<SaveError>)
      requires answer.Inserted? ==> |answer.ids| == |builders|
      requires builders != [] && |mutators| == |specs| == |nodes| == |specIDs| == |builders|
      requires forall i | 0 <= i < |builders| :: mutators[i] == Chain(i, 0, builders[i].hooks)
      modifies this`specs, this`nodes, this`specIDs, this`trace, Mutations(builders)`done, Mutations(builders)`id
      ensures trace == old(trace) + Description().HookTrace(0, 0)
      ensures error == Description().Error(0)
      ensures error.None? ==> Completed(Description(), 0)
      ensures error.Some? ==> MutationsUntouched()
    {
      DescribedNow();
      hide CreateSpecOf, Validation, Completed, Run.HookTrace, Run.Error, Describes;
      error := Mutate(mutators[0], 0, 0, Description());
    }

    /** Save: the error of the builder, or of the first mutator that fails, or the nodes. */
    method Save() returns (failed: bool, error: Option<SaveError>)
      requires answer.Inserted? ==> |answer.ids| == |builders|
      modifies this`specs, this`nodes, this`specIDs, this`mutators, this`trace
      modifies Mutations(builders)`data, Mutations(builders)`done, Mutations(builders)`id
      ensures failed == (err || error.Some?)
      ensures err ==> trace == old(trace) && error.None?
      ensures !err ==> forall m | m in Mutations(builders) :: m.data == WithDefaults(old(m.data))
      ensures !err && builders == [] ==> trace == old(trace) && error.None? && nodes == []
      ensures !err && builders != [] ==>
                && trace == old(trace) + Description().HookTrace(0, 0)
                && error == Description().Error(0)
                && (error.None? ==> Completed(Description(), 0))
      ensures err || error.Some? ==> MutationsUntouched()
      ensures !err ==> forall m | m in Mutations(builders) ::
                m.data == old(m.data).(fields := Defaults(rt, DEFAULTED, old(m.data).fields).fields)
      ensures !err && builders != [] && error.None? ==> answer.Inserted?
      ensures !failed ==> NodesHoldData()
      ensures !err && builders != [] ==> ErrorIsDue(error)
    {
      hide CreateSpecOf, Validation, Defaults, Completed, Run.HookTrace, Run.Error;
      if err {
        return true, None;
      }
      specs := seq(|builders|, _ => None);
      nodes := seq(|builders|, _ => null);
      specIDs := seq(|builders|, _ => None);
      PrepareBuilders();
      if |mutators| == 0 {
        return false, None;
      }
      error := RunAll();
      failed := error.Some?;
      ErrorIsFirst();
      if error.None? {
        NodesHold();
      }
    }

    /** check passes on the builder's mutation. */
    ghost predicate Accepted(builder: AccountCreate)
      reads builder.mutation`data
    {
      Validation(rt, builder.mutation.data.fields).None?
    }

    /** The error is that of the first mutation that check rejects; if there is none, the database decides. */
    ghost predicate ErrorIsDue(error: Option<SaveError>)
      reads Mutations(builders)`data
    {
      && ((forall i | 0 <= i < |builders| :: Accepted(builders[i])) ==>
            match answer
            case Inserted(_) => error.None?
            case Rejected(true) => error == Some(ConstraintError)
            case Rejected(false) => error == Some(DriverError))
      && forall i | 0 <= i < |builders| && !Accepted(builders[i]) && AcceptedUpTo(i) ::
           error == Some(ValidationError(Validation(rt, builders[i].mutation.data.fields).value))
    }

    ghost predicate AcceptedUpTo(i: nat)
      requires i <= |builders|
      reads Mutations(builders)`data
    {
      forall j | 0 <= j < i :: Accepted(builders[j])
    }

    /** Every node has the id the database returned for it, and else what its mutation says; it is what is read back. */
    ghost predicate NodesHoldData()
      reads this`nodes, nodes, Mutations(builders)`data
    {
      && |nodes| == |builders|
      && (builders != [] ==> answer.Inserted? && |answer.ids| == |builders|)
      && forall i | 0 <= i < |builders| :: nodes[i] != null && NodeHoldsData(i, nodes[i])
    }

    ghost predicate NodeHoldsData(i: nat, node: Account)
      requires i < |builders| && answer.Inserted? && |answer.ids| == |builders|
      reads node, Mutations(builders)`data
    {
      var m := Mutations(builders)[i].data;
      match answer.ids[i]
      case Some(k) =>
        node.fields == SavedNode(m, k) && Holds(node.fields, m, k) && node.fields[ID] == Plain(VInt64(k))
      case None => Holds(node.fields, m, 0)
    }

    lemma ErrorIsFirst()
      requires answer.Inserted? ==> |answer.ids| == |builders|
      ensures ErrorIsDue(Description().Error(0))
    {
      var r := Description();
      forall i | 0 <= i < |builders|
        ensures r.CheckOf(i).None? <==> Accepted(builders[i])
        ensures r.CheckOf(i) == Validation(rt, builders[i].mutation.data.fields)
      {
        assert Mutations(builders)[i] == builders[i].mutation;
      }
      hide Validation, Run.Error, Run.CheckOf, Accepted;
      if forall i | 0 <= i < |builders| :: Accepted(builders[i]) {
        DatabaseDecides(r, 0);
      }
      forall i | 0 <= i < |builders| && !Accepted(builders[i]) && AcceptedUpTo(i)
        ensures r.Error(0) == Some(ValidationError(r.CheckOf(i).value))
      {
        FirstCheckDecides(r, 0, i);
      }
    }

    /** The nodes of a completed run hold what the mutations say and the ids the database returned. */
    lemma NodesHold()
      requires Completed(Description(), 0)
      ensures NodesHoldData()
    {
      var r := Description();
      hide CreateSpecOf;
      forall i | 0 <= i < |builders|
        ensures nodes[i] != null && NodeHoldsData(i, nodes[i])
      {
        BuiltNodeHolds(r.data[i]);
        assert nodes[i].fields == r.Saved(i);
        assert r.data[i] == Mutations(builders)[i].data;
      }
    }
  }
}
