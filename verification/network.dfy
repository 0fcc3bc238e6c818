/** The network-relationship extractor: walks the operators of every block of a decoded
    program description and reduces each one to at most one lineage edge, from the
    meaningful names an operator reads to the single meaningful name it writes. */
module Network {
  import opened Wrappers
  import opened Folds
  import opened Text
  import opened Classifier
  import opened EdgeFilter

  // ---------------------------------------------------------------------------------------
  // The decoded description. Decoding drops empty lists, so every list-valued key may be
  // absent; `type`, `parameter` and `name` are required fields and always present.

  /** One input or output slot of an operator: its role and the variable names bound to it. */
  datatype Param = Param(parameter: string, arguments: Option<seq<string>>)

  datatype Op = Op(opType: string, inputs: Option<seq<Param>>, outputs: Option<seq<Param>>)

  datatype Var = Var(name: string)

  datatype Block = Block(vars: Option<seq<Var>>, ops: Option<seq<Op>>)

  /** A lineage edge. The record carries its output name twice, as `tail` and as `name`. */
  datatype Edge = Edge(head: seq<string>, tail: string, name: string)

  /** Indexing a dictionary key the decoded description does not have. */
  datatype Failure = KeyError(key: string)

  /** Why an operator contributes no edge. */
  datatype SkipReason = MissingPorts | ExcludedType | EmptyHead | Filtered | TailNotSingular

  datatype Outcome = Emit(edge: Edge) | Skip(reason: SkipReason)

  /** Operator kinds that never yield an edge, besides every gradient operator. */
  const ExcludedTypes: seq<string> := ["sequence_pool", "fused_seqpool_cvm", "elementwise_mul"]

  /** A head of this many names or more is dropped before filtering. */
  const HeadCap: nat := 10

  predicate IsExcludedType(opType: string)
  {
    opType in ExcludedTypes || Contains(opType, "_grad")
  }

  predicate IsHeadRole(parameter: string)
  {
    parameter == "X" || parameter == "Y" || parameter == "Input"
  }

  predicate IsTailRole(parameter: string)
  {
    parameter == "Out" || parameter == "Y"
  }

  /** An input slot whose names go into the head. Note that no `Ids` test is needed. */
  predicate ContributesToHead(p: Param)
  {
    IsHeadRole(p.parameter) && p.arguments.Some?
    && "seqpool_cvm" !in p.arguments.value && "feed" !in p.arguments.value
  }

  // ---------------------------------------------------------------------------------------
  // Head and tail collection.

  /** The names one input slot adds to the head, tested in the order `get_network` tests them. */
  function HeadArguments(p: Param): (r: Result<seq<string>, Failure>)
    ensures r.Failure? <==> IsHeadRole(p.parameter) && p.arguments.None?
    ensures r.Failure? ==> r.error == KeyError("arguments")
    ensures ContributesToHead(p) ==> r == Success(p.arguments.value)
    ensures r.Success? && !ContributesToHead(p) ==> r.value == []
  {
    if (p.parameter != "X" && p.parameter != "Y" && p.parameter != "Input") || p.parameter == "Ids" then
      Success([])
    else
      match p.arguments
      case None => Failure(KeyError("arguments"))
      case Some(args) =>
        if "seqpool_cvm" in args || "feed" in args then Success([]) else Success(args)
  }

  /** The names one output slot adds to the tail. */
  function TailArguments(p: Param): (r: Result<seq<string>, Failure>)
    ensures r.Failure? <==> IsTailRole(p.parameter) && p.arguments.None?
    ensures r.Failure? ==> r.error == KeyError("arguments")
    ensures IsTailRole(p.parameter) && p.arguments.Some? ==> r == Success(p.arguments.value)
    ensures !IsTailRole(p.parameter) ==> r == Success([])
  {
    if p.parameter == "Out" || p.parameter == "Y" then
      match p.arguments
      case None => Failure(KeyError("arguments"))
      case Some(args) => Success(args)
    else
      Success([])
  }

  function CollectHead(inputs: seq<Param>): Result<seq<string>, Failure>
  {
    ConcatMap(inputs, HeadArguments)
  }

  function CollectTail(outputs: seq<Param>): Result<seq<string>, Failure>
  {
    ConcatMap(outputs, TailArguments)
  }

  /** The size cap on heads: a head of `HeadCap` names or more becomes empty. */
  function Cap(head: seq<string>): (r: seq<string>)
    ensures |head| >= HeadCap ==> r == []
    ensures r == head <==> |head| < HeadCap
  {
    if |head| >= HeadCap then [] else head
  }

  // ---------------------------------------------------------------------------------------
  // One operator.

  /** The per-operator pipeline. Its checks run in the order `get_network` makes them and the first one
      that applies decides; a missing `arguments` key aborts with a failure. */
  function ProcessOp(op: Op): (r: Result<Outcome, Failure>)
    ensures r.Success? && r.value.Emit? ==>
              |r.value.edge.head| < HeadCap && r.value.edge.name == r.value.edge.tail
  {
    if op.inputs.None? || op.outputs.None? then
      Success(Skip(MissingPorts))
    else if IsExcludedType(op.opType) then
      Success(Skip(ExcludedType))
    else
      match CollectHead(op.inputs.value)
      case Failure(e) => Failure(e)
      case Success(head) =>
        if head == [] then
          Success(Skip(EmptyHead))
        else
          match CollectTail(op.outputs.value)
          case Failure(e) => Failure(e)
          case Success(tail) =>
            var capped := Cap(head);
            if FilterGenerateVar(capped, tail) then
              Success(Skip(Filtered))
            else if |tail| != 1 then
              Success(Skip(TailNotSingular))
            else
              Success(Emit(Edge(capped, tail[0], tail[0])))
  }

  /** The edges one operator contributes: none or one. */
  function OpEdges(op: Op): (r: Result<seq<Edge>, Failure>)
    ensures r.Success? ==> |r.value| <= 1
  {
    match ProcessOp(op)
    case Failure(e) => Failure(e)
    case Success(o) => Success(if o.Emit? then [o.edge] else [])
  }

  // ---------------------------------------------------------------------------------------
  // Blocks and the whole description.

  function ExtractOps(ops: seq<Op>): Result<seq<Edge>, Failure>
  {
    ConcatMap(ops, OpEdges)
  }

  /** A block is read as `vars` first, then `ops`; either may be a missing key. */
  function ExtractBlock(b: Block): Result<seq<Edge>, Failure>
  {
    if b.vars.None? then Failure(KeyError("vars"))
    else if b.ops.None? then Failure(KeyError("ops"))
    else ExtractOps(b.ops.value)
  }

  /** The edge list of a description, in block-then-operator encounter order. */
  function ExtractBlocks(blocks: seq<Block>): Result<seq<Edge>, Failure>
  {
    ConcatMap(blocks, ExtractBlock)
  }

  /** The extraction loop: the same walk with two nested loops appending to one list. */
  method GetNetwork(blocks: seq<Block>) returns (r: Result<seq<Edge>, Failure>)
    ensures r == ExtractBlocks(blocks)
  {
    var network: seq<Edge> := [];
    for b := 0 to |blocks|
      invariant ExtractBlocks(blocks[..b]) == Success(network)
    {
      var block := blocks[b];
      ConcatMapSnoc(blocks, b, ExtractBlock);
      if block.vars.None? || block.ops.None? {
        r := if block.vars.None? then Failure(KeyError("vars")) else Failure(KeyError("ops"));
        ConcatMapPrefixFailure(blocks, b + 1, ExtractBlock);
        return;
      }
      var ops := block.ops.value;
      var j := 0;
      var blockEdges: seq<Edge> := [];
      while j < |ops|
        invariant j <= |ops|
        invariant ExtractOps(ops[..j]) == Success(blockEdges)
        invariant network == ExtractBlocks(blocks[..b]).value + blockEdges
      {
        ConcatMapSnoc(ops, j, OpEdges);
        var outcome := ProcessOp(ops[j]);
        if outcome.Failure? {
          r := Failure(outcome.error);
          ConcatMapPrefixFailure(ops, j + 1, OpEdges);
          assert ops[..|ops|] == ops;
          ConcatMapPrefixFailure(blocks, b + 1, ExtractBlock);
          return;
        }
        if outcome.value.Emit? {
          network := network + [outcome.value.edge];
          blockEdges := blockEdges + [outcome.value.edge];
        } else {
          assert blockEdges + [] == blockEdges;
        }
        j := j + 1;
      }
      assert ops[..j] == ops;
    }
    assert blocks[..|blocks|] == blocks;
    r := Success(network);
  }
}
