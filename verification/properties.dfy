/** What the extractor guarantees about the edges it produces and the failures it raises. */
module NetworkProperties {
  import opened Wrappers
  import opened Folds
  import opened Text
  import opened Classifier
  import opened EdgeFilter
  import opened Network

  // ---------------------------------------------------------------------------------------
  // Head and tail collection.

  /** Collecting the head fails exactly when a slot with a head role has no `arguments` key. */
  lemma CollectHeadFailsIff(inputs: seq<Param>)
    ensures CollectHead(inputs).Failure? <==>
            exists i :: 0 <= i < |inputs| && IsHeadRole(inputs[i].parameter) && inputs[i].arguments.None?
    ensures CollectHead(inputs).Failure? ==> CollectHead(inputs).error == KeyError("arguments")
  {
    ConcatMapFailsIff(inputs, HeadArguments);
    if CollectHead(inputs).Failure? {
      var i := ConcatMapFailureWitness(inputs, HeadArguments);
    }
  }

  /** The head is the concatenation of the contributing slots' names, in slot order and
      with duplicates kept: collecting two runs of slots concatenates their heads. */
  lemma CollectHeadAppend(a: seq<Param>, b: seq<Param>)
    ensures CollectHead(a + b) == Then(CollectHead(a), CollectHead(b))
  {
    ConcatMapAppend(a, b, HeadArguments);
  }

  /** A single slot contributes its names exactly when it qualifies. */
  lemma CollectHeadSingle(p: Param)
    ensures ContributesToHead(p) ==> CollectHead([p]) == Success(p.arguments.value)
    ensures CollectHead([p]).Success? && !ContributesToHead(p) ==> CollectHead([p]).value == []
  {
    ConcatMapSingle(p, HeadArguments);
    if ContributesToHead(p) {
      assert [] + p.arguments.value == p.arguments.value;
    }
  }

  /** A name is in the head exactly when some contributing slot binds it. */
  lemma CollectHeadMembers(inputs: seq<Param>, x: string)
    requires CollectHead(inputs).Success?
    ensures x in CollectHead(inputs).value <==>
            exists i :: 0 <= i < |inputs| && ContributesToHead(inputs[i]) && x in inputs[i].arguments.value
  {
    ConcatMapMembers(inputs, HeadArguments, x);
  }

  /** Collecting the tail fails exactly when an `Out` or `Y` slot has no `arguments` key. */
  lemma CollectTailFailsIff(outputs: seq<Param>)
    ensures CollectTail(outputs).Failure? <==>
            exists i :: 0 <= i < |outputs| && IsTailRole(outputs[i].parameter) && outputs[i].arguments.None?
    ensures CollectTail(outputs).Failure? ==> CollectTail(outputs).error == KeyError("arguments")
  {
    ConcatMapFailsIff(outputs, TailArguments);
    if CollectTail(outputs).Failure? {
      var i := ConcatMapFailureWitness(outputs, TailArguments);
    }
  }

  lemma CollectTailAppend(a: seq<Param>, b: seq<Param>)
    ensures CollectTail(a + b) == Then(CollectTail(a), CollectTail(b))
  {
    ConcatMapAppend(a, b, TailArguments);
  }

  /** A name is a tail candidate exactly when an `Out` or `Y` slot binds it. */
  lemma CollectTailMembers(outputs: seq<Param>, x: string)
    requires CollectTail(outputs).Success?
    ensures x in CollectTail(outputs).value <==>
            exists i :: 0 <= i < |outputs| && IsTailRole(outputs[i].parameter)
                        && outputs[i].arguments.Some? && x in outputs[i].arguments.value
  {
    ConcatMapMembers(outputs, TailArguments, x);
  }

  // ---------------------------------------------------------------------------------------
  // One operator.

  /** The conditions under which an operator yields edge `e`, stated with the shapes of
      names instead of patterns. */
  ghost predicate EmitsEdge(op: Op, e: Edge)
  {
    op.inputs.Some? && op.outputs.Some? && !IsExcludedType(op.opType)
    && CollectHead(op.inputs.value).Success?
    && var head := CollectHead(op.inputs.value).value;
    head != []
    && CollectTail(op.outputs.value) == Success([e.tail])
    && e.name == e.tail
    && e.head == (if |head| >= HeadCap then [] else head)
    && !AlwaysDroppedTail([e.tail])
    && !(GeneratedOrTmpTail([e.tail]) && SyntheticHead(e.head))
  }

  lemma EmitIff(op: Op, e: Edge)
    ensures ProcessOp(op) == Success(Emit(e)) <==> EmitsEdge(op, e)
  {
    if op.inputs.Some? && op.outputs.Some? && !IsExcludedType(op.opType)
       && CollectHead(op.inputs.value).Success? && CollectHead(op.inputs.value).value != []
       && CollectTail(op.outputs.value).Success? {
      var head := CollectHead(op.inputs.value).value;
      var tail := CollectTail(op.outputs.value).value;
      FilterIff(Cap(head), tail);
      if ProcessOp(op) == Success(Emit(e)) {
        assert tail == [e.tail];
      }
      if EmitsEdge(op, e) {
        assert Cap(head) == e.head;
      }
    }
  }

  /** Operators without both port lists, of an excluded kind or of a gradient kind yield
      nothing and cannot fail, whatever their slots hold. */
  lemma ExcludedNeverEmits(op: Op)
    requires op.inputs.None? || op.outputs.None? || IsExcludedType(op.opType)
    ensures OpEdges(op) == Success([])
  {
  }

  /** The only failure an operator can raise is a missing `arguments` key: in a head slot,
      or, once the head is non-empty, in a tail slot. */
  lemma ProcessOpFailsIff(op: Op)
    ensures ProcessOp(op).Failure? <==>
            op.inputs.Some? && op.outputs.Some? && !IsExcludedType(op.opType)
            && (CollectHead(op.inputs.value).Failure?
                || (CollectHead(op.inputs.value).value != [] && CollectTail(op.outputs.value).Failure?))
    ensures ProcessOp(op).Failure? ==> ProcessOp(op).error == KeyError("arguments")
  {
    if op.inputs.Some? && op.outputs.Some? {
      CollectHeadFailsIff(op.inputs.value);
      CollectTailFailsIff(op.outputs.value);
    }
  }

  // ---------------------------------------------------------------------------------------
  // The whole description.

  /** A block that makes the extraction fail: a missing `vars` or `ops` key, or an
      operator whose processing fails. */
  ghost predicate BlockFails(b: Block)
  {
    b.vars.None? || b.ops.None?
    || exists j :: 0 <= j < |b.ops.value| && ProcessOp(b.ops.value[j]).Failure?
  }

  lemma ExtractBlockFailsIff(b: Block)
    ensures ExtractBlock(b).Failure? <==> BlockFails(b)
  {
    if b.vars.Some? && b.ops.Some? {
      var ops := b.ops.value;
      ConcatMapFailsIff(ops, OpEdges);
      assert forall j :: 0 <= j < |ops| ==> (OpEdges(ops[j]).Failure? <==> ProcessOp(ops[j]).Failure?);
    }
  }

  /** Extraction fails exactly when some block fails; no failure is skipped over. */
  lemma ExtractFailsIff(blocks: seq<Block>)
    ensures ExtractBlocks(blocks).Failure? <==> exists i :: 0 <= i < |blocks| && BlockFails(blocks[i])
  {
    ConcatMapFailsIff(blocks, ExtractBlock);
    forall i | 0 <= i < |blocks|
      ensures ExtractBlock(blocks[i]).Failure? <==> BlockFails(blocks[i])
    {
      ExtractBlockFailsIff(blocks[i]);
    }
  }

  /** Edges keep encounter order: the edges of two runs of blocks are the edges of the
      first run followed by those of the second. */
  lemma ExtractAppend(a: seq<Block>, b: seq<Block>)
    ensures ExtractBlocks(a + b) == Then(ExtractBlocks(a), ExtractBlocks(b))
  {
    ConcatMapAppend(a, b, ExtractBlock);
  }

  /** Within a block, edges keep operator order. */
  lemma ExtractOpsAppend(a: seq<Op>, b: seq<Op>)
    ensures ExtractOps(a + b) == Then(ExtractOps(a), ExtractOps(b))
  {
    ConcatMapAppend(a, b, OpEdges);
  }

  /** An edge is extracted exactly when some operator of some block yields it. */
  lemma ExtractedEdgeProvenance(blocks: seq<Block>, e: Edge)
    requires ExtractBlocks(blocks).Success?
    ensures e in ExtractBlocks(blocks).value <==>
            exists i, j :: 0 <= i < |blocks| && blocks[i].ops.Some? && 0 <= j < |blocks[i].ops.value|
                           && ProcessOp(blocks[i].ops.value[j]) == Success(Emit(e))
  {
    ConcatMapMembers(blocks, ExtractBlock, e);
    forall i | 0 <= i < |blocks|
      ensures e in ExtractBlock(blocks[i]).value <==>
              blocks[i].ops.Some? && exists j :: 0 <= j < |blocks[i].ops.value|
                                                 && ProcessOp(blocks[i].ops.value[j]) == Success(Emit(e))
    {
      var ops := blocks[i].ops.value;
      ConcatMapMembers(ops, OpEdges, e);
    }
  }

  /** Every extracted edge has a head below the cap (possibly empty) and equal `tail` and `name`. */
  lemma ExtractedEdgesWellFormed(blocks: seq<Block>)
    requires ExtractBlocks(blocks).Success?
    ensures forall e :: e in ExtractBlocks(blocks).value ==> |e.head| < HeadCap && e.name == e.tail
  {
    forall e | e in ExtractBlocks(blocks).value
      ensures |e.head| < HeadCap && e.name == e.tail
    {
      ExtractedEdgeProvenance(blocks, e);
    }
  }

  /** The number of operators of the blocks that have an `ops` key. */
  function OpCount(blocks: seq<Block>): nat
  {
    if blocks == [] then 0
    else
      var b := blocks[|blocks| - 1];
      OpCount(blocks[..|blocks| - 1]) + (if b.ops.Some? then |b.ops.value| else 0)
  }

  /** An operator contributes at most one edge. */
  lemma {:induction false} AtMostOneEdgePerOp(blocks: seq<Block>)
    requires ExtractBlocks(blocks).Success?
    ensures |ExtractBlocks(blocks).value| <= OpCount(blocks)
    decreases |blocks|
  {
    if blocks != [] {
      var n := |blocks| - 1;
      ConcatMapSnoc(blocks, n, ExtractBlock);
      assert blocks[..n + 1] == blocks;
      AtMostOneEdgePerOp(blocks[..n]);
      ConcatMapAtMostOne(blocks[n].ops.value, OpEdges);
    }
  }
}
