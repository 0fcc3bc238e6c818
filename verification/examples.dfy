/** Worked operators, each pinned to the outcome the extractor gives it. */
module NetworkExamples {
  import opened Wrappers
  import opened PrefixRegex
  import opened Text
  import opened Classifier
  import opened EdgeFilter
  import opened Network
  import NetworkProperties
  import Folds

  function XInput(args: seq<string>): Param
  {
    Param("X", Some(args))
  }

  function OutOutput(name: string): Param
  {
    Param("Out", Some([name]))
  }

  /** The filter keeps a single authored tail: no `GRAD`, not a cast, generated or `tmp_` name. */
  lemma PlainTailKept(head: seq<string>, tail: string)
    requires 'G' !in tail
    requires |tail| > 0 && tail[0] != 'c' && tail[0] != '_' && tail[0] != 't'
    ensures !FilterGenerateVar(head, [tail])
  {
    FilterIff(head, [tail]);
    MissingCharacter(tail, "GRAD", 'G');
    if |tail| >= 5 {
      assert tail[..5][0] != "cast_"[0];
    }
    if |tail| >= 4 {
      assert tail[..4][0] != "tmp_"[0];
    }
    if |tail| >= 15 {
      assert tail[..15][0] != "_generated_var_"[0];
    }
  }

  /** A fully connected layer reading an authored feature yields the plain edge. */
  lemma FcExample(op: Op, feature: string, tail: string)
    requires feature == "feature_a" && tail == "fc_0.tmp_1"
    requires op == Op("fc", Some([XInput([feature])]), Some([OutOutput(tail)]))
    ensures ProcessOp(op) == Success(Emit(Edge([feature], tail, tail)))
  {
    MissingCharacter("fc", "_grad", '_');
    assert ContributesToHead(XInput([feature]));
    NetworkProperties.CollectHeadSingle(XInput([feature]));
    Folds.ConcatMapSingle(OutOutput(tail), TailArguments);
    assert [] + [tail] == [tail];
    PlainTailKept([feature], tail);
  }

  /** A generated variable feeding a generated variable is filtered out. */
  lemma GeneratedVarExample(op: Op, head: string, tail: string)
    requires head == "_generated_var_3" && tail == "_generated_var_7"
    requires op == Op("fc", Some([XInput([head])]), Some([OutOutput(tail)]))
    ensures ProcessOp(op) == Success(Skip(Filtered))
  {
    MissingCharacter("fc", "_grad", '_');
    assert ContributesToHead(XInput([head]));
    NetworkProperties.CollectHeadSingle(XInput([head]));
    Folds.ConcatMapSingle(OutOutput(tail), TailArguments);
    assert [] + [tail] == [tail];
    assert head[..15] == "_generated_var_" && tail[..15] == "_generated_var_";
    assert CounterName("_generated_var_", head);
    assert SyntheticHead([head]);
    FilterIff([head], [tail]);
  }

  /** An `elementwise_mul` operator is excluded before its slots are looked at, even a slot
      that would make any other operator fail. */
  lemma ElementwiseMulExample(op: Op, inputs: seq<Param>, outputs: seq<Param>)
    requires op == Op("elementwise_mul", Some(inputs), Some(outputs))
    ensures ProcessOp(op) == Success(Skip(ExcludedType))
  {
  }

  /** The cap lets a head of ten or more generated names through with an empty head: the
      emptied head does not trigger the second filter test, so the edge is emitted. */
  lemma CappedHeadEmitted(opType: string, args: seq<string>, tail: string)
    requires !IsExcludedType(opType)
    requires |args| >= HeadCap && "seqpool_cvm" !in args && "feed" !in args
    requires !AlwaysDroppedTail([tail])
    ensures ProcessOp(Op(opType, Some([XInput(args)]), Some([OutOutput(tail)])))
            == Success(Emit(Edge([], tail, tail)))
  {
    NetworkProperties.CollectHeadSingle(XInput(args));
    Folds.ConcatMapSingle(OutOutput(tail), TailArguments);
    assert [] + [tail] == [tail];
    EmptyHeadOnlyFirstTest([tail]);
  }

  /** Below the cap, the same generated head in front of a generated or `tmp_` tail is
      filtered out. */
  lemma UncappedSyntheticHeadFiltered(opType: string, args: seq<string>, tail: string)
    requires !IsExcludedType(opType)
    requires 0 < |args| < HeadCap && "seqpool_cvm" !in args && "feed" !in args
    requires forall i :: 0 <= i < |args| ==> SyntheticName(args[i])
    requires GeneratedOrTmpTail([tail])
    ensures ProcessOp(Op(opType, Some([XInput(args)]), Some([OutOutput(tail)]))) == Success(Skip(Filtered))
  {
    NetworkProperties.CollectHeadSingle(XInput(args));
    Folds.ConcatMapSingle(OutOutput(tail), TailArguments);
    assert [] + [tail] == [tail];
    FilterIff(args, [tail]);
  }

  /** Ten generated names in front of `tmp_5`: emitted, with an empty head. */
  lemma CappedHeadExample(args: seq<string>, tail: string)
    requires args == seq(10, _ => "_generated_var_1") && tail == "tmp_5"
    ensures ProcessOp(Op("fc", Some([XInput(args)]), Some([OutOutput(tail)])))
            == Success(Emit(Edge([], tail, tail)))
  {
    MissingCharacter("fc", "_grad", '_');
    MissingCharacter(tail, "GRAD", 'G');
    assert tail[..5][0] != "cast_"[0];
    CappedHeadEmitted("fc", args, tail);
  }
}
