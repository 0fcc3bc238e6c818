/** The synthetic-edge filter: decides whether a candidate (head, tail) pair of an operator
    is dropped before it can become an edge. */
module EdgeFilter {
  import opened PrefixRegex
  import opened Text
  import opened Classifier

  /** `cast_[0-9]+.tmp_[0-9]+` as the filter writes it. */
  function CastTailPattern(): Regex
  {
    TemporaryPattern("cast_", OneOrMore(Digit))
  }

  /** `_generated_var_[0-9]+` */
  function GeneratedTailPattern(): Regex
  {
    CounterPattern("_generated_var_")
  }

  /** `tmp_[0-9]+` */
  function TmpTailPattern(): Regex
  {
    CounterPattern("tmp_")
  }

  /** Should the candidate pair be dropped? The first test drops gradients, cast temporaries
      and empty tails whatever the head; the second drops generated or `tmp_` tails fed
      only by generated names. */
  function FilterGenerateVar(head: seq<string>, tail: seq<string>): bool
  {
    if tail == [] || Contains(tail[0], "GRAD")
       || (|tail| == 1 && Match(CastTailPattern(), tail[0])) then
      true
    else if (|tail| == 1 && Match(GeneratedTailPattern(), tail[0]))
            || (|tail| == 1 && Match(TmpTailPattern(), tail[0])) then
      if |head| == 1 then IsGenerateVar(head[0]) else IsGenerateVarList(head)
    else
      false
  }

  /** The tail shapes that are dropped whatever the head. */
  ghost predicate AlwaysDroppedTail(tail: seq<string>)
  {
    tail == [] || (exists i: nat :: OccursAt(tail[0], "GRAD", i))
    || (|tail| == 1 && TemporaryName("cast_", tail[0]))
  }

  /** The tail shapes that are dropped when every head name is generated. */
  predicate GeneratedOrTmpTail(tail: seq<string>)
  {
    |tail| == 1 && (CounterName("_generated_var_", tail[0]) || CounterName("tmp_", tail[0]))
  }

  /** The head condition of the second test: a non-empty head of generated names. */
  ghost predicate SyntheticHead(head: seq<string>)
  {
    |head| > 0 && forall i :: 0 <= i < |head| ==> SyntheticName(head[i])
  }

  /** Splitting the second test on `|head| == 1` changes nothing: both arms ask whether the
      head is a non-empty list of generated names. */
  lemma HeadSplitRedundant(head: seq<string>)
    ensures (if |head| == 1 then IsGenerateVar(head[0]) else IsGenerateVarList(head))
            == IsGenerateVarList(head)
  {
  }

  lemma SyntheticHeadIff(head: seq<string>)
    ensures IsGenerateVarList(head) <==> SyntheticHead(head)
  {
    forall i | 0 <= i < |head|
      ensures IsGenerateVar(head[i]) <==> SyntheticName(head[i])
    {
      IsGenerateVarIff(head[i]);
    }
  }

  /** The filter, described by the shapes of the names rather than by patterns. */
  lemma FilterIff(head: seq<string>, tail: seq<string>)
    ensures FilterGenerateVar(head, tail) <==>
            AlwaysDroppedTail(tail) || (GeneratedOrTmpTail(tail) && SyntheticHead(head))
  {
    if tail != [] {
      MatchTemporary("cast_", OneOrMore(Digit), tail[0]);
      MatchCounter("_generated_var_", tail[0]);
      MatchCounter("tmp_", tail[0]);
    }
    HeadSplitRedundant(head);
    SyntheticHeadIff(head);
  }

  /** The head plays no part in the first test. */
  lemma AlwaysDroppedWhateverHead(head: seq<string>, tail: seq<string>)
    requires AlwaysDroppedTail(tail)
    ensures FilterGenerateVar(head, tail)
  {
    FilterIff(head, tail);
  }

  /** An empty head never triggers the second test, so it is dropped only by the first. */
  lemma EmptyHeadOnlyFirstTest(tail: seq<string>)
    ensures FilterGenerateVar([], tail) <==> AlwaysDroppedTail(tail)
  {
    FilterIff([], tail);
  }

  /** A tail of two or more names is dropped only when its first name contains `GRAD`. */
  lemma SeveralTailsOnlyGrad(head: seq<string>, tail: seq<string>)
    requires |tail| >= 2
    ensures FilterGenerateVar(head, tail) <==> Contains(tail[0], "GRAD")
  {
  }
}
