/** The synthetic-variable classifier: decides whether a variable name was generated by the
    model-building toolchain (casts, pooling and embedding temporaries, learning-rate and
    anonymous counters) rather than chosen by the model's author. */
module Classifier {
  import opened PrefixRegex

  /** `prefix[0-9]+` */
  function CounterPattern(prefix: string): Regex
  {
    Literal(prefix) + [OneOrMore(Digit)]
  }

  /** `prefix[0-9]+.tmp_[0-9]+`, or `prefix[0-9]+.tmp_[0-9]` when `last` is `Once(Digit)`.
      The `.` is the unescaped wildcard of the patterns in `is_generate_var`, not a literal dot. */
  function TemporaryPattern(prefix: string, last: Term): Regex
  {
    Literal(prefix) + ([OneOrMore(Digit)] + ([Once(AnyButNewline)] + (Literal("tmp_") + [last])))
  }

  /** The five families of generated names. */
  datatype Family = GeneratedVar | SequencePoolTmp | CastTmp | LearningRate | EmbeddingTmp

  /** The pattern of each family, exactly as the classifier writes it. */
  function Pattern(f: Family): Regex
  {
    match f
    case GeneratedVar => CounterPattern("_generated_var_")
    case SequencePoolTmp => TemporaryPattern("sequence_pool_", OneOrMore(Digit))
    case CastTmp => TemporaryPattern("cast_", Once(Digit))
    case LearningRate => CounterPattern("learning_rate_")
    case EmbeddingTmp => TemporaryPattern("embedding_", OneOrMore(Digit))
  }

  /** Is `name` a generated variable? The families are tried in this order. */
  function IsGenerateVar(name: string): bool
  {
    Match(Pattern(GeneratedVar), name)
    || Match(Pattern(SequencePoolTmp), name)
    || Match(Pattern(CastTmp), name)
    || Match(Pattern(LearningRate), name)
    || Match(Pattern(EmbeddingTmp), name)
  }

  /** How many of `names` are generated (the `flag` counter of `is_generate_var_list`). */
  function GeneratedCount(names: seq<string>): (n: nat)
    ensures n <= |names|
    ensures n == |names| <==> forall i :: 0 <= i < |names| ==> IsGenerateVar(names[i])
  {
    if names == [] then 0
    else
      var n := GeneratedCount(names[1..]);
      assert forall i :: 0 < i < |names| ==> names[i] == names[1..][i - 1];
      (if IsGenerateVar(names[0]) then 1 else 0) + n
  }

  /** Are all of `names` generated? An empty list is not. */
  function IsGenerateVarList(names: seq<string>): (r: bool)
    ensures r <==> |names| > 0 && forall i :: 0 <= i < |names| ==> IsGenerateVar(names[i])
  {
    if names == [] then false else GeneratedCount(names) == |names|
  }

  // ---------------------------------------------------------------------------------------
  // Reference descriptions of the families, stated on the characters of the name.

  predicate AllDigits(s: string)
  {
    forall i :: 0 <= i < |s| ==> IsDigit(s[i])
  }

  /** `name` starts with `prefix` followed by a digit. */
  predicate CounterName(prefix: string, name: string)
  {
    |prefix| < |name| && name[..|prefix|] == prefix && IsDigit(name[|prefix|])
  }

  /** `name` starts with `prefix`, then `k` digits, then one character other than a line
      feed, then `tmp_` and a digit. */
  predicate TemporaryNameWith(prefix: string, name: string, k: nat)
  {
    var p := |prefix|;
    1 <= k && p + k + 6 <= |name| && name[..p] == prefix && AllDigits(name[p..p + k])
    && name[p + k] != '\n' && name[p + k + 1..p + k + 5] == "tmp_" && IsDigit(name[p + k + 5])
  }

  ghost predicate TemporaryName(prefix: string, name: string)
  {
    exists k: nat :: TemporaryNameWith(prefix, name, k)
  }

  /** The generated-name families, described without patterns. */
  ghost predicate SyntheticName(name: string)
  {
    CounterName("_generated_var_", name)
    || CounterName("learning_rate_", name)
    || TemporaryName("sequence_pool_", name)
    || TemporaryName("cast_", name)
    || TemporaryName("embedding_", name)
  }

  // ---------------------------------------------------------------------------------------
  // The patterns mean what the reference descriptions say.

  lemma MatchSingleDigit(last: Term, s: string)
    requires last == Once(Digit) || last == OneOrMore(Digit)
    ensures Match([last], s) <==> |s| > 0 && IsDigit(s[0])
  {
    if last.Once? {
      MatchOnce(Digit, [], s);
    } else {
      TrailingOneOrMore([], Digit, s);
      MatchOnce(Digit, [], s);
    }
  }

  /** `prefix[0-9]+` matches exactly the names that start with `prefix` and a digit. */
  lemma MatchCounter(prefix: string, name: string)
    ensures Match(CounterPattern(prefix), name) <==> CounterName(prefix, name)
  {
    MatchLiteral(prefix, [OneOrMore(Digit)], name);
    if |prefix| <= |name| {
      MatchSingleDigit(OneOrMore(Digit), name[|prefix|..]);
    }
  }

  /** What follows the digit run of a temporary pattern, read at position `k` of `t`. */
  lemma MatchTemporaryTail(last: Term, t: string, k: nat)
    requires last == Once(Digit) || last == OneOrMore(Digit)
    requires k <= |t|
    ensures Match([Once(AnyButNewline)] + (Literal("tmp_") + [last]), t[k..]) <==>
            k + 6 <= |t| && t[k] != '\n' && t[k + 1..k + 5] == "tmp_" && IsDigit(t[k + 5])
  {
    var u := t[k..];
    MatchOnce(AnyButNewline, Literal("tmp_") + [last], u);
    if |u| > 0 {
      MatchLiteral("tmp_", [last], u[1..]);
      if 4 <= |u[1..]| {
        MatchSingleDigit(last, u[1..][4..]);
        assert u[1..][..4] == t[k + 1..k + 5];
        if |u[1..][4..]| > 0 {
          assert u[1..][4..][0] == t[k + 5];
        }
      }
    }
  }

  /** `prefix[0-9]+.tmp_[0-9]` (and its `+` form) matches exactly the temporary names. */
  lemma MatchTemporary(prefix: string, last: Term, name: string)
    requires last == Once(Digit) || last == OneOrMore(Digit)
    ensures Match(TemporaryPattern(prefix, last), name) <==> TemporaryName(prefix, name)
  {
    var after := [Once(AnyButNewline)] + (Literal("tmp_") + [last]);
    var p := |prefix|;
    MatchLiteral(prefix, [OneOrMore(Digit)] + after, name);
    if p <= |name| && name[..p] == prefix {
      var t := name[p..];
      MatchOneOrMore(Digit, after, t);
      forall k: nat | 1 <= k
        ensures (RunOf(Digit, t, k) && Match(after, t[k..])) <==> TemporaryNameWith(prefix, name, k)
      {
        if k <= |t| {
          MatchTemporaryTail(last, t, k);
          assert t[..k] == name[p..p + k];
          if k + 6 <= |t| {
            assert t[k] == name[p + k];
            assert t[k + 1..k + 5] == name[p + k + 1..p + k + 5];
            assert t[k + 5] == name[p + k + 5];
          }
          assert RunOf(Digit, t, k) <==> AllDigits(name[p..p + k]) by {
            assert forall i :: 0 <= i < k ==> t[i] == name[p..p + k][i];
          }
        }
      }
    } else {
      assert forall k: nat :: !TemporaryNameWith(prefix, name, k);
    }
  }

  /** A name is generated exactly when it has one of the five generated-name shapes. */
  lemma IsGenerateVarIff(name: string)
    ensures IsGenerateVar(name) <==> SyntheticName(name)
  {
    MatchCounter("_generated_var_", name);
    MatchCounter("learning_rate_", name);
    MatchTemporary("sequence_pool_", OneOrMore(Digit), name);
    MatchTemporary("cast_", Once(Digit), name);
    MatchTemporary("embedding_", OneOrMore(Digit), name);
  }

  /** The classifier's `cast_[0-9]+.tmp_[0-9]` and the filter's `cast_[0-9]+.tmp_[0-9]+`
      accept the same names. */
  lemma CastPatternsAgree(name: string)
    ensures Match(TemporaryPattern("cast_", Once(Digit)), name)
            == Match(TemporaryPattern("cast_", OneOrMore(Digit)), name)
  {
    MatchTemporary("cast_", Once(Digit), name);
    MatchTemporary("cast_", OneOrMore(Digit), name);
  }
}
