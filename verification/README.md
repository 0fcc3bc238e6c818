# Network-relationship extractor, modelled in Dafny

This project models the network-relationship extractor of VisualDL's `thirdparty` tools
(`visualdl/thirdparty/create_network.py`). The extractor takes a model's program
description, already decoded into blocks of variables and operators. It reduces every
operator to at most one lineage edge. An edge runs from the meaningful names an operator
reads (`head`) to the single meaningful name it writes (`tail`, repeated as `name`).

The model has three layers:

- **Name classifier** (`Classifier`). `IsGenerateVar` decides whether a variable name was
  made by the toolchain. `IsGenerateVarList` lifts that test to a list. The five name
  families are a closed enumeration (`Family`) with one pattern each.
- **Edge filter** (`EdgeFilter`). `FilterGenerateVar` decides whether a candidate
  (head, tail) pair is dropped.
- **Extraction** (`Network`). `ProcessOp` runs the per-operator pipeline in the order
  `get_network` uses. It returns `Emit(edge)` or `Skip(reason)`, or fails with a `KeyError`.
  `ExtractBlocks` folds it over blocks and operators. `GetNetwork` is the same walk as two
  nested loops, proved equal to the fold.

Supporting modules:

- `PrefixRegex` is a small regular-expression matcher with the semantics of Python's
  `re.match`. The match is anchored at the start only, so a pattern accepts every string
  with a matching prefix. `.` accepts any character except a line feed. Each pattern is
  also described without regular expressions, by the characters of the name
  (`CounterName`, `TemporaryName`, `SyntheticName`), and lemmas prove that the two
  descriptions agree.
- `Folds.ConcatMap` is the left-to-right "concatenate, first failure aborts" fold. It is
  used for head collection, tail collection, operators and blocks.

Decoding a description drops empty lists, so every list-valued key can be absent. The
model writes them as `Option`. Two missing keys are tested for by `get_network`: an operator
without `inputs` or `outputs` is skipped. Three others are indexed without a test: a
block's `vars` or `ops`, and the `arguments` of a slot the loop reads. A missing one raises
a `KeyError`, which ends the whole extraction. The model returns `Failure(KeyError(key))`
in those cases.

Three behaviours of the code are worth stating plainly:

- An emitted edge can have an empty head. The ten-name cap (lines 161-162) runs after the
  empty-head test (line 156), and an emptied head never triggers the second filter test.
  So a head of ten or more generated names in front of a `tmp_` tail gives an edge with an
  empty head (`CappedHeadEmitted`, `CappedHeadExample`).
- Every name pattern is a prefix test, because `re.match` anchors only at the start. The
  `.` in `..._[0-9]+.tmp_...` is an unescaped wildcard, not a literal dot.
- The `Ids` test at line 151 can never decide anything, because a slot that reaches it
  already has the role `X`, `Y` or `Input`. `ContributesToHead` has no `Ids` clause, and
  `HeadArguments` is proved against it.

## Model

| member | source | states |
|---|---|---|
| Text.Contains | visualdl/thirdparty/create_network.py:80 | Python's substring test `sub in s`: true iff `sub` occurs at some index of `s` |
| PrefixRegex.MatchLiteral | visualdl/thirdparty/create_network.py:59-63 | a literal part of a pattern under `re.match` must be a literal prefix of the name, and the rest of the pattern is matched after it |
| PrefixRegex.MatchOneOrMore | visualdl/thirdparty/create_network.py:59-63 | `[0-9]+` followed by more pattern matches iff some non-empty digit run is followed by a match of the rest (backtracking, so `.` may take a digit) |
| PrefixRegex.TrailingOneOrMore | visualdl/thirdparty/create_network.py:59-63 | under prefix matching, a trailing `a+` accepts exactly the names a trailing `a` accepts |
| Classifier.MatchCounter | visualdl/thirdparty/create_network.py:59 | `prefix[0-9]+` accepts exactly the names that start with the prefix and a digit, whatever follows |
| Classifier.MatchTemporary | visualdl/thirdparty/create_network.py:60-63 | `prefix[0-9]+.tmp_[0-9]` accepts exactly the names made of the prefix, one or more digits, any non-newline character, `tmp_` and a digit, then anything |
| Classifier.IsGenerateVarIff | visualdl/thirdparty/create_network.py:49-66 | a name is generated iff it starts with `_generated_var_` or `learning_rate_` and a digit, or is a `sequence_pool_`, `cast_` or `embedding_` temporary |
| Classifier.CastPatternsAgree | visualdl/thirdparty/create_network.py:61 | the classifier's `cast_[0-9]+.tmp_[0-9]` accepts the same names as the filter's `cast_[0-9]+.tmp_[0-9]+` |
| Classifier.GeneratedCount | visualdl/thirdparty/create_network.py:35-43 | the `flag` counter never exceeds the list length, and equals it iff every name is generated |
| Classifier.IsGenerateVarList | visualdl/thirdparty/create_network.py:25-46 | false on an empty list; otherwise true iff every name is generated |
| EdgeFilter.FilterIff | visualdl/thirdparty/create_network.py:69-91 | the pair is dropped iff the tail is empty, its first name contains `GRAD`, or it is a single cast temporary; or it is a single `_generated_var_<digit>` / `tmp_<digit>` name and the head is a non-empty list of generated names |
| EdgeFilter.HeadSplitRedundant | visualdl/thirdparty/create_network.py:85-90 | the `len(head) == 1` split in the second test changes nothing: both arms ask whether the head is a non-empty list of generated names |
| EdgeFilter.AlwaysDroppedWhateverHead | visualdl/thirdparty/create_network.py:79-82 | the first test (empty tail, `GRAD`, single cast tail) drops the pair whatever the head |
| EdgeFilter.EmptyHeadOnlyFirstTest | visualdl/thirdparty/create_network.py:83-91 | an empty head never triggers the second test |
| EdgeFilter.SeveralTailsOnlyGrad | visualdl/thirdparty/create_network.py:79-91 | a tail of two or more names is dropped iff its first name contains `GRAD` |
| Network.HeadArguments | visualdl/thirdparty/create_network.py:149-155 | an input slot adds its names iff its role is `X`, `Y` or `Input` and its names include neither `seqpool_cvm` nor `feed` (no `Ids` test needed); it fails with `KeyError("arguments")` iff such a role has no names key |
| Network.TailArguments | visualdl/thirdparty/create_network.py:158-160 | an output slot adds its names iff its role is `Out` or `Y`; it fails iff such a slot has no names key |
| Network.Cap | visualdl/thirdparty/create_network.py:161-162 | a head of ten or more names becomes empty, and the head is kept unchanged iff it has fewer than ten names |
| Network.ProcessOp | visualdl/thirdparty/create_network.py:138-172 | an emitted edge has fewer than ten head names and equal `tail` and `name` |
| Network.OpEdges | visualdl/thirdparty/create_network.py:165-172 | an operator contributes at most one edge |
| Network.GetNetwork | visualdl/thirdparty/create_network.py:130-173 | the nested loops with their early aborts compute exactly the block-then-operator fold `ExtractBlocks` |
| NetworkProperties.CollectHeadFailsIff | visualdl/thirdparty/create_network.py:149-155 | collecting the head fails, always with `KeyError("arguments")`, iff some `X`/`Y`/`Input` slot has no names key |
| NetworkProperties.CollectHeadAppend | visualdl/thirdparty/create_network.py:155 | the head is built in slot order with duplicates kept: two runs of slots give the first run's head followed by the second's |
| NetworkProperties.CollectHeadSingle | visualdl/thirdparty/create_network.py:149-155 | a single slot gives exactly its names when it qualifies and nothing otherwise |
| NetworkProperties.CollectHeadMembers | visualdl/thirdparty/create_network.py:149-155 | a name is in the head iff some qualifying input slot binds it |
| NetworkProperties.CollectTailFailsIff | visualdl/thirdparty/create_network.py:158-160 | collecting the tail fails, always with `KeyError("arguments")`, iff some `Out`/`Y` slot has no names key |
| NetworkProperties.CollectTailAppend | visualdl/thirdparty/create_network.py:158-160 | tail candidates are concatenated in slot order |
| NetworkProperties.CollectTailMembers | visualdl/thirdparty/create_network.py:158-160 | a name is a tail candidate iff some `Out`/`Y` slot binds it |
| NetworkProperties.EmitIff | visualdl/thirdparty/create_network.py:143-172 | an operator yields edge `e` iff it has both port lists, its kind is not excluded, its collected head is non-empty, its tail candidates are exactly `[e.tail]`, `e.name == e.tail`, `e.head` is the head with the cap applied, and the filter (stated by name shapes) keeps the pair |
| NetworkProperties.ExcludedNeverEmits | visualdl/thirdparty/create_network.py:143-148 | an operator missing `inputs` or `outputs`, of kind `sequence_pool`, `fused_seqpool_cvm` or `elementwise_mul`, or whose kind contains `_grad`, yields nothing and cannot fail |
| NetworkProperties.ProcessOpFailsIff | visualdl/thirdparty/create_network.py:145-160 | an operator fails only with `KeyError("arguments")`, iff it passes the kind tests and its head collection fails, or its head is non-empty and its tail collection fails |
| NetworkProperties.ExtractBlockFailsIff | visualdl/thirdparty/create_network.py:130-138 | a block fails iff it has no `vars` or `ops` key or one of its operators fails |
| NetworkProperties.ExtractFailsIff | visualdl/thirdparty/create_network.py:130-173 | extraction fails iff some block fails; nothing is skipped past a failure |
| NetworkProperties.ExtractAppend | visualdl/thirdparty/create_network.py:130 | edges keep block order: two runs of blocks give the first run's edges followed by the second's |
| NetworkProperties.ExtractOpsAppend | visualdl/thirdparty/create_network.py:138 | within a block, edges keep operator order |
| NetworkProperties.ExtractedEdgeProvenance | visualdl/thirdparty/create_network.py:130-172 | an edge is in the result iff some operator of some block yields it |
| NetworkProperties.ExtractedEdgesWellFormed | visualdl/thirdparty/create_network.py:161-170 | every extracted edge has fewer than ten head names (possibly none) and `name == tail` |
| NetworkProperties.AtMostOneEdgePerOp | visualdl/thirdparty/create_network.py:138-172 | the edge list is no longer than the number of operators |
| NetworkExamples.PlainTailKept | visualdl/thirdparty/create_network.py:79-91 | a single tail with no `G`, not starting with `c`, `_` or `t`, is kept whatever the head |
| NetworkExamples.FcExample | visualdl/thirdparty/create_network.py:138-172 | `fc` reading `feature_a` and writing `fc_0.tmp_1` yields the edge `["feature_a"] -> fc_0.tmp_1` |
| NetworkExamples.GeneratedVarExample | visualdl/thirdparty/create_network.py:83-87 | `_generated_var_3` feeding `_generated_var_7` is filtered out |
| NetworkExamples.ElementwiseMulExample | visualdl/thirdparty/create_network.py:147-148 | an `elementwise_mul` operator is skipped before its slots are read, whatever they hold |
| NetworkExamples.CappedHeadEmitted | visualdl/thirdparty/create_network.py:156-163 | a head of ten or more names becomes empty and the edge is emitted unless the tail alone is dropped |
| NetworkExamples.UncappedSyntheticHeadFiltered | visualdl/thirdparty/create_network.py:83-90 | a head of one to nine generated names in front of a generated or `tmp_` tail is filtered out |
| NetworkExamples.CappedHeadExample | visualdl/thirdparty/create_network.py:161-172 | ten `_generated_var_1` names in front of `tmp_5` yield an edge with an empty head |

## Left out

- Loading the description (`load_pbtxt_file`, lines 94-111) and `MessageToDict` (line 126): protobuf text and binary parsing happen in a library outside this model. The model starts from decoded blocks.
- The `data['blocks']` lookup (line 127): the model takes the block list as given.
- Required protobuf fields: operator `type`, slot `parameter` and variable `name` are assumed present.
- `save_network` (lines 176-193): JSON file writing. Its only logic is that an empty list is not written.
- All `logger` calls and the `json.dumps` used for logging. They have no effect on the result.
- `vars_name_list` (lines 128 and 133-136): deduplicated variable names that are computed but never used. Only the lookup of the `vars` key is modelled, because a missing key raises.
- The operator counter `i` (lines 137 and 139): it is never read.
- The `stage` argument of `get_network`: it is not read by the extraction.
- The `isinstance(var_list, list)` test (line 39): every caller passes a list.
- The `"tail" in vars` test (line 79): it is always true, because line 142 sets the key.
- `visualdl/thirdparty/download_util.py`: distributed-filesystem subprocess calls, directory handling and a multiprocessing copy pool. It is input/output plumbing.
